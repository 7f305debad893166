/** The bounded event log of a debug operation, and a reader that follows it. */
module DebugEvents {
  import opened Numbers

  const MAX_EVENTS := 512
  const MAX_EVENT_BYTES := 4 * 1024 * 1024
  const PAGE := 128

  /** An MI record or lifecycle transition; `size` is the length of its encoding. */
  datatype Record = Record(kind: string, class_: string, exitReason: bool, size: nat)

  datatype Event = Event(sequence: nat, record: Record)

  function Bytes(events: seq<Event>): nat
  {
    if events == [] then 0 else Bytes(events[..|events| - 1]) + events[|events| - 1].record.size
  }

  lemma {:induction false} BytesFromFront(events: seq<Event>)
    requires events != []
    ensures Bytes(events) == events[0].record.size + Bytes(events[1..])
  {
    if |events| > 1 {
      var shorter := events[..|events| - 1];
      BytesFromFront(shorter);
      assert shorter[1..] == events[1..][..|events| - 2];
    } else {
      assert events[..0] == [] && events[1..] == [];
    }
  }

  predicate WithinLimits(events: seq<Event>) { |events| <= MAX_EVENTS && Bytes(events) <= MAX_EVENT_BYTES }

  /** The retained events are the history from `base` on, numbered by their position in it. */
  ghost predicate Retains(history: seq<Record>, events: seq<Event>) {
    && |events| <= |history|
    && forall i :: 0 <= i < |events| ==>
         events[i] == Event(|history| - |events| + i, history[|history| - |events| + i])
  }

  // ---- reading -----------------------------------------------------------------------

  /** A moment of the log: all records ever appended, and how many of the first are gone. */
  datatype View = View(history: seq<Record>, base: nat) {
    predicate Valid() { base <= |history| }
  }

  datatype Answer = Lost | Waiting | Page(records: seq<Record>, next: nat)

  /** One page from `cursor`, at most PAGE records long. An ended log answers even with none. */
  function Read(view: View, cursor: nat, ended: bool): Answer
    requires view.Valid()
  {
    if cursor < view.base || cursor > |view.history| then Lost
    else if cursor < |view.history| || ended then
      var end := Min(|view.history|, cursor + PAGE);
      Page(view.history[cursor..end], end)
    else Waiting
  }

  /** Later moments only append records and drop old ones. */
  ghost predicate Later(a: View, b: View) {
    a.history <= b.history && a.base <= b.base
  }

  datatype Followed = Followed(records: seq<Record>, cursor: nat, lost: bool)

  /** A reader that polls at each of the given moments, continuing where its last page ended. */
  function Follow(views: seq<View>, ended: seq<bool>, cursor: nat): Followed
    requires |ended| == |views| && forall i :: 0 <= i < |views| ==> views[i].Valid()
    decreases |views|
  {
    if views == [] then Followed([], cursor, false)
    else
      match Read(views[0], cursor, ended[0])
      case Lost => Followed([], cursor, true)
      case Waiting => Follow(views[1..], ended[1..], cursor)
      case Page(records, next) =>
        var rest := Follow(views[1..], ended[1..], next);
        rest.(records := records + rest.records)
  }

  /** Across any appends and evictions the reader has seen each record from its start exactly once,
      in order, or has been told that it lost its place. */
  lemma {:induction false} ExactlyOnce(views: seq<View>, ended: seq<bool>, cursor: nat, final: View)
    requires |ended| == |views| && forall i :: 0 <= i < |views| ==> views[i].Valid()
    requires forall i :: 0 <= i < |views| ==> Later(views[i], final)
    requires forall i, j :: 0 <= i < j < |views| ==> Later(views[i], views[j])
    requires cursor <= |final.history|
    ensures var f := Follow(views, ended, cursor);
      cursor <= f.cursor <= |final.history| && f.records == final.history[cursor..f.cursor]
    decreases |views|
  {
    if views != [] {
      var view := views[0];
      match Read(view, cursor, ended[0])
      case Lost =>
      case Waiting => ExactlyOnce(views[1..], ended[1..], cursor, final);
      case Page(records, next) =>
        assert Later(view, final);
        ExactlyOnce(views[1..], ended[1..], next, final);
        assert final.history[cursor..next] == view.history[cursor..next];
    }
  }

  /** A reader that keeps up is never told it lost its place: only evicted or future cursors are. */
  lemma LostIffOutside(view: View, cursor: nat, ended: bool)
    requires view.Valid()
    ensures Read(view, cursor, ended).Lost? <==> !(view.base <= cursor <= |view.history|)
    ensures Read(view, cursor, ended).Waiting? <==> cursor == |view.history| && !ended
  {
  }

  lemma RetainsOneMore(history: seq<Record>, events: seq<Event>, record: Record)
    requires Retains(history, events)
    ensures Retains(history + [record], events + [Event(|history|, record)])
    ensures Bytes(events + [Event(|history|, record)]) == Bytes(events) + record.size
  {
    assert (events + [Event(|history|, record)])[..|events|] == events;
  }

  lemma EvictOne(history: seq<Record>, all: seq<Event>, gone: nat)
    requires gone <= |all| && Retains(history, all[gone..])
    requires all[gone..] != [] || Bytes(all[gone..]) > 0
    ensures gone < |all| && all[gone..][1..] == all[gone + 1..]
    ensures Retains(history, all[gone + 1..])
    ensures Bytes(all[gone..]) == all[gone].record.size + Bytes(all[gone + 1..])
  {
    hide Retains, Bytes;
    EmptyHasNoBytes();
    BytesFromFront(all[gone..]);
    assert all[gone..][1..] == all[gone + 1..];
    RetainsFewer(history, all[gone..]);
  }

  lemma EmptyHasNoBytes()
    ensures Bytes([]) == 0
  {
  }

  lemma RetainsFewer(history: seq<Record>, events: seq<Event>)
    requires Retains(history, events) && events != []
    ensures Retains(history, events[1..])
  {
  }

  // ---- the log -----------------------------------------------------------------------

  class EventLog {
    var events: seq<Event>
    var eventBytes: nat
    var next: nat
    ghost var history: seq<Record>

    ghost predicate Valid()
      reads this
    {
      next == |history| && Retains(history, events) && eventBytes == Bytes(events) && WithinLimits(events)
    }

    ghost function Now(): View
      reads this
      requires Valid()
    {
      View(history, |history| - |events|)
    }

    constructor ()
      ensures Valid() && history == []
    {
      events, eventBytes, next, history := [], 0, 0, [];
    }

    /** Appends, then evicts from the front exactly as many events as the limits force out. */
    method Append(record: Record)
      requires Valid()
      modifies this
      ensures Valid()
      ensures history == old(history) + [record]
      ensures Later(old(Now()), Now())
      ensures var all := old(events) + [Event(old(next), record)]; var gone := |all| - |events|;
        gone >= 0 && events == all[gone..] && (gone > 0 ==> !WithinLimits(all[gone - 1..]))
    {
      hide Bytes, Retains;
      RetainsOneMore(history, events, record);
      events := events + [Event(next, record)];
      history := history + [record];
      next := next + 1;
      eventBytes := eventBytes + record.size;
      ghost var all, gone := events, 0;
      while |events| > MAX_EVENTS || eventBytes > MAX_EVENT_BYTES
        invariant gone <= |all| && events == all[gone..]
        invariant next == |history| && history == old(history) + [record]
        invariant Retains(history, events) && eventBytes == Bytes(events)
        invariant gone > 0 ==> !WithinLimits(all[gone - 1..])
        decreases |events|
      {
        EvictOne(history, all, gone);
        gone := gone + 1;
        eventBytes := eventBytes - events[0].record.size;
        events := events[1..];
      }
    }

    /** A page of the retained events, or none when there is nothing to answer yet. */
    method ReadPage(cursor: nat, ended: bool) returns (answer: Answer, page: seq<Event>)
      requires Valid()
      ensures answer == Read(Now(), cursor, ended)
      ensures answer.Page? ==> |page| == |answer.records| && forall i :: 0 <= i < |page| ==>
        page[i] == Event(cursor + i, answer.records[i])
      ensures !answer.Page? ==> page == []
    {
      var base := next - |events|;
      page := [];
      if cursor < base || cursor > next {
        return Lost, [];
      }
      if cursor < next || ended {
        var end := Min(next, cursor + PAGE);
        page := events[cursor - base..end - base];
        ghost var records := history[cursor..end];
        var shown := seq(|page|, i requires 0 <= i < |page| => page[i].record);
        assert shown == records;
        return Page(shown, end), page;
      }
      return Waiting, [];
    }
  }
}
