/** What reaches the local terminal: upstream text in order, with local styles and resets between. */
module Presentation {
  import opened Bytes
  import opened Vt

  /** `Remote` bytes came from the board, `Stamp` bytes were inserted by the timestamp renderer.
      No renderer decision looks at the difference; it exists so that insertions can be erased. */
  datatype Cell = Remote(b: Byte) | Stamp(b: Byte) | Open(style: string) | Reset {
    predicate Text() { Remote? || Stamp? }
  }

  type TextSeq = cells: seq<Cell> | AllText(cells)

  predicate AllText(cells: seq<Cell>) { forall i :: 0 <= i < |cells| ==> cells[i].Text() }

  /** The bytes of a text, for decisions that look at bytes. */
  function Data(text: TextSeq): (data: seq<Byte>)
    ensures |data| == |text|
    ensures forall i :: 0 <= i < |text| ==> data[i] == text[i].b
  {
    seq(|text|, i requires 0 <= i < |text| => text[i].b)
  }

  function FromBoard(data: seq<Byte>): (text: TextSeq)
    ensures |text| == |data|
    ensures forall i :: 0 <= i < |data| ==> text[i] == Remote(data[i])
  {
    seq(|data|, i requires 0 <= i < |data| => Remote(data[i]))
  }

  function LocalText(data: seq<Byte>): (text: TextSeq)
    ensures |text| == |data|
    ensures forall i :: 0 <= i < |data| ==> text[i] == Stamp(data[i])
  {
    seq(|data|, i requires 0 <= i < |data| => Stamp(data[i]))
  }

  /** Erases local styles and resets. */
  function Texts(cells: seq<Cell>): (text: TextSeq)
  {
    if cells == [] then []
    else (if cells[0].Text() then [cells[0]] else []) + Texts(cells[1..])
  }

  /** Erases everything this program inserted. */
  function Remotes(cells: seq<Cell>): (data: seq<Byte>)
  {
    if cells == [] then []
    else (if cells[0].Remote? then [cells[0].b] else []) + Remotes(cells[1..])
  }

  lemma {:induction false} TextsConcat(a: seq<Cell>, b: seq<Cell>)
    ensures Texts(a + b) == Texts(a) + Texts(b)
  {
    if a == [] {
      assert a + b == b;
    } else {
      assert (a + b)[0] == a[0] && (a + b)[1..] == a[1..] + b;
      TextsConcat(a[1..], b);
    }
  }

  lemma {:induction false} RemotesConcat(a: seq<Cell>, b: seq<Cell>)
    ensures Remotes(a + b) == Remotes(a) + Remotes(b)
  {
    if a == [] {
      assert a + b == b;
    } else {
      assert (a + b)[0] == a[0] && (a + b)[1..] == a[1..] + b;
      RemotesConcat(a[1..], b);
    }
  }

  lemma {:induction false} TextsOfText(text: TextSeq)
    ensures Texts(text) == text
  {
    if text != [] {
      TextsOfText(text[1..]);
    }
  }

  lemma {:induction false} RemotesOfTexts(cells: seq<Cell>)
    ensures Remotes(Texts(cells)) == Remotes(cells)
  {
    if cells != [] {
      RemotesOfTexts(cells[1..]);
      RemotesConcat(if cells[0].Text() then [cells[0]] else [], Texts(cells[1..]));
    }
  }

  lemma {:induction false} RemotesFromBoard(data: seq<Byte>)
    ensures Remotes(FromBoard(data)) == data
  {
    if data != [] {
      RemotesFromBoard(data[1..]);
      assert FromBoard(data)[1..] == FromBoard(data[1..]);
    }
  }

  /** Stamps alone erase to nothing. */
  lemma {:induction false} StampsErase(stamp: TextSeq)
    requires forall i :: 0 <= i < |stamp| ==> stamp[i].Stamp?
    ensures Remotes(stamp) == []
  {
    if stamp != [] {
      StampsErase(stamp[1..]);
    }
  }

  // ---- where styles may appear -------------------------------------------------------

  /** The local terminal, fed `cells` from a state with tracker core `core`: every local style opens
      while the upstream text before it leaves no sequence, attribute or screen open and no local
      style is open; no upstream escape arrives inside a local style; every style is closed. */
  ghost predicate SafeFrom(core: Core, styled: bool, cells: seq<Cell>)
    decreases |cells|
  {
    if cells == [] then !styled
    else match cells[0]
      case Open(_) => !styled && core.Neutral() && SafeFrom(core, true, cells[1..])
      case Reset => styled && SafeFrom(core, false, cells[1..])
      case _ => (cells[0].b == ESC ==> !styled) && SafeFrom(CoreFeed(core, cells[0].b).0, styled, cells[1..])
  }

  lemma {:induction false} SafeConcat(core: Core, styled: bool, a: seq<Cell>, b: seq<Cell>)
    requires SafeFrom(core, styled, a)
    requires SafeFrom(CoreRun(core, Data(Texts(a))), false, b)
    ensures SafeFrom(core, styled, a + b)
    decreases |a|
  {
    if a == [] {
      assert a + b == b;
    } else {
      assert (a + b)[1..] == a[1..] + b && (a + b)[0] == a[0];
      var texts := Texts(a[1..]);
      if a[0].Text() {
        assert Data(Texts(a)) == [a[0].b] + Data(texts);
        SafeConcat(CoreFeed(core, a[0].b).0, styled, a[1..], b);
      } else {
        assert Texts(a) == texts;
        SafeConcat(core, a[0].Open?, a[1..], b);
      }
    }
  }

  lemma {:induction false} TextIsSafe(core: Core, text: TextSeq)
    ensures SafeFrom(core, false, text)
    decreases |text|
  {
    if text != [] {
      TextIsSafe(CoreFeed(core, text[0].b).0, text[1..]);
    }
  }

  /** A styled stretch of plain text is safe where the tracker is neutral. */
  lemma {:induction false} StyledTextIsSafe(core: Core, text: TextSeq)
    requires core.Neutral() && ESC !in Data(text)
    ensures SafeFrom(core, true, text + [Reset])
    decreases |text|
  {
    if text == [] {
      assert text + [Reset] == [Reset];
      assert [Reset][1..] == [];
    } else {
      assert Data(text)[1..] == Data(text[1..]);
      PlainTextStaysNeutral(core, [text[0].b]);
      assert CoreRun(core, [text[0].b]) == CoreFeed(core, text[0].b).0;
      assert Data(text)[0] == text[0].b;
      StyledTextIsSafe(CoreFeed(core, text[0].b).0, text[1..]);
      assert (text + [Reset])[1..] == text[1..] + [Reset];
    }
  }

  // ---- which byte carries which style ------------------------------------------------

  /** The style each text cell is shown in, "" for none. */
  function StylesOf(cells: seq<Cell>, current: string): seq<string>
  {
    if cells == [] then []
    else match cells[0]
      case Open(style) => StylesOf(cells[1..], style)
      case Reset => StylesOf(cells[1..], "")
      case _ => [current] + StylesOf(cells[1..], current)
  }

  lemma {:induction false} StylesOfText(text: TextSeq, current: string)
    ensures |StylesOf(text, current)| == |text|
    ensures forall i :: 0 <= i < |text| ==> StylesOf(text, current)[i] == current
  {
    if text != [] {
      StylesOfText(text[1..], current);
    }
  }

  /** Appending after a stretch that leaves no style open. */
  lemma {:induction false} StylesConcat(a: seq<Cell>, b: seq<Cell>, current: string, core: Core)
    requires SafeFrom(core, current != "", a)
    requires forall i :: 0 <= i < |a| && a[i].Open? ==> a[i].style != ""
    ensures StylesOf(a + b, current) == StylesOf(a, current) + StylesOf(b, "")
    decreases |a|
  {
    if a == [] {
      assert a + b == b;
    } else {
      assert (a + b)[1..] == a[1..] + b && (a + b)[0] == a[0];
      match a[0]
      case Open(style) => StylesConcat(a[1..], b, style, core);
      case Reset => StylesConcat(a[1..], b, "", core);
      case Remote(v) => StylesConcat(a[1..], b, current, CoreFeed(core, v).0);
      case Stamp(v) => StylesConcat(a[1..], b, current, CoreFeed(core, v).0);
    }
  }
}
