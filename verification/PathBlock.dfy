/** The block the installer adds to a shell startup file, and why it can be taken out again. */
module PathBlock {
  import opened Options
  import opened Search

  const START: string := "# >>> ChannelTerm PATH >>>"
  const END: string := "# <<< ChannelTerm PATH <<<"

  function SingleQuote(value: string): string { "'" + Escaped(value) + "'" }

  function Escaped(value: string): string {
    if value == "" then "" else (if value[0] == '\'' then "'\\''" else [value[0]]) + Escaped(value[1..])
  }

  function Line(entry: string, fish: bool): string {
    if fish then "fish_add_path -g " + SingleQuote(entry) else "export PATH=" + SingleQuote(entry) + ":\"$PATH\""
  }

  function Block(entry: string, fish: bool): string { START + "\n" + Line(entry, fish) + "\n" + END + "\n" }

  /** A startup file: its text, decoded, and its permission bits. */
  datatype Startup = Startup(text: string, mode: nat)

  datatype PathRecord = PathRecord(managed: bool, entry: string, shellFile: string, block: string, createdFile: bool)

  function Append(file: Option<Startup>, block: string): Option<Startup> {
    if file.None? then Some(Startup(block, 0x180)) else Some(file.value.(text := file.value.text + block))
  }

  /** Occurrences counted from the left, without overlap. */
  function Count(s: string, p: string): nat
    requires p != ""
    decreases |s|
  {
    var at := Index(s, p);
    if at < 0 then 0 else 1 + Count(s[at + |p|..], p)
  }

  /** White space of the Unicode standard, which is what trimming takes away. */
  predicate IsSpace(c: char) {
    || c == ' ' || '\t' <= c <= '\r' || c == '\U{0085}' || c == '\U{00A0}' || c == '\U{1680}'
    || '\U{2000}' <= c <= '\U{200A}' || c == '\U{2028}' || c == '\U{2029}' || c == '\U{202F}'
    || c == '\U{205F}' || c == '\U{3000}'
  }

  predicate Blank(s: string) { forall i :: 0 <= i < |s| ==> IsSpace(s[i]) }

  datatype Removal = Nothing | Refused | Removed(file: Option<Startup>)

  function Remove(file: Option<Startup>, record: PathRecord): Removal
    requires record.block != ""
  {
    if !record.managed || file.None? then Nothing
    else if Count(file.value.text, record.block) != 1 then Refused
    else
      var at := Index(file.value.text, record.block);
      var updated := file.value.text[..at] + file.value.text[at + |record.block|..];
      if record.createdFile && Blank(updated) then Removed(None) else Removed(Some(file.value.(text := updated)))
  }

  // ---- where the block can occur -----------------------------------------------------

  lemma IndexIs(s: string, p: string, at: nat)
    requires OccursAt(s, p, at) && forall i: nat :: i < at ==> !OccursAt(s, p, i)
    ensures Index(s, p) == at
  {
  }

  lemma ShortHasNone(s: string, p: string)
    requires |s| < |p|
    ensures p != "" && Count(s, p) == 0
  {
  }

  /** If the block first occurs where it was appended, taking it out restores the text. */
  lemma AppendedLast(data: string, block: string)
    requires block != "" && forall i: nat :: i < |data| ==> !OccursAt(data + block, block, i)
    ensures Count(data + block, block) == 1 && Index(data + block, block) == |data|
    ensures (data + block)[..|data|] + (data + block)[|data| + |block|..] == data
  {
    var all := data + block;
    assert all[|data|..|data| + |block|] == block;
    IndexIs(all, block, |data|);
    assert all[|data| + |block|..] == "";
    ShortHasNone("", block);
  }

  lemma StartPlain()
    ensures |START| == |END| == 26 && START != END && START[0] == END[0] == '#'
    ensures forall k :: 0 < k < 26 ==> START[k] != '#' && END[k] != '#'
    ensures '\n' !in START && '\n' !in END
  {
    assert START[2] == '>' && END[2] == '<';
  }

  function Led(block: string, separated: bool): string { if separated then "\n" + block else block }

  lemma BlockShape(entry: string, fish: bool, separated: bool)
    ensures var block, lead := Led(Block(entry, fish), separated), if separated then 1 else 0;
      lead + 26 <= |block| && block[lead..lead + 26] == START && (separated ==> block[0] == '\n')
  {
    hide Line;
    var rest := "\n" + Line(entry, fish) + "\n" + END + "\n";
    assert Block(entry, fish) == START + rest;
    StartPlain();
  }

  /** A fresh block occurs only where it was appended, whatever text it abuts: no text that lacks the
      start marker can complete one. */
  lemma FreshOccursOnce(data: string, entry: string, fish: bool, separated: bool)
    requires !Contains(data, START)
    ensures var block := Led(Block(entry, fish), separated);
      forall i: nat :: i < |data| ==> !OccursAt(data + block, block, i)
  {
    hide Block, OccursAt, Contains, Led;
    var lead := if separated then 1 else 0;
    var block := Led(Block(entry, fish), separated);
    BlockShape(entry, fish, separated);
    forall i: nat | i < |data| ensures !OccursAt(data + block, block, i) {
      if OccursAt(data + block, block, i) {
        StartWithin(data + block, block, i, lead);
        NoStartAcross(data, block, lead, i + lead);
      }
    }
  }

  lemma StartWithin(all: string, block: string, i: nat, lead: nat)
    requires OccursAt(all, block, i) && lead + 26 <= |block| && block[lead..lead + 26] == START
    ensures OccursAt(all, START, i + lead)
  {
    StartPlain();
    SliceOfSlice(all, i, |block|, lead, lead + 26);
  }

  /** No start marker begins before the block's own. */
  lemma NoStartAcross(data: string, block: string, lead: nat, at: nat)
    requires !Contains(data, START) && lead <= 1 && lead + 26 <= |block| && block[lead..lead + 26] == START
    requires lead == 1 ==> block[0] == '\n'
    requires at < |data| + lead
    ensures !OccursAt(data + block, START, at)
  {
    StartPlain();
    var all := data + block;
    if at + 26 <= |data| {
      assert all[..|data|] == data && !OccursAt(data, START, at);
      OccursInExtension(data, all, START, at);
    } else {
      var k := |data| + lead - at;
      assert all[|data| + lead] == block[lead] == block[lead..lead + 26][0] == '#';
      var window := all[at..at + 26];
      assert window[if k < 26 then k else 25] == if k < 26 then '#' else '\n';
    }
  }

  // ---- a block that is added again ---------------------------------------------------

  lemma {:induction false} EscapedPlain(value: string)
    requires '\n' !in value
    ensures '\n' !in Escaped(value)
  {
    if value != "" {
      EscapedPlain(value[1..]);
    }
  }

  lemma LineShape(entry: string, fish: bool)
    requires '\n' !in entry
    ensures var line := Line(entry, fish); line != "" && '\n' !in line && line[|line| - 1] != '<'
  {
    EscapedPlain(entry);
  }

  /** Where the characters are by which the block can be told from a shifted copy of itself. */
  ghost predicate Told(block: string, lead: nat) {
    var n := |block|;
    && lead <= 1 && n >= lead + 56
    && block[lead + 2] == '>' && block[n - 25] == '<' && block[n - 2] == '<' && block[n - 29] != '<'
    && block[n - 1] == '\n'
    && (forall q :: 0 <= q < n && block[q] == '\n' ==>
          (q == 0 && lead == 1) || q == lead + 26 || q == n - 28 || q == n - 1)
  }

  lemma BlockTold(entry: string, fish: bool, separated: bool)
    requires '\n' !in entry
    ensures Told(Led(Block(entry, fish), separated), if separated then 1 else 0)
  {
    hide Line, Told, Led;
    LineShape(entry, fish);
    StartPlain();
    assert START[2] == '>' && END[2] == END[25] == '<';
    TextTold(START, Line(entry, fish), END, separated);
  }

  lemma TextTold(start: string, line: string, end: string, separated: bool)
    requires |start| == |end| == 26 && '\n' !in start && '\n' !in end
    requires start[2] == '>' && end[2] == end[25] == '<'
    requires line != "" && '\n' !in line && line[|line| - 1] != '<'
    ensures Told(Led(start + "\n" + line + "\n" + end + "\n", separated), if separated then 1 else 0)
  {
    var lead := if separated then "\n" else "";
    var head, middle := lead + start + "\n", line + "\n";
    var block := Led(start + "\n" + line + "\n" + end + "\n", separated);
    assert block == head + middle + end + "\n";
  }

  /** The block overlaps a shifted copy of itself only in its separating newline. */
  lemma NoBorder(block: string, lead: nat, shift: nat)
    requires Told(block, lead) && 0 < shift < |block|
    requires forall j :: 0 <= j < |block| - shift ==> block[j] == block[shift + j]
    ensures lead == 1 && shift == |block| - 1
  {
    var n, last := |block|, |block| - shift - 1;
    assert block[last] == block[n - 1] == '\n';
  }

  /** A block that is added to a text without it occurs earlier than where it was added exactly when
      it starts with the separating newline and only its last newline was missing. */
  lemma AddedAgainOccurs(data: string, entry: string, fish: bool, separated: bool, i: nat)
    requires '\n' !in entry && !Contains(data, Led(Block(entry, fish), separated)) && i < |data|
    ensures var block := Led(Block(entry, fish), separated);
      OccursAt(data + block, block, i) <==> separated && |data| - i == |block| - 1 && data[i..] == block[..|block| - 1]
  {
    hide Block, Led, Contains;
    var block := Led(Block(entry, fish), separated);
    BlockTold(entry, fish, separated);
    BlockShape(entry, fish, separated);
    NotInside(data, entry, fish, separated, i);
    if OccursAt(data + block, block, i) {
      OnlyTheLastNewline(data, block, if separated then 1 else 0, i);
    }
    if separated && |data| - i == |block| - 1 && data[i..] == block[..|block| - 1] {
      CompletedByNewline(data, block, i);
    }
  }

  lemma OnlyTheLastNewline(data: string, block: string, lead: nat, i: nat)
    requires Told(block, lead) && i < |data| < i + |block| && OccursAt(data + block, block, i)
    ensures lead == 1 && |data| - i == |block| - 1 && data[i..] == block[..|block| - 1]
  {
    var all, shift := data + block, |data| - i;
    var window := all[i..i + |block|];
    forall j | 0 <= j < |block| - shift ensures block[j] == block[shift + j] {
      assert window[shift + j] == all[|data| + j];
    }
    NoBorder(block, lead, shift);
    assert data[i..] == window[..|block| - 1];
  }

  lemma CompletedByNewline(data: string, block: string, i: nat)
    requires block != "" && i <= |data| && block[0] == block[|block| - 1] && data[i..] == block[..|block| - 1]
    ensures OccursAt(data + block, block, i)
  {
    assert (data + block)[i..i + |block|] == data[i..] + [block[0]];
  }

  lemma NotInside(data: string, entry: string, fish: bool, separated: bool, i: nat)
    requires !Contains(data, Led(Block(entry, fish), separated))
    ensures var block := Led(Block(entry, fish), separated);
      OccursAt(data + block, block, i) ==> |data| < i + |block|
  {
    hide Block, Led;
    var block := Led(Block(entry, fish), separated);
    assert (data + block)[..|data|] == data;
    assert !OccursAt(data, block, i);
    if i + |block| <= |data| {
      OccursInExtension(data, data + block, block, i);
    }
  }

  // ---- adding and taking out ---------------------------------------------------------

  /** Taking out what was just added restores the startup file. */
  ghost predicate Restores(file: Option<Startup>, record: PathRecord)
    requires record.block != ""
  {
    Remove(Append(file, record.block), record) == Removed(file)
  }

  lemma RestoresIfLast(file: Option<Startup>, record: PathRecord)
    requires record.block != "" && record.managed
    requires file.Some? ==>
      forall i: nat :: i < |file.value.text| ==> !OccursAt(file.value.text + record.block, record.block, i)
    ensures file.Some? ==> (Restores(file, record) <==> !(record.createdFile && Blank(file.value.text)))
    ensures file.None? ==> (Restores(file, record) <==> record.createdFile)
  {
    hide Remove, Blank, OccursAt;
    if file.Some? {
      TakenOut(file.value.text, file.value.mode, record);
    } else {
      assert "" + record.block == record.block;
      TakenOut("", 0x180, record);
      NothingIsBlank();
    }
  }

  lemma TakenOut(data: string, mode: nat, record: PathRecord)
    requires record.block != "" && record.managed
    requires forall i: nat :: i < |data| ==> !OccursAt(data + record.block, record.block, i)
    ensures Remove(Some(Startup(data + record.block, mode)), record)
      == Removed(if record.createdFile && Blank(data) then None else Some(Startup(data, mode)))
  {
    hide Count, Index, Blank, OccursAt;
    AppendedLast(data, record.block);
  }

  lemma NothingIsBlank()
    ensures Blank("")
  {
  }

  /** The first time, the file is restored byte for byte, or removed again if there was none. */
  lemma FreshRestores(file: Option<Startup>, entry: string, fish: bool, separated: bool, record: PathRecord)
    requires file.Some? ==> !Contains(file.value.text, START)
    requires record.managed && record.block == Led(Block(entry, fish), separated) && record.createdFile == file.None?
    ensures Restores(file, record)
  {
    hide Block;
    BlockShape(entry, fish, separated);
    if file.Some? {
      FreshOccursOnce(file.value.text, entry, fish, separated);
    }
    RestoresIfLast(file, record);
  }

  /** Only the block's own last newline is missing from the end of the text. */
  predicate AlmostPresent(text: string, block: string) {
    var n := |block| - 1;
    block != "" && block[0] == '\n' && n <= |text| && text[|text| - n..] == block[..n]
  }

  /** A recorded block that has gone missing is added again. Taking it out restores the file exactly
      unless the file was once created by the installer and is now blank, or the block has only lost
      its last newline. */
  lemma RepairRestores(file: Option<Startup>, entry: string, fish: bool, separated: bool, record: PathRecord)
    requires '\n' !in entry && record.managed && record.block == Led(Block(entry, fish), separated)
    requires if file.None? then record.createdFile else !Contains(file.value.text, record.block)
    ensures Restores(file, record) <==>
      file.None? || (!(record.createdFile && Blank(file.value.text)) && !AlmostPresent(file.value.text, record.block))
  {
    hide Block, Contains;
    BlockShape(entry, fish, separated);
    StartPlain();
    assert !separated ==> record.block[0] == record.block[0..26][0];
    if file.None? {
      RestoresIfLast(file, record);
    } else if AlmostPresent(file.value.text, record.block) {
      AlmostPresentIsLost(file.value, entry, fish, record);
    } else {
      forall i: nat | i < |file.value.text| ensures !OccursAt(file.value.text + record.block, record.block, i) {
        AddedAgainOccurs(file.value.text, entry, fish, separated, i);
      }
      RestoresIfLast(file, record);
    }
  }

  /** Then the older copy is completed by the new newline, and is the one that is taken out. */
  lemma AlmostPresentIsLost(file: Startup, entry: string, fish: bool, record: PathRecord)
    requires '\n' !in entry && record.managed && record.block == Led(Block(entry, fish), true)
    requires !Contains(file.text, record.block) && AlmostPresent(file.text, record.block)
    ensures !Restores(Some(file), record)
  {
    hide Block, Contains, Count, Blank, Index, OccursAt, Told;
    var text, block := file.text, record.block;
    var at := |text| - (|block| - 1);
    BlockShape(entry, fish, true);
    BlockTold(entry, fish, true);
    forall i: nat | i < |text| ensures OccursAt(text + block, block, i) <==> i == at {
      AddedAgainOccurs(text, entry, fish, true, i);
    }
    IndexIs(text + block, block, at);
    StartPlain();
    OlderCopyGoes(text, block, at);
  }

  lemma OlderCopyGoes(text: string, block: string, at: nat)
    requires 27 <= |block| && at == |text| - (|block| - 1) && text[at..] == block[..|block| - 1]
    requires block[0] == '\n' && block[1..27][0] == '#'
    ensures (text + block)[..at] + (text + block)[at + |block|..] != text
  {
    var updated := (text + block)[..at] + (text + block)[at + |block|..];
    assert updated == text[..at] + block[1..];
    assert updated[at] == block[1] == block[1..27][0];
    assert text[at] == text[at..][0] == block[0];
  }
}
