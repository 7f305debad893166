/** The installer's transaction over program files, startup file and manifest. Any step can fail, also
    a replacement that has already taken effect but could not be made durable. */
module Install {
  import opened Options
  import opened PathBlock
  import opened Search

  type Path = string

  datatype Node = Regular(text: string, mode: nat) | Symlink(target: Path)

  datatype Reading = Missing | Found(file: Startup) | Unreadable

  const EXECUTABLE: nat := 0x1ed
  const PRIVATE: nat := 0x180

  function Lookup(nodes: map<Path, Node>, path: Path): Option<Node> {
    if path in nodes then Some(nodes[path]) else None
  }

  /** How many symbolic links are followed before a path counts as a loop. */
  const MAX_LINKS: nat := 40

  /** Reading follows symbolic links; replacing does not. */
  function Read(nodes: map<Path, Node>, path: Path): Reading { Follow(nodes, path, MAX_LINKS) }

  function Follow(nodes: map<Path, Node>, path: Path, links: nat): Reading
    decreases links
  {
    match Lookup(nodes, path)
    case None => Missing
    case Some(Regular(text, mode)) => Found(Startup(text, mode))
    case Some(Symlink(target)) => if links == 0 then Unreadable else Follow(nodes, target, links - 1)
  }

  function AsStartup(r: Reading): Option<Startup> {
    if r.Found? then Some(r.file) else None
  }

  class Disk {
    var nodes: map<Path, Node>

    /** Replaces the file by rename. A failure may come before or after the replacement. */
    method WriteFileAtomic(path: Path, text: string, mode: nat) returns (ok: bool, ghost landed: bool)
      modifies this
      ensures ok ==> landed
      ensures nodes == if landed then old(nodes)[path := Regular(text, mode)] else old(nodes)
      ensures nodes - {path} == old(nodes) - {path}
      ensures landed ==> Lookup(nodes, path) == Some(Regular(text, mode))
    {
      var outcome: nat :| true;
      var replaced := outcome <= 1;
      ok, landed := outcome == 0, replaced;
      if replaced {
        nodes := nodes[path := Regular(text, mode)];
      }
    }

    /** Replaces the alias by rename; `changed` reports a replacement even when syncing it failed. */
    method PlaceLink(path: Path, target: Path) returns (changed: bool, ok: bool)
      modifies this
      ensures ok ==> changed
      ensures nodes == if changed then old(nodes)[path := Symlink(target)] else old(nodes)
      ensures nodes - {path} == old(nodes) - {path}
      ensures changed ==> Lookup(nodes, path) == Some(Symlink(target))
    {
      var outcome: nat :| true;
      ok, changed := outcome == 0, outcome <= 1;
      if changed {
        nodes := nodes[path := Symlink(target)];
      }
    }

    method Delete(path: Path) returns (ok: bool)
      modifies this
      ensures nodes == if ok then old(nodes) - {path} else old(nodes)
    {
      var outcome: bool := *;
      ok := outcome;
      if ok {
        nodes := nodes - {path};
      }
    }

    /** Puts a snapshotted path back to its presence, kind and contents. */
    method Restore(path: Path, snapshot: Option<Node>) returns (ok: bool)
      modifies this
      ensures nodes - {path} == old(nodes) - {path}
      ensures ok ==> Lookup(nodes, path) == snapshot
    {
      match snapshot
      case None => ok := Delete(path);
      case Some(Symlink(target)) =>
        var changed;
        changed, ok := PlaceLink(path, target);
      case Some(Regular(text, mode)) =>
        ghost var landed;
        ok, landed := WriteFileAtomic(path, text, mode);
    }

    /** Appends the block to the startup file, creating it if need be. */
    method AppendBlock(path: Path, block: string) returns (created: bool, ok: bool, ghost landed: bool)
      modifies this
      ensures ok ==> landed
      ensures nodes == if landed then old(nodes)[path := Written(Append(AsStartup(Read(old(nodes), path)), block))]
                       else old(nodes)
      ensures landed ==> !Read(old(nodes), path).Unreadable?
      ensures ok ==> created == Read(old(nodes), path).Missing?
    {
      var reading := Read(nodes, path);
      created := reading.Missing?;
      if reading.Unreadable? {
        return false, false, false;
      }
      var appended := Append(AsStartup(reading), block).value;
      ok, landed := WriteFileAtomic(path, appended.text, appended.mode);
    }

    /** Makes sure that the startup file has the block. `late` tells of a block that was written
        although the call failed; nobody will remember it. */
    method Ensure(plan: Plan) returns (record: PathRecord, changed: bool, ok: bool, ghost late: bool)
      requires plan.Valid()
      modifies this
      ensures changed ==> ok && !late
      ensures ok ==> !late
      ensures changed || late ==> Appended(old(nodes), nodes, plan, record)
      ensures !changed && !late ==> nodes == old(nodes)
      ensures changed ==> CreatedAsReported(old(nodes), plan, record)
      ensures ok && !changed ==> AlreadyThere(old(nodes), plan) && record == plan.Recorded()
    {
      record := plan.Recorded();
      if plan.Managed() {
        var reading := Read(nodes, record.shellFile);
        if reading.Unreadable? {
          return record, false, false, false;
        }
        if reading.Found? && Contains(reading.file.text, record.block) {
          return record, false, true, false;
        }
        var created;
        ghost var landed;
        created, ok, landed := AppendBlock(record.shellFile, record.block);
        late := landed && !ok;
        changed := ok;
        record := record.(createdFile := record.createdFile || created);
        return;
      }
      if plan.effective {
        return record, false, true, false;
      }
      var reading := Read(nodes, plan.shellFile);
      if reading.Unreadable? || (reading.Found? && Contains(reading.file.text, START)) {
        return record, false, false, false;
      }
      var separated := reading.Found? && reading.file.text != "" && reading.file.text[|reading.file.text| - 1] != '\n';
      var block := Led(Block(plan.entry, plan.fish), separated);
      var created;
      ghost var landed;
      created, ok, landed := AppendBlock(plan.shellFile, block);
      late := landed && !ok;
      changed := ok;
      record := PathRecord(true, plan.entry, plan.shellFile, block, created);
    }

    /** Takes the block out again. */
    method RemoveBlock(record: PathRecord) returns (ok: bool)
      requires record.block != ""
      modifies this
      ensures nodes - {record.shellFile} == old(nodes) - {record.shellFile}
      ensures ok && record.managed ==> TakenOutOf(old(nodes), nodes, record)
    {
      if !record.managed {
        return true;
      }
      var reading := Read(nodes, record.shellFile);
      if reading.Unreadable? {
        return false;
      }
      match Remove(AsStartup(reading), record)
      case Nothing => ok := true;
      case Refused => ok := false;
      case Removed(None) => ok := Delete(record.shellFile);
      case Removed(Some(file)) =>
        ghost var landed;
        ok, landed := WriteFileAtomic(record.shellFile, file.text, file.mode);
    }
  }

  // ---- the transaction ---------------------------------------------------------------

  ghost predicate SameExcept(a: map<Path, Node>, b: map<Path, Node>, paths: set<Path>) {
    forall q :: q !in paths ==> Lookup(a, q) == Lookup(b, q)
  }

  lemma SameEverywhere(a: map<Path, Node>, b: map<Path, Node>)
    requires SameExcept(a, b, {})
    ensures a == b
  {
    forall q ensures (q in a <==> q in b) && (q in a ==> a[q] == b[q]) {
      assert Lookup(a, q) == Lookup(b, q);
    }
    assert a.Keys == b.Keys;
  }

  /** What the steps that were taken may have changed. */
  datatype Changes = Changes(binary: bool, alias: bool, path: bool, manifest: bool)

  /** Only the transaction's paths differ, and only those that a step may have changed. */
  ghost predicate Within(was: map<Path, Node>, now: map<Path, Node>, plan: Plan, changes: Changes) {
    && SameExcept(was, now, {plan.binary, plan.alias, plan.Startup(), plan.manifest})
    && (!changes.binary ==> Lookup(now, plan.binary) == Lookup(was, plan.binary))
    && (!changes.alias ==> Lookup(now, plan.alias) == Lookup(was, plan.alias))
    && (!changes.path ==> Lookup(now, plan.Startup()) == Lookup(was, plan.Startup()))
    && (!changes.manifest ==> Lookup(now, plan.manifest) == Lookup(was, plan.manifest))
  }

  /** A step that touches one of the transaction's paths. */
  lemma OnePath(was: map<Path, Node>, a: map<Path, Node>, b: map<Path, Node>, plan: Plan, p: Path)
    requires SameExcept(was, a, {plan.binary, plan.alias, plan.Startup(), plan.manifest}) && b - {p} == a - {p}
    requires p in {plan.binary, plan.alias, plan.Startup(), plan.manifest}
    ensures SameExcept(was, b, {plan.binary, plan.alias, plan.Startup(), plan.manifest})
    ensures forall q :: q != p ==> Lookup(b, q) == Lookup(a, q)
  {
    OneOf(was, a, b, {plan.binary, plan.alias, plan.Startup(), plan.manifest}, p);
  }

  lemma OneOf(was: map<Path, Node>, a: map<Path, Node>, b: map<Path, Node>, paths: set<Path>, p: Path)
    requires SameExcept(was, a, paths) && b - {p} == a - {p} && p in paths
    ensures SameExcept(was, b, paths)
    ensures forall q :: q != p ==> Lookup(b, q) == Lookup(a, q)
  {
    forall q | q != p ensures Lookup(b, q) == Lookup(a, q) {
      assert Lookup(b - {p}, q) == Lookup(b, q) && Lookup(a - {p}, q) == Lookup(a, q);
    }
  }

  datatype Snapshots = Snapshots(binary: Option<Node>, alias: Option<Node>, manifest: Option<Node>)

  function SnapshotsOf(nodes: map<Path, Node>, plan: Plan): Snapshots {
    Snapshots(Lookup(nodes, plan.binary), Lookup(nodes, plan.alias), Lookup(nodes, plan.manifest))
  }

  function Written(file: Option<Startup>): Node
    requires file.Some?
  {
    Regular(file.value.text, file.value.mode)
  }

  datatype Plan = Plan(
    binary: Path, alias: Path, manifest: Path,
    source: string, needsCopy: bool, aliasTarget: Path,
    noPath: bool, entry: string, fish: bool, shellFile: Path, effective: bool,
    previous: Option<PathRecord>, previousFish: bool, previousSeparated: bool,
    manifestText: string)
  {
    predicate Managed() { previous.Some? && previous.value.managed }

    /** What an earlier installation has recorded about PATH, or that nothing is to be undone. */
    function Recorded(): PathRecord {
      if Managed() then previous.value else PathRecord(false, entry, "", "", false)
    }

    /** The startup file this installation may edit. */
    function Startup(): Path { if Managed() then previous.value.shellFile else shellFile }

    /** The four files are different, and a recorded block is one the installer writes. */
    predicate Valid() {
      && binary != alias && binary != manifest && alias != manifest
      && Startup() != binary && Startup() != alias && Startup() != manifest
      && (Managed() ==> '\n' !in previous.value.entry
                        && previous.value.block == Led(Block(previous.value.entry, previousFish), previousSeparated))
    }
  }

  /** The record's block was appended to the startup file, which did not have it. */
  ghost predicate Appended(was: map<Path, Node>, now: map<Path, Node>, plan: Plan, record: PathRecord) {
    var reading := Read(was, plan.Startup());
    && record.managed && record.shellFile == plan.Startup() && record.block != "" && !reading.Unreadable?
    && now == was[plan.Startup() := Written(Append(AsStartup(reading), record.block))]
    && (plan.Managed() ==> record.block == plan.previous.value.block
                           && (reading.Found? ==> !Contains(reading.file.text, record.block)))
    && (!plan.Managed() ==> (exists separated :: record.block == Led(Block(plan.entry, plan.fish), separated))
                            && (reading.Found? ==> !Contains(reading.file.text, START)))
  }

  /** The program's directory is in the PATH, or the recorded block in the startup file. */
  predicate AlreadyThere(nodes: map<Path, Node>, plan: Plan) {
    if plan.Managed() then
      var reading := Read(nodes, plan.Startup());
      reading.Found? && Contains(reading.file.text, plan.previous.value.block)
    else plan.effective
  }

  /** Whether taking the block out again puts the startup file back: always for a fresh block in a
      regular or missing file; a symbolic link has been replaced by a file; a block added again may be
      taken for an older copy, and a blank file for one the installer made. */
  predicate Undoable(nodes: map<Path, Node>, plan: Plan) {
    var node := Lookup(nodes, plan.Startup());
    node.None? || (node.value.Regular? && (plan.Managed() ==>
      && !(plan.previous.value.createdFile && Blank(node.value.text))
      && !AlmostPresent(node.value.text, plan.previous.value.block)))
  }

  predicate CreatedAsReported(was: map<Path, Node>, plan: Plan, record: PathRecord) {
    record.createdFile == (Read(was, plan.Startup()).Missing? || (plan.Managed() && plan.previous.value.createdFile))
  }

  lemma BlockRestores(was: map<Path, Node>, now: map<Path, Node>, plan: Plan, record: PathRecord)
    requires plan.Valid() && Appended(was, now, plan, record) && CreatedAsReported(was, plan, record)
    requires var node := Lookup(was, plan.Startup()); node.None? || node.value.Regular?
    ensures Restores(AsStartup(Read(was, plan.Startup())), record) <==> Undoable(was, plan)
  {
    hide Block, Contains, Blank, AlmostPresent, Restores;
    var file := AsStartup(Read(was, plan.Startup()));
    if plan.Managed() {
      RepairRestores(file, plan.previous.value.entry, plan.previousFish, plan.previousSeparated, record);
    } else {
      var separated :| record.block == Led(Block(plan.entry, plan.fish), separated);
      FreshRestores(file, plan.entry, plan.fish, separated, record);
    }
  }

  /** What RemoveBlock leaves behind when it succeeds. */
  ghost predicate TakenOutOf(now: map<Path, Node>, after: map<Path, Node>, record: PathRecord)
    requires record.block != ""
  {
    match Remove(AsStartup(Read(now, record.shellFile)), record)
    case Removed(file) => Lookup(after, record.shellFile) == (if file.None? then None else Some(Written(file)))
    case _ => Lookup(after, record.shellFile) == Lookup(now, record.shellFile)
  }

  /** After the block has been appended and taken out, the startup file is what it was exactly if that
      was undoable. */
  lemma UndoneIff(was: map<Path, Node>, now: map<Path, Node>, after: map<Path, Node>, plan: Plan, record: PathRecord)
    requires plan.Valid() && Appended(was, now, plan, record) && CreatedAsReported(was, plan, record)
    requires TakenOutOf(now, after, record)
    ensures Lookup(after, plan.Startup()) == Lookup(was, plan.Startup()) <==> Undoable(was, plan)
  {
    hide Remove, Blank, AlmostPresent, Block, Contains;
    var reading := Read(was, plan.Startup());
    var appended := Append(AsStartup(reading), record.block);
    assert Read(now, record.shellFile) == Found(appended.value);
    assert appended != AsStartup(reading);
    var node := Lookup(was, plan.Startup());
    if node.None? || node.value.Regular? {
      BlockRestores(was, now, plan, record);
    }
  }

  /** Undoes the changes in reverse order. `was` is the disk before the transaction, `mid` and `ensured`
      the disk around the PATH step; `late` says that the PATH step left a block nobody knows of. */
  method Rollback(disk: Disk, plan: Plan, snapshots: Snapshots, changes: Changes, record: PathRecord, ghost late: bool,
                  ghost was: map<Path, Node>, ghost mid: map<Path, Node>, ghost ensured: map<Path, Node>)
    returns (ok: bool)
    requires plan.Valid() && snapshots == SnapshotsOf(was, plan) && !(changes.path && late)
    requires Within(was, disk.nodes, plan, changes.(path := changes.path || late))
    requires changes.path ==> Appended(mid, ensured, plan, record) && CreatedAsReported(mid, plan, record)
    requires changes.path ==> Lookup(mid, plan.Startup()) == Lookup(was, plan.Startup())
    requires changes.path ==> Lookup(disk.nodes, plan.Startup()) == Lookup(ensured, plan.Startup())
    modifies disk
    ensures ok ==> Within(was, disk.nodes, plan, Changes(false, false, changes.path || late, false))
    ensures ok && changes.path ==>
      (Lookup(disk.nodes, plan.Startup()) == Lookup(was, plan.Startup()) <==> Undoable(was, plan))
    ensures late ==> Lookup(disk.nodes, plan.Startup()) == old(Lookup(disk.nodes, plan.Startup()))
  {
    hide SameExcept, Appended, Undoable, Remove, Block, TakenOutOf, CreatedAsReported, Lookup, Read;
    var done := true;
    ghost var before := disk.nodes;
    if changes.manifest {
      done := disk.Restore(plan.manifest, snapshots.manifest);
      OnePath(was, before, disk.nodes, plan, plan.manifest);
    }
    ok := done;
    before := disk.nodes;
    if changes.path {
      AppendedRecord(mid, ensured, before, plan, record);
      done := disk.RemoveBlock(record);
      OnePath(was, before, disk.nodes, plan, plan.Startup());
      if done {
        UndoneIff(mid, ensured, disk.nodes, plan, record);
        UndoableDepends(was, mid, plan);
      }
      ok := ok && done;
    }
    before := disk.nodes;
    if changes.alias {
      done := disk.Restore(plan.alias, snapshots.alias);
      OnePath(was, before, disk.nodes, plan, plan.alias);
      ok := ok && done;
    }
    before := disk.nodes;
    if changes.binary {
      done := disk.Restore(plan.binary, snapshots.binary);
      OnePath(was, before, disk.nodes, plan, plan.binary);
      ok := ok && done;
    }
  }

  lemma AppendedRecord(mid: map<Path, Node>, ensured: map<Path, Node>, now: map<Path, Node>, plan: Plan,
                       record: PathRecord)
    requires Appended(mid, ensured, plan, record) && Lookup(now, plan.Startup()) == Lookup(ensured, plan.Startup())
    ensures record.block != "" && record.managed && record.shellFile == plan.Startup()
    ensures forall after :: TakenOutOf(now, after, record) ==> TakenOutOf(ensured, after, record)
  {
  }

  lemma UndoableDepends(was: map<Path, Node>, mid: map<Path, Node>, plan: Plan)
    requires Lookup(mid, plan.Startup()) == Lookup(was, plan.Startup())
    ensures Undoable(mid, plan) <==> Undoable(was, plan)
  {
  }

  /** The startup file ends in the recorded block. */
  predicate HasBlock(nodes: map<Path, Node>, record: PathRecord) {
    match Lookup(nodes, record.shellFile)
    case Some(Regular(text, _)) => |record.block| <= |text| && text[|text| - |record.block|..] == record.block
    case _ => false
  }

  lemma AppendedHasBlock(mid: map<Path, Node>, ensured: map<Path, Node>, now: map<Path, Node>, plan: Plan,
                         record: PathRecord)
    requires Appended(mid, ensured, plan, record) && Lookup(now, plan.Startup()) == Lookup(ensured, plan.Startup())
    ensures record.managed && record.shellFile == plan.Startup() && HasBlock(now, record)
  {
    hide Block, Contains;
    var file := AsStartup(Read(mid, plan.Startup()));
    assert file.Some? ==> (file.value.text + record.block)[|file.value.text|..] == record.block;
  }

  lemma AppendedDiffers(mid: map<Path, Node>, ensured: map<Path, Node>, plan: Plan, record: PathRecord)
    requires Appended(mid, ensured, plan, record)
    ensures Lookup(ensured, plan.Startup()) != Lookup(mid, plan.Startup())
    ensures ensured - {plan.Startup()} == mid - {plan.Startup()}
  {
    hide Block, Contains;
    var file := AsStartup(Read(mid, plan.Startup()));
    assert file.Some? ==> |file.value.text + record.block| > |file.value.text|;
  }

  lemma Unwound(was: map<Path, Node>, now: map<Path, Node>, plan: Plan, changed: bool)
    requires Within(was, now, plan, Changes(false, false, changed, false))
    ensures now == was <==> Lookup(now, plan.Startup()) == Lookup(was, plan.Startup())
  {
    if Lookup(now, plan.Startup()) == Lookup(was, plan.Startup()) {
      SameEverywhere(now, was);
    }
  }

  /** One installation. If it succeeds, every file is in place, and unless PATH was not to be touched, the
      startup file ends in the recorded block or needed none: `atPath` is the disk at that step, when only
      the program and its alias had been replaced. If it fails and every restoration succeeds, the disk is exactly
      what it was, unless the PATH step wrote its block and then failed, or its block could not be undone. */
  method Install(disk: Disk, plan: Plan)
    returns (ok: bool, rolledBack: bool, record: PathRecord, ghost pathChanged: bool, ghost late: bool,
             ghost atPath: map<Path, Node>)
    requires plan.Valid()
    modifies disk
    ensures ok ==>
      && (plan.needsCopy ==> Lookup(disk.nodes, plan.binary) == Some(Regular(plan.source, EXECUTABLE)))
      && Lookup(disk.nodes, plan.alias) == Some(Symlink(plan.aliasTarget))
      && Lookup(disk.nodes, plan.manifest) == Some(Regular(plan.manifestText, PRIVATE))
      && Within(old(disk.nodes), disk.nodes, plan, Changes(plan.needsCopy, true, pathChanged, true))
      && (pathChanged ==> record.managed && record.shellFile == plan.Startup() && HasBlock(disk.nodes, record))
      && (!pathChanged && !plan.noPath ==> AlreadyThere(atPath, plan) && record == plan.Recorded())
    ensures SameExcept(old(disk.nodes), atPath, {plan.binary, plan.alias})
    ensures !ok && rolledBack ==>
      (disk.nodes == old(disk.nodes) <==> !late && (pathChanged ==> Undoable(old(disk.nodes), plan)))
  {
    hide SameExcept, Appended, Undoable, Block, CreatedAsReported, Lookup, Read, Plan.Valid, HasBlock, AlreadyThere;
    ghost var was, mid, ensured := disk.nodes, disk.nodes, disk.nodes;
    atPath := was;
    var snapshots := SnapshotsOf(disk.nodes, plan);
    var changes := Changes(false, false, false, false);
    record := PathRecord(false, plan.entry, "", "", false);
    pathChanged, late, rolledBack := false, false, true;
    SameExceptNothing(was);
    ok := *;                                    // the snapshots can be taken
    if !ok {
      return;
    }
    PathsDiffer(plan);
    if plan.needsCopy {
      ghost var landed;
      ok, landed := disk.WriteFileAtomic(plan.binary, plan.source, EXECUTABLE);
      OnePath(was, was, disk.nodes, plan, plan.binary);
      OneOf(was, was, disk.nodes, {plan.binary, plan.alias}, plan.binary);
      changes := changes.(binary := true);
    }
    if ok {
      ok := *;                                  // the installed bytes have the source's digest
    }
    ghost var before := disk.nodes;
    if ok {
      var aliasChanged;
      aliasChanged, ok := disk.PlaceLink(plan.alias, plan.aliasTarget);
      OnePath(was, before, disk.nodes, plan, plan.alias);
      OneOf(was, before, disk.nodes, {plan.binary, plan.alias}, plan.alias);
      changes := changes.(alias := aliasChanged);
    }
    if ok && !plan.noPath {
      mid := disk.nodes;
      atPath := mid;
      var edited;
      record, edited, ok, late := disk.Ensure(plan);
      ensured := disk.nodes;
      pathChanged := edited;
      changes := changes.(path := edited);
      if pathChanged || late {
        AppendedDiffers(mid, ensured, plan, record);
        OnePath(was, mid, ensured, plan, plan.Startup());
      }
    }
    if ok {
      ghost var landed;
      before := disk.nodes;
      ok, landed := disk.WriteFileAtomic(plan.manifest, plan.manifestText, PRIVATE);
      OnePath(was, before, disk.nodes, plan, plan.manifest);
      changes := changes.(manifest := true);
    }
    if ok && pathChanged {
      AppendedHasBlock(mid, ensured, disk.nodes, plan, record);
    }
    if !ok {
      rolledBack := Rollback(disk, plan, snapshots, changes, record, late, was, mid, ensured);
      if rolledBack {
        Unwound(was, disk.nodes, plan, pathChanged || late);
      }
    }
  }

  lemma SameExceptNothing(a: map<Path, Node>)
    ensures forall paths :: SameExcept(a, a, paths)
  {
  }

  lemma PathsDiffer(plan: Plan)
    requires plan.Valid()
    ensures plan.binary != plan.alias && plan.binary != plan.manifest && plan.alias != plan.manifest
    ensures plan.Startup() != plan.binary && plan.Startup() != plan.alias && plan.Startup() != plan.manifest
  {
  }
}
