/** Collision-free names: the requested path if it is free, otherwise its first free numbered sibling. */
module Naming {
  import opened Bytes
  import opened Decimals

  const SLASH: Byte := 0x2f
  const DOT: Byte := 0x2e
  const UNDERSCORE: Byte := 0x5f

  type Path = seq<Byte>

  datatype Parts = Parts(directory: Path, stem: Path, extension: Path)

  /** Everything up to the last slash, and the rest. */
  function Split(path: Path): (r: (Path, Path))
    ensures r.0 + r.1 == path && SLASH !in r.1
    ensures r.0 == [] || r.0[|r.0| - 1] == SLASH
  {
    if path == [] then ([], [])
    else if path[|path| - 1] == SLASH then (path, [])
    else
      var r := Split(path[..|path| - 1]);
      (r.0, r.1 + [path[|path| - 1]])
  }

  // ---- cleaning ----------------------------------------------------------------------

  const DOTDOT: Path := [DOT, DOT]

  /** What one component does to the components before it. */
  function Push(rooted: bool, stack: seq<Path>, component: Path): seq<Path> {
    if component == [] || component == [DOT] then stack
    else if component != DOTDOT then stack + [component]
    else if stack != [] && stack[|stack| - 1] != DOTDOT then stack[..|stack| - 1]
    else if rooted then stack
    else stack + [DOTDOT]
  }

  function Reduce(rooted: bool, stack: seq<Path>, components: seq<Path>): seq<Path>
    decreases |components|
  {
    if components == [] then stack else Reduce(rooted, Push(rooted, stack, components[0]), components[1..])
  }

  function CleanComponents(path: Path): seq<Path> {
    Reduce(path != [] && path[0] == SLASH, [], Bytes.Split(path, SLASH))
  }

  /** The shortest lexical equivalent of a path: no empty and no dot components, no trailing slash. */
  function Clean(path: Path): Path {
    var rooted := path != [] && path[0] == SLASH;
    var joined := Join(CleanComponents(path), SLASH);
    if rooted then [SLASH] + joined else if joined == [] then [DOT] else joined
  }

  /** A component that names something. */
  predicate Proper(component: Path) { component != [] && component != [DOT] && SLASH !in component }

  lemma {:induction false} ReduceProper(rooted: bool, stack: seq<Path>, components: seq<Path>)
    requires forall c :: c in stack ==> Proper(c)
    requires forall c :: c in components ==> SLASH !in c
    ensures forall c :: c in Reduce(rooted, stack, components) ==> Proper(c)
    decreases |components|
  {
    if components != [] {
      ReduceProper(rooted, Push(rooted, stack, components[0]), components[1..]);
    }
  }

  lemma {:induction false} SplitLast(front: Path, name: Path)
    requires SLASH !in name
    ensures Split(front + [SLASH] + name) == (front + [SLASH], name)
    decreases |name|
  {
    var path := front + [SLASH] + name;
    if name == [] {
      assert path == front + [SLASH];
    } else {
      var n := |name| - 1;
      assert path[..|path| - 1] == front + [SLASH] + name[..n] && path[|path| - 1] == name[n];
      SplitLast(front, name[..n]);
      assert name[..n] + [name[n]] == name;
    }
  }

  lemma {:induction false} SplitBare(name: Path)
    requires SLASH !in name
    ensures Split(name) == ([], name)
  {
    if name != [] {
      var n := |name| - 1;
      SplitBare(name[..n]);
      assert name[..n] + [name[n]] == name;
    }
  }

  lemma {:induction false} JoinedName(parts: seq<Path>)
    requires parts != [] && forall c :: c in parts ==> Proper(c)
    ensures Split(Join(parts, SLASH)).1 == parts[|parts| - 1]
    ensures Join(parts, SLASH) != [] && Split([SLASH] + Join(parts, SLASH)).1 == parts[|parts| - 1]
  {
    hide Split;
    var joined := Join(parts, SLASH);
    var front, name := JoinLast(parts);
    assert Proper(parts[|parts| - 1]);
    if front == [] {
      SplitBare(name);
    } else {
      SplitLast(front[..|front| - 1], name);
      assert front[..|front| - 1] + [SLASH] == front;
    }
    var all := [SLASH] + front;
    assert all[..|all| - 1] + [SLASH] + name == [SLASH] + joined;
    SplitLast(all[..|all| - 1], name);
  }

  /** A joined path is its last component behind a front that is empty or ends in a slash. */
  lemma {:induction false} JoinLast(parts: seq<Path>) returns (front: Path, name: Path)
    requires parts != [] && forall c :: c in parts ==> Proper(c)
    ensures Join(parts, SLASH) == front + name && name == parts[|parts| - 1]
    ensures front == [] || front[|front| - 1] == SLASH
    decreases |parts|
  {
    if |parts| == 1 {
      front, name := [], parts[0];
    } else {
      front, name := JoinLast(parts[1..]);
      front := parts[0] + [SLASH] + front;
      assert Join(parts, SLASH) == front + name;
    }
  }

  /** What a cleaned path with these components is called. */
  lemma ComponentsName(parts: seq<Path>, rooted: bool)
    requires forall c :: c in parts ==> Proper(c)
    ensures var joined := Join(parts, SLASH);
      var path := if rooted then [SLASH] + joined else if joined == [] then [DOT] else joined;
      && (Split(path).1 in {[], [DOT]} <==> parts == [])
      && (parts != [] ==> Split(path).1 == parts[|parts| - 1])
  {
    hide Split;
    if parts == [] {
      SplitBare([DOT]);
      SplitLast([], []);
      assert [] + [SLASH] + [] == [SLASH] + [];
    } else {
      JoinedName(parts);
      assert Proper(parts[|parts| - 1]);
    }
  }

  /** A cleaned path names a directory entry exactly if a component is left. */
  lemma CleanNames(path: Path)
    ensures Split(Clean(path)).1 in {[], [DOT]} <==> CleanComponents(path) == []
    ensures CleanComponents(path) != [] ==> Split(Clean(path)).1 == CleanComponents(path)[|CleanComponents(path)| - 1]
  {
    hide Split, Bytes.Split, Join, Reduce, Proper;
    NothingYet();
    SplitJoin(path, SLASH);
    ReduceProper(path != [] && path[0] == SLASH, [], Bytes.Split(path, SLASH));
    ComponentsName(CleanComponents(path), path != [] && path[0] == SLASH);
  }

  lemma NothingYet()
    ensures forall c: Path :: c in [] ==> Proper(c)
  {
  }

  // ---- siblings ----------------------------------------------------------------------

  /** The extension starts at the first dot, unless the name starts with one. */
  function SplitExtension(filename: Path): (r: (Path, Path))
    ensures r.0 + r.1 == filename
    ensures r.1 == [] || (r.1[0] == DOT && r.0 != [] && DOT !in r.0)
    ensures r.1 == [] ==> DOT !in filename || filename[0] == DOT
  {
    var dot := FirstIndex(filename, DOT);
    if filename == [] || (filename[0] == DOT && DOT !in filename[1..]) then (filename, [])
    else if 0 < dot < |filename| then (filename[..dot], filename[dot..])
    else (filename, [])
  }

  function FileParts(path: Path): Parts {
    var (directory, filename) := Split(path);
    var (stem, extension) := SplitExtension(filename);
    Parts(directory, stem, extension)
  }

  function DirectoryParts(path: Path): Parts {
    var (directory, filename) := Split(path);
    Parts(directory, filename, [])
  }

  function Candidate(p: Parts, k: nat): Path {
    p.directory + p.stem + (if k == 0 then [] else [UNDERSCORE] + Decimal(k)) + p.extension
  }

  /** Taking a path apart and putting it together gives the path. */
  lemma PartsRecompose(path: Path)
    ensures Candidate(FileParts(path), 0) == path && Candidate(DirectoryParts(path), 0) == path
  {
    var (directory, filename) := Split(path);
    var (stem, extension) := SplitExtension(filename);
    assert directory + stem + [] + extension == directory + (stem + extension);
  }

  /** A sibling lies in the same directory and keeps the extension; different numbers give different
      names. */
  lemma CandidatesDiffer(p: Parts, j: nat, k: nat)
    requires j != k
    ensures Candidate(p, j) != Candidate(p, k)
  {
    var front := |p.directory + p.stem|;
    ParseDecimal(j);
    ParseDecimal(k);
    if j != 0 && k != 0 {
      var a, b := Candidate(p, j), Candidate(p, k);
      assert a[front + 1..|a| - |p.extension|] == Decimal(j);
      assert b[front + 1..|b| - |p.extension|] == Decimal(k);
    } else {
      assert |Candidate(p, j)| != |Candidate(p, k)|;
    }
  }

  /** So k taken candidates need k taken names. */
  lemma {:induction false} TakenAtLeast(p: Parts, taken: set<Path>, k: nat)
    requires forall i :: 0 <= i < k ==> Candidate(p, i) in taken
    ensures k <= |taken|
    decreases k
  {
    if k > 0 {
      var last := Candidate(p, k - 1);
      forall i | 0 <= i < k - 1 ensures Candidate(p, i) in taken - {last} {
        CandidatesDiffer(p, i, k - 1);
      }
      TakenAtLeast(p, taken - {last}, k - 1);
    }
  }

  /** The first free candidate. */
  ghost predicate FirstFree(p: Parts, taken: set<Path>, k: nat) {
    Candidate(p, k) !in taken && forall i :: 0 <= i < k ==> Candidate(p, i) in taken
  }

  /** The requested path, or its first numbered sibling that is free. */
  ghost predicate FreeSibling(p: Parts, taken: set<Path>, path: Path) {
    exists k: nat :: FirstFree(p, taken, k) && path == Candidate(p, k)
  }

  lemma FirstFreeExists(p: Parts, taken: set<Path>)
    ensures exists k: nat :: k <= |taken| && FirstFree(p, taken, k)
  {
    var k := FreeFrom(p, taken, 0);
    TakenAtLeast(p, taken, k);
  }

  lemma {:induction false} FreeFrom(p: Parts, taken: set<Path>, from: nat) returns (k: nat)
    requires forall i :: 0 <= i < from ==> Candidate(p, i) in taken
    ensures FirstFree(p, taken, k)
    decreases |taken| + 1 - from
  {
    TakenAtLeast(p, taken, from);
    k := from;
    if Candidate(p, from) in taken {
      TakenAtLeast(p, taken, from + 1);
      k := FreeFrom(p, taken, from + 1);
    }
  }

  datatype Choice = Chosen(path: Path) | IsDirectory | Failed

  /** The local variant: a directory under the requested name is an error, not a collision. */
  method NextAvailableLocalPath(taken: set<Path>, directories: set<Path>, wanted: Path) returns (r: Choice)
    requires directories <= taken
    ensures r.Chosen? ==> FreeSibling(FileParts(wanted), taken, r.path)
    ensures r.Chosen? && wanted !in taken ==> r.path == wanted
    ensures r.IsDirectory? ==> wanted in directories
    ensures r.Chosen? ==> wanted !in directories
  {
    PartsRecompose(wanted);
    var parts, sequence := FileParts(wanted), 0;
    while true
      invariant forall i :: 0 <= i < sequence ==> Candidate(parts, i) in taken
      invariant sequence <= |taken| && (sequence > 0 ==> wanted !in directories)
      decreases |taken| - sequence
    {
      var candidate := if sequence == 0 then wanted
                       else parts.directory + parts.stem + ([UNDERSCORE] + Decimal(sequence)) + parts.extension;
      var inspected: bool := *;
      if candidate !in taken {
        assert FirstFree(parts, taken, sequence);
        return Chosen(candidate);
      }
      if !inspected {
        return Failed;
      }
      if candidate in directories && sequence == 0 {
        return IsDirectory;
      }
      TakenAtLeast(parts, taken, sequence + 1);
      sequence := sequence + 1;
    }
  }

  /** For directories everything that exists is a collision, and there is no extension to keep. The
      path is cleaned first; it fails if that leaves nothing to name. */
  method NextAvailableLocalDirectory(taken: set<Path>, wanted: Path) returns (r: Choice)
    ensures r.Chosen? ==> FreeSibling(DirectoryParts(Clean(wanted)), taken, r.path)
    ensures r.Chosen? && Clean(wanted) !in taken ==> r.path == Clean(wanted)
    ensures CleanComponents(wanted) == [] ==> r.Failed?
    ensures !r.IsDirectory?
  {
    hide Clean, CleanComponents, Split, FirstFree, Candidate, Decimal;
    var cleaned := Clean(wanted);
    CleanNames(wanted);
    PartsRecompose(cleaned);
    ghost var parts := DirectoryParts(cleaned);
    var (directory, filename) := Split(cleaned);
    if filename == [DOT] || filename == [] {
      return Failed;
    }
    var sequence := 0;
    while true
      invariant forall i :: 0 <= i < sequence ==> Candidate(parts, i) in taken
      invariant sequence <= |taken|
      decreases |taken| - sequence
    {
      var candidate := if sequence == 0 then directory + filename
                       else directory + filename + ([UNDERSCORE] + Decimal(sequence));
      IsCandidate(parts, sequence);
      var inspected: bool := *;
      if candidate !in taken {
        IsFirstFree(parts, taken, sequence);
        return Chosen(candidate);
      }
      if !inspected {
        return Failed;
      }
      TakenAtLeast(parts, taken, sequence + 1);
      sequence := sequence + 1;
    }
  }

  lemma IsCandidate(parts: Parts, k: nat)
    requires parts.extension == []
    ensures Candidate(parts, k) == parts.directory + parts.stem + if k == 0 then [] else [UNDERSCORE] + Decimal(k)
    ensures Candidate(parts, 0) == parts.directory + parts.stem
  {
  }

  lemma IsFirstFree(parts: Parts, taken: set<Path>, k: nat)
    requires Candidate(parts, k) !in taken && forall i :: 0 <= i < k ==> Candidate(parts, i) in taken
    ensures FirstFree(parts, taken, k) && (Candidate(parts, 0) !in taken ==> k == 0)
  {
  }
}
