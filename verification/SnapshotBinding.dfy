/** Which files a consume snapshots: the request built from the named files, the
    executable and the argument vector, and the binder that copies what it names. */
module SnapshotBinding {
  import opened Wrappers

  datatype Named = Named(path: string, relative: bool, digest: string)

  /** A name resolved to the one file it stands for. */
  datatype Place = Place(text: string)

  /** What the file system answers: how a name resolves against the workspace, which
      resolved names lie inside it, the digest of the bytes behind a name (none when
      it cannot be opened), and where the copy with a given digest is kept. */
  datatype Disk = Disk(resolve: string -> Place, inside: Place -> bool, content: Place -> Option<string>, copy: string -> Place)

  datatype Refusal =
    | NothingToBind | OutsideWorkspace | ExecutableNotNamed | NoWorkspaceFile
    | LiveExecutableDiffers | FingerprintMissing | BytesDiffer | InputNotInArgv | WrongArgv0 | LiveInputLeft

  datatype Request = Request(argv: seq<Place>, executable: Place, inputs: seq<Place>, dependencies: seq<Place>,
                             fingerprints: map<Place, string>)

  datatype Snapshot = Snapshot(original: Place, digest: string)

  datatype Bound = Bound(argv: seq<Place>, snapshots: seq<Snapshot>)

  // Sequences of names

  function Elements(s: seq<Place>): set<Place>
  {
    set x | x in s :: x
  }

  lemma ElementsPlus(s: seq<Place>, t: seq<Place>)
    ensures Elements(s + t) == Elements(s) + Elements(t)
  {
    forall x ensures x in s + t <==> x in s || x in t { }
  }

  lemma ElementsOne(x: Place)
    ensures Elements([x]) == {x}
  {
    assert [x][0] == x;
    forall y ensures y in Elements([x]) <==> y in {x} { assert y in [x] <==> y == x; }
  }

  /** First occurrences, in order. */
  function Distinct(s: seq<Place>): seq<Place>
  {
    if s == [] then []
    else
      var before, last := Distinct(s[..|s| - 1]), s[|s| - 1];
      if last in before then before else before + [last]
  }

  function Kept(s: seq<Place>, p: Place -> bool): seq<Place>
  {
    if s == [] then []
    else Kept(s[..|s| - 1], p) + if p(s[|s| - 1]) then [s[|s| - 1]] else []
  }

  predicate NoRepeats(s: seq<Place>)
  {
    forall i, j :: 0 <= i < j < |s| ==> s[i] != s[j]
  }

  lemma {:induction false} DistinctElements(s: seq<Place>)
    ensures Elements(Distinct(s)) == Elements(s) && NoRepeats(Distinct(s))
    ensures s != [] ==> Distinct(s) != [] && Distinct(s)[0] == s[0]
  {
    if s != [] {
      DistinctElements(s[..|s| - 1]);
      assert s == s[..|s| - 1] + [s[|s| - 1]];
      forall x ensures x in Distinct(s) <==> x in s {
        assert x in Distinct(s[..|s| - 1]) <==> x in Elements(Distinct(s[..|s| - 1]));
        assert x in s[..|s| - 1] <==> x in Elements(s[..|s| - 1]);
      }
    }
  }

  lemma {:induction false} DistinctExtends(s: seq<Place>, t: seq<Place>)
    ensures Distinct(s) <= Distinct(s + t)
  {
    if t == [] {
      assert s + t == s;
    } else {
      DistinctExtends(s, t[..|t| - 1]);
      assert (s + t)[..|s + t| - 1] == s + t[..|t| - 1];
    }
  }

  lemma {:induction false} KeptElements(s: seq<Place>, p: Place -> bool)
    ensures forall x :: x in Kept(s, p) <==> x in s && p(x)
  {
    if s != [] {
      KeptElements(s[..|s| - 1], p);
      assert s == s[..|s| - 1] + [s[|s| - 1]];
    }
  }

  // What the caller named

  function Keys(d: Disk, files: seq<Named>): seq<Place>
  {
    seq(|files|, i requires 0 <= i < |files| => d.resolve(files[i].path))
  }

  /** A later entry for the same file replaces an earlier digest. */
  function Fingerprints(d: Disk, files: seq<Named>): map<Place, string>
  {
    if files == [] then map[]
    else
      var last := files[|files| - 1];
      Fingerprints(d, files[..|files| - 1])[d.resolve(last.path) := last.digest]
  }

  lemma {:induction false} FingerprintKeys(d: Disk, files: seq<Named>)
    ensures Fingerprints(d, files).Keys == Elements(Keys(d, files))
  {
    if files != [] {
      var before := files[..|files| - 1];
      FingerprintKeys(d, before);
      var last := [d.resolve(files[|files| - 1].path)];
      assert Keys(d, files) == Keys(d, before) + last;
      ElementsPlus(Keys(d, before), last);
      ElementsOne(last[0]);
    }
  }

  /** No later entry names the same file. */
  predicate IsLast(d: Disk, files: seq<Named>, i: int)
  {
    0 <= i < |files| && forall j :: i < j < |files| ==> d.resolve(files[j].path) != d.resolve(files[i].path)
  }

  /** The digest kept for a file is the one of its last entry. */
  lemma {:induction false} LastDigestWins(d: Disk, files: seq<Named>, i: nat)
    requires i < |files| && forall j :: i < j < |files| ==> d.resolve(files[j].path) != d.resolve(files[i].path)
    ensures d.resolve(files[i].path) in Fingerprints(d, files)
    ensures Fingerprints(d, files)[d.resolve(files[i].path)] == files[i].digest
  {
    var n := |files| - 1;
    if i < n {
      LastDigestWins(d, files[..n], i);
      assert d.resolve(files[n].path) != d.resolve(files[i].path);
    }
  }

  /** Every file named has a last entry. */
  lemma {:induction false} LastEntry(d: Disk, files: seq<Named>, key: Place) returns (i: nat)
    requires key in Keys(d, files)
    ensures i < |files| && d.resolve(files[i].path) == key && forall j :: i < j < |files| ==> d.resolve(files[j].path) != key
  {
    var n := |files| - 1;
    if d.resolve(files[n].path) == key {
      i := n;
    } else {
      var before := files[..n];
      assert Keys(d, files) == Keys(d, before) + [d.resolve(files[n].path)];
      i := LastEntry(d, before, key);
      forall j | i < j < |files| ensures d.resolve(files[j].path) != key {
        if j < n { assert before[j] == files[j]; }
      }
    }
  }

  function ExecutableOf(d: Disk, files: seq<Named>, executable: string): Place
    requires files != []
  {
    if executable != "" then Place(executable) else d.resolve(files[0].path)
  }

  predicate Usable(d: Disk, files: seq<Named>)
  {
    forall i :: 0 <= i < |files| && files[i].relative ==> d.inside(d.resolve(files[i].path))
  }

  function Tokens(d: Disk, argv: seq<string>): seq<Place>
  {
    if argv == [] then [] else seq(|argv| - 1, i requires 0 <= i < |argv| - 1 => d.resolve(argv[i + 1]))
  }

  function WorkspaceFileIn(d: Disk, keys: set<Place>): Place -> bool
  {
    k => k in keys && d.inside(k)
  }

  /** Workspace files the argument vector names, the executable first when it is one. */
  function ArgvPaths(d: Disk, keys: set<Place>, exe: Place, argv: seq<string>): seq<Place>
  {
    Distinct((if d.inside(exe) then [exe] else []) + Kept(Tokens(d, argv), WorkspaceFileIn(d, keys)))
  }

  /** The executable is in the workspace, or some later token names a workspace file. */
  predicate Hit(d: Disk, keys: set<Place>, exe: Place, argv: seq<string>)
  {
    d.inside(exe) || exists i :: 1 <= i < |argv| && d.resolve(argv[i]) in keys && d.inside(d.resolve(argv[i]))
  }

  /** A system interpreter stays live. */
  function Live(d: Disk, exe: Place): set<Place>
  {
    if d.inside(exe) then {} else {exe}
  }

  function Snapshotted(q: Request): set<Place>
  {
    {q.executable} + Elements(q.inputs) + Elements(q.dependencies)
  }

  predicate Refuses(d: Disk, files: seq<Named>, executable: string, argv: seq<string>)
  {
    || files == []
    || !Usable(d, files)
    || var keys, exe := Elements(Keys(d, files)), ExecutableOf(d, files, executable);
       exe !in keys || (!Hit(d, keys, exe, argv) && forall k :: k in keys ==> !d.inside(k))
  }

  /** What the request promises. */
  predicate Chosen(d: Disk, files: seq<Named>, exe: Place, argv: seq<string>, q: Request)
  {
    var keys := Elements(Keys(d, files));
    && q.argv != [] && q.argv[0] == q.executable && NoRepeats(q.argv)
    && q.fingerprints == Fingerprints(d, files) - Live(d, exe)
    && (if Hit(d, keys, exe, argv) then
          && q.argv == ArgvPaths(d, keys, exe, argv)
          && q.inputs == q.argv[1..]
          && Snapshotted(q) == keys - Live(d, exe)
        else
          && q.argv == [q.executable]
          && q.dependencies == []
          && [q.executable] + q.inputs == Kept(Keys(d, files), d.inside)
          && Snapshotted(q) == set k | k in keys && d.inside(k))
  }

  lemma SplitHead(s: seq<Place>)
    requires s != []
    ensures {s[0]} + Elements(s[1..]) == Elements(s)
  {
    assert s == [s[0]] + s[1..];
    ElementsPlus([s[0]], s[1..]);
    ElementsOne(s[0]);
  }

  lemma InArgvPaths(d: Disk, keys: set<Place>, exe: Place, argv: seq<string>, k: Place)
    ensures k in ArgvPaths(d, keys, exe, argv) <==>
            (d.inside(exe) && k == exe) || (k in Tokens(d, argv) && k in keys && d.inside(k))
  {
    var start := if d.inside(exe) then [exe] else [];
    var hits := Kept(Tokens(d, argv), WorkspaceFileIn(d, keys));
    KeptElements(Tokens(d, argv), WorkspaceFileIn(d, keys));
    DistinctElements(start + hits);
    assert ArgvPaths(d, keys, exe, argv) == Distinct(start + hits);
    assert k in Distinct(start + hits) <==> k in Elements(Distinct(start + hits));
    assert k in start + hits <==> k in Elements(start + hits);
    assert k in start <==> d.inside(exe) && k == exe;
  }

  lemma HitIsToken(d: Disk, keys: set<Place>, exe: Place, argv: seq<string>)
    ensures Hit(d, keys, exe, argv) <==> d.inside(exe) || exists k :: k in Tokens(d, argv) && k in keys && d.inside(k)
  {
    if i :| 1 <= i < |argv| && d.resolve(argv[i]) in keys && d.inside(d.resolve(argv[i])) {
      assert Tokens(d, argv)[i - 1] == d.resolve(argv[i]);
    }
    if k :| k in Tokens(d, argv) && k in keys && d.inside(k) {
      var i :| 0 <= i < |Tokens(d, argv)| && Tokens(d, argv)[i] == k;
      assert d.resolve(argv[i + 1]) == k;
    }
  }

  lemma ArgvHits(d: Disk, keys: set<Place>, exe: Place, argv: seq<string>)
    ensures forall k :: k in ArgvPaths(d, keys, exe, argv) ==> k in keys + {exe} && d.inside(k)
    ensures d.inside(exe) ==> exe in ArgvPaths(d, keys, exe, argv)
    ensures ArgvPaths(d, keys, exe, argv) != [] <==> Hit(d, keys, exe, argv)
  {
    forall k ensures k in ArgvPaths(d, keys, exe, argv) <==>
                     (d.inside(exe) && k == exe) || (k in Tokens(d, argv) && k in keys && d.inside(k)) {
      InArgvPaths(d, keys, exe, argv, k);
    }
    HitIsToken(d, keys, exe, argv);
    if ArgvPaths(d, keys, exe, argv) != [] {
      assert ArgvPaths(d, keys, exe, argv)[0] in ArgvPaths(d, keys, exe, argv);
    }
  }

  lemma HitsStep(start: seq<Place>, tokens: seq<Place>, i: nat, named: Place -> bool)
    requires i < |tokens|
    ensures var d := Distinct(start + Kept(tokens[..i], named));
            Distinct(start + Kept(tokens[..i + 1], named)) ==
            if named(tokens[i]) && tokens[i] !in d then d + [tokens[i]] else d
  {
    var before := start + Kept(tokens[..i], named);
    assert tokens[..i + 1][..i] == tokens[..i];
    if named(tokens[i]) {
      assert start + Kept(tokens[..i + 1], named) == before + [tokens[i]];
      assert (before + [tokens[i]])[..|before|] == before;
    } else {
      assert Kept(tokens[..i + 1], named) == Kept(tokens[..i], named);
    }
  }

  method CollectArgvPaths(d: Disk, keys: set<Place>, exe: Place, argv: seq<string>) returns (paths: seq<Place>)
    ensures paths == ArgvPaths(d, keys, exe, argv)
  {
    var named := WorkspaceFileIn(d, keys);
    ghost var start := if d.inside(exe) then [exe] else [];
    paths := if d.inside(exe) then [exe] else [];
    assert start == [] || start[..|start| - 1] == [];
    var tokens := Tokens(d, argv);
    assert start + Kept(tokens[..0], named) == start;
    for i := 0 to |tokens|
      invariant paths == Distinct(start + Kept(tokens[..i], named))
    {
      HitsStep(start, tokens, i, named);
      if named(tokens[i]) && tokens[i] !in paths {
        paths := paths + [tokens[i]];
      }
    }
    assert tokens[..|tokens|] == tokens;
  }

  lemma ArgvPathsStart(d: Disk, keys: set<Place>, exe: Place, token: string)
    ensures ArgvPaths(d, keys, exe, [token]) == if d.inside(exe) then [exe] else []
  {
    var start: seq<Place> := if d.inside(exe) then [exe] else [];
    assert Tokens(d, [token]) == [];
    assert Kept([], WorkspaceFileIn(d, keys)) == [] && start + [] == start;
    assert Distinct(start) == start by {
      if start != [] {
        assert start[..0] == [] && Distinct(start[..0]) == [];
        assert [] + [exe] == [exe];
      }
    }
  }

  /** What the argument paths are, token by token: the executable alone when it is in the
      workspace, and then each named workspace file where a token first names it. */
  lemma ArgvPathsGrow(d: Disk, keys: set<Place>, exe: Place, argv: seq<string>, token: string)
    requires argv != []
    ensures ArgvPaths(d, keys, exe, argv[..1]) == if d.inside(exe) then [exe] else []
    ensures var paths, k := ArgvPaths(d, keys, exe, argv), d.resolve(token);
            ArgvPaths(d, keys, exe, argv + [token]) == if k in keys && d.inside(k) && k !in paths then paths + [k] else paths
  {
    var start: seq<Place> := if d.inside(exe) then [exe] else [];
    var named, longer := WorkspaceFileIn(d, keys), Tokens(d, argv + [token]);
    ArgvPathsStart(d, keys, exe, argv[0]);
    assert argv[..1] == [argv[0]];
    assert longer == Tokens(d, argv) + [d.resolve(token)];
    HitsStep(start, longer, |argv| - 1, named);
    assert longer[..|argv| - 1] == Tokens(d, argv) && longer[..|argv|] == longer;
  }

  method ReadNamed(d: Disk, files: seq<Named>) returns (ok: bool, fingerprints: map<Place, string>, ordered: seq<Place>)
    ensures ok <==> Usable(d, files)
    ensures ok ==> fingerprints == Fingerprints(d, files) && ordered == Keys(d, files)
  {
    ok, fingerprints, ordered := true, map[], [];
    for i := 0 to |files|
      invariant ok && fingerprints == Fingerprints(d, files[..i]) && ordered == Keys(d, files[..i])
      invariant forall k :: 0 <= k < i && files[k].relative ==> d.inside(d.resolve(files[k].path))
    {
      var f := files[i];
      var key := d.resolve(f.path);
      assert files[..i + 1][..i] == files[..i] && files[..i + 1][i] == f;
      if f.relative && !d.inside(key) {
        return false, fingerprints, ordered;
      }
      fingerprints, ordered := fingerprints[key := f.digest], ordered + [key];
    }
    assert files[..|files|] == files;
  }

  method WorkspaceFiles(d: Disk, ordered: seq<Place>) returns (kept: seq<Place>)
    ensures kept == Kept(ordered, d.inside)
  {
    kept := [];
    for i := 0 to |ordered|
      invariant kept == Kept(ordered[..i], d.inside)
    {
      assert ordered[..i + 1][..i] == ordered[..i] && ordered[..i + 1][i] == ordered[i];
      if d.inside(ordered[i]) {
        kept := kept + [ordered[i]];
      }
    }
    assert ordered[..|ordered|] == ordered;
  }

  function Others(paths: seq<Place>, exe: Place): Place -> bool
  {
    k => k !in paths && k != exe
  }

  lemma NoneKept(s: seq<Place>, p: Place -> bool)
    ensures Kept(s, p) == [] <==> forall k :: k in Elements(s) ==> !p(k)
  {
    KeptElements(s, p);
    forall k | k in s ensures k in Elements(s) { }
    if Kept(s, p) != [] {
      assert Kept(s, p)[0] in Kept(s, p);
    }
  }

  lemma SentinelIsChosen(d: Disk, files: seq<Named>, exe: Place, argv: seq<string>, kept: seq<Place>)
    requires !Hit(d, Elements(Keys(d, files)), exe, argv)
    requires kept == Kept(Keys(d, files), d.inside) && kept != []
    ensures Chosen(d, files, exe, argv, Request([kept[0]], kept[0], kept[1..], [], Fingerprints(d, files) - Live(d, exe)))
  {
    KeptElements(Keys(d, files), d.inside);
    SplitHead(kept);
    forall k ensures k in kept <==> k in Elements(Keys(d, files)) && d.inside(k) { }
    assert [kept[0]] + kept[1..] == kept;
  }

  lemma HitIsChosen(d: Disk, files: seq<Named>, exe: Place, argv: seq<string>, paths: seq<Place>)
    requires exe in Keys(d, files) && Hit(d, Elements(Keys(d, files)), exe, argv)
    requires paths == ArgvPaths(d, Elements(Keys(d, files)), exe, argv) && paths != []
    ensures Chosen(d, files, exe, argv, Request(paths, paths[0], paths[1..], Kept(Keys(d, files), Others(paths, exe)), Fingerprints(d, files) - Live(d, exe)))
  {
    var keys := Elements(Keys(d, files));
    ArgvHits(d, keys, exe, argv);
    var hits := Kept(Tokens(d, argv), WorkspaceFileIn(d, keys));
    DistinctElements((if d.inside(exe) then [exe] else []) + hits);
    var others := Kept(Keys(d, files), Others(paths, exe));
    KeptElements(Keys(d, files), Others(paths, exe));
    SplitHead(paths);
    forall k ensures k in Elements(paths) + Elements(others) <==> k in keys - Live(d, exe) {
      assert k in others <==> k in Keys(d, files) && k !in paths && k != exe;
    }
  }

  method BuildRequest(d: Disk, ghost files: seq<Named>, fingerprints: map<Place, string>, ordered: seq<Place>, exe: Place, argv: seq<string>)
    returns (r: Result<Request, Refusal>)
    requires fingerprints == Fingerprints(d, files) && ordered == Keys(d, files) && exe in fingerprints
    ensures r.Failure? <==>
            !Hit(d, Elements(Keys(d, files)), exe, argv) && forall k :: k in Elements(Keys(d, files)) ==> !d.inside(k)
    ensures r.Success? ==> Chosen(d, files, exe, argv, r.value)
  {
    FingerprintKeys(d, files);
    var paths := CollectArgvPaths(d, fingerprints.Keys, exe, argv);
    NoPathsNoHit(d, fingerprints.Keys, exe, argv);
    var live := fingerprints - Live(d, exe);
    if paths == [] {
      var kept := WorkspaceFiles(d, ordered);
      NoneKept(ordered, d.inside);
      if kept == [] {
        return Failure(NoWorkspaceFile);
      }
      SentinelIsChosen(d, files, exe, argv, kept);
      return Success(Request([kept[0]], kept[0], kept[1..], [], live));
    }
    HitIsChosen(d, files, exe, argv, paths);
    return Success(Request(paths, paths[0], paths[1..], Kept(ordered, Others(paths, exe)), live));
  }

  lemma NoPathsNoHit(d: Disk, keys: set<Place>, exe: Place, argv: seq<string>)
    ensures ArgvPaths(d, keys, exe, argv) != [] <==> Hit(d, keys, exe, argv)
  {
    ArgvHits(d, keys, exe, argv);
  }

  method ChooseRequest(d: Disk, files: seq<Named>, executable: string, argv: seq<string>) returns (r: Result<Request, Refusal>)
    ensures r.Failure? <==> Refuses(d, files, executable, argv)
    ensures r.Success? ==> Chosen(d, files, ExecutableOf(d, files, executable), argv, r.value)
  {
    if files == [] {
      return Failure(NothingToBind);
    }
    var ok, fingerprints, ordered := ReadNamed(d, files);
    if !ok {
      return Failure(OutsideWorkspace);
    }
    FingerprintKeys(d, files);
    var exe := if executable != "" then Place(executable) else ordered[0];
    if exe !in fingerprints {
      return Failure(ExecutableNotNamed);
    }
    r := BuildRequest(d, files, fingerprints, ordered, exe, argv);
  }

  // The binder

  function Needed(q: Request): seq<Place>
  {
    [q.executable] + q.inputs + q.dependencies
  }

  predicate Taken(d: Disk, q: Request, key: Place)
  {
    key in q.fingerprints && d.content(key) == Some(q.fingerprints[key])
  }

  function Rewritten(d: Disk, q: Request): seq<Place>
  {
    seq(|q.argv|, i requires 0 <= i < |q.argv| =>
      if q.argv[i] in Needed(q) && q.argv[i] in q.fingerprints then d.copy(q.fingerprints[q.argv[i]]) else q.argv[i])
  }

  predicate Bindable(d: Disk, q: Request)
  {
    && (forall k :: k in Needed(q) ==> Taken(d, q, k))
    && (forall k :: k in q.inputs ==> k in q.argv && k !in Rewritten(d, q))
    && q.argv != []
    && q.executable in q.fingerprints && Rewritten(d, q)[0] == d.copy(q.fingerprints[q.executable])
  }

  predicate IsBound(d: Disk, q: Request, b: Bound)
  {
    && b.argv == Rewritten(d, q)
    && |b.snapshots| == |Distinct(Needed(q))|
    && forall i :: 0 <= i < |b.snapshots| ==>
         && b.snapshots[i].original == Distinct(Needed(q))[i]
         && d.content(b.snapshots[i].original) == Some(b.snapshots[i].digest)
  }

  method TakeAll(d: Disk, q: Request) returns (r: Result<seq<Snapshot>, Refusal>)
    ensures r.Success? <==> forall k :: k in Needed(q) ==> Taken(d, q, k)
    ensures r.Success? ==> IsBound(d, q, Bound(Rewritten(d, q), r.value))
  {
    var needed := Needed(q);
    for i := 0 to |needed|
      invariant forall k :: 0 <= k < i ==> needed[k] in q.fingerprints
    {
      if needed[i] !in q.fingerprints {
        assert !Taken(d, q, needed[i]);
        return Failure(FingerprintMissing);
      }
    }
    var taken: seq<Place>, snapshots: seq<Snapshot> := [], [];
    for i := 0 to |needed|
      invariant taken == Distinct(needed[..i]) && |snapshots| == |taken|
      invariant forall k :: 0 <= k < i ==> Taken(d, q, needed[k])
      invariant forall k :: 0 <= k < |taken| ==>
                  snapshots[k].original == taken[k] && d.content(taken[k]) == Some(snapshots[k].digest)
    {
      assert needed[..i + 1][..i] == needed[..i] && needed[..i + 1][i] == needed[i];
      var key := needed[i];
      if d.content(key) != Some(q.fingerprints[key]) {
        assert !Taken(d, q, key);
        return Failure(BytesDiffer);
      }
      if key !in taken {
        taken, snapshots := taken + [key], snapshots + [Snapshot(key, q.fingerprints[key])];
      }
    }
    assert needed[..|needed|] == needed;
    return Success(snapshots);
  }

  method BindExecution(d: Disk, q: Request) returns (r: Result<Bound, Refusal>)
    ensures r.Success? <==> Bindable(d, q)
    ensures r.Success? ==> IsBound(d, q, r.value)
  {
    var snapshots := TakeAll(d, q);
    if snapshots.Failure? {
      return Failure(snapshots.error);
    }
    for i := 0 to |q.inputs|
      invariant forall k :: 0 <= k < i ==> q.inputs[k] in q.argv
    {
      if q.inputs[i] !in q.argv {
        return Failure(InputNotInArgv);
      }
    }
    var rewritten := Rewritten(d, q);
    assert Needed(q)[0] == q.executable && q.executable in Needed(q);
    if rewritten == [] || rewritten[0] != d.copy(q.fingerprints[q.executable]) {
      return Failure(WrongArgv0);
    }
    for i := 0 to |q.inputs|
      invariant forall k :: 0 <= k < i ==> q.inputs[k] !in rewritten
    {
      if q.inputs[i] in rewritten {
        return Failure(LiveInputLeft);
      }
    }
    return Success(Bound(rewritten, snapshots.value));
  }

  /** The snapshot directory was just made: no named file is one of its copies. */
  ghost predicate FreshCopies(d: Disk, files: seq<Named>)
  {
    forall k, g :: k in Keys(d, files) ==> k != d.copy(g)
  }

  lemma NeededIsSnapshotted(q: Request)
    ensures Elements(Needed(q)) == Snapshotted(q)
  {
    ElementsPlus([q.executable] + q.inputs, q.dependencies);
    ElementsPlus([q.executable], q.inputs);
    ElementsOne(q.executable);
  }

  /** Every file the request copies carries the digest it was last named with. */
  lemma SnapshottedIsNamed(d: Disk, files: seq<Named>, exe: Place, argv: seq<string>, q: Request)
    requires files != [] && exe in Keys(d, files) && Chosen(d, files, exe, argv, q)
    ensures forall k :: k in Snapshotted(q) ==> k in q.fingerprints && k in Fingerprints(d, files) && q.fingerprints[k] == Fingerprints(d, files)[k]
  {
    FingerprintKeys(d, files);
  }

  lemma RewrittenIsCopy(d: Disk, files: seq<Named>, exe: Place, argv: seq<string>, q: Request, i: nat)
    requires files != [] && exe in Keys(d, files) && Chosen(d, files, exe, argv, q) && i < |q.argv|
    ensures q.argv[i] in q.fingerprints && Rewritten(d, q)[i] == d.copy(q.fingerprints[q.argv[i]])
  {
    NeededIsSnapshotted(q);
    SnapshottedIsNamed(d, files, exe, argv, q);
    if 0 < i {
      assert q.inputs[i - 1] == q.argv[i];
      assert q.argv[i] in q.inputs;
    }
    assert q.argv[i] in Snapshotted(q);
    assert q.argv[i] in Elements(Needed(q));
  }

  /** The inputs are all argument tokens exactly when an argument named a workspace
      file, or the workspace files named are all one and the same. */
  lemma InputsAreTokens(d: Disk, files: seq<Named>, exe: Place, argv: seq<string>, q: Request)
    requires files != [] && exe in Keys(d, files) && Chosen(d, files, exe, argv, q)
    ensures (forall k :: k in q.inputs ==> k in q.argv) <==>
            (Hit(d, Elements(Keys(d, files)), exe, argv) || forall k :: k in Keys(d, files) && d.inside(k) ==> k == q.executable)
  {
    if Hit(d, Elements(Keys(d, files)), exe, argv) {
      assert forall i :: 0 <= i < |q.inputs| ==> q.inputs[i] == q.argv[i + 1];
    } else {
      KeptElements(Keys(d, files), d.inside);
      forall k ensures k in Keys(d, files) && d.inside(k) <==> k == q.executable || k in q.inputs {
        assert k in Kept(Keys(d, files), d.inside) <==> k in [q.executable] + q.inputs;
      }
      assert forall k :: k in q.argv <==> k == q.executable;
    }
  }

  /** When the binder accepts the chosen request: every snapshotted file still has its
      named bytes, and either an argument named a workspace file or the workspace
      files named are all one and the same. */
  lemma BindableExactly(d: Disk, files: seq<Named>, exe: Place, argv: seq<string>, q: Request)
    requires files != [] && exe in Keys(d, files) && Chosen(d, files, exe, argv, q) && FreshCopies(d, files)
    ensures Bindable(d, q) <==>
            && (forall k :: k in Snapshotted(q) ==> k in Fingerprints(d, files) && d.content(k) == Some(Fingerprints(d, files)[k]))
            && (Hit(d, Elements(Keys(d, files)), exe, argv) || forall k :: k in Keys(d, files) && d.inside(k) ==> k == q.executable)
  {
    InputsAreTokens(d, files, exe, argv, q);
    RewrittenIsCopy(d, files, exe, argv, q, 0);
    NoLiveInput(d, files, exe, argv, q);
    AllTaken(d, files, exe, argv, q);
  }

  lemma NoLiveInput(d: Disk, files: seq<Named>, exe: Place, argv: seq<string>, q: Request)
    requires files != [] && exe in Keys(d, files) && Chosen(d, files, exe, argv, q) && FreshCopies(d, files)
    ensures forall k :: k in q.inputs ==> k !in Rewritten(d, q)
  {
    forall k | k in q.inputs ensures k !in Rewritten(d, q) {
      SnapshottedIsNamed(d, files, exe, argv, q);
      FingerprintKeys(d, files);
      assert k in Snapshotted(q);
      assert k in Keys(d, files);
      if k in Rewritten(d, q) {
        var i :| 0 <= i < |q.argv| && Rewritten(d, q)[i] == k;
        RewrittenIsCopy(d, files, exe, argv, q, i);
      }
    }
  }

  lemma AllTaken(d: Disk, files: seq<Named>, exe: Place, argv: seq<string>, q: Request)
    requires files != [] && exe in Keys(d, files) && Chosen(d, files, exe, argv, q)
    ensures (forall k :: k in Needed(q) ==> Taken(d, q, k)) <==>
            (forall k :: k in Snapshotted(q) ==> k in Fingerprints(d, files) && d.content(k) == Some(Fingerprints(d, files)[k]))
  {
    NeededIsSnapshotted(q);
    SnapshottedIsNamed(d, files, exe, argv, q);
    forall k ensures k in Needed(q) <==> k in Snapshotted(q) {
      assert k in Needed(q) <==> k in Elements(Needed(q));
    }
  }

  // The whole step

  /** What a bind snapshots: everything named but a live interpreter, or, when no
      argument names a workspace file, the workspace files. */
  function Covered(d: Disk, files: seq<Named>, exe: Place, argv: seq<string>): set<Place>
  {
    var keys := Elements(Keys(d, files));
    if Hit(d, keys, exe, argv) then keys - Live(d, exe) else set k | k in keys && d.inside(k)
  }

  predicate StillNamed(d: Disk, files: seq<Named>, key: Place)
  {
    key in Fingerprints(d, files) && d.content(key) == Some(Fingerprints(d, files)[key])
  }

  /** Exactly when a bind goes through. */
  predicate Accepts(d: Disk, files: seq<Named>, executable: string, argv: seq<string>)
  {
    && !Refuses(d, files, executable, argv)
    && var exe := ExecutableOf(d, files, executable);
       && (d.inside(exe) || StillNamed(d, files, exe))
       && (forall k :: k in Covered(d, files, exe, argv) ==> StillNamed(d, files, k))
       && (Hit(d, Elements(Keys(d, files)), exe, argv) ||
           forall i, j :: 0 <= i < |files| && 0 <= j < |files| && d.inside(Keys(d, files)[i]) && d.inside(Keys(d, files)[j]) ==>
             Keys(d, files)[i] == Keys(d, files)[j])
  }

  function Originals(b: Bound): seq<Place>
  {
    seq(|b.snapshots|, i requires 0 <= i < |b.snapshots| => b.snapshots[i].original)
  }

  /** One snapshot for every covered file and no other, each of the digest last named. */
  predicate Faithful(d: Disk, files: seq<Named>, exe: Place, argv: seq<string>, b: Bound)
  {
    && NoRepeats(Originals(b)) && Elements(Originals(b)) == Covered(d, files, exe, argv)
    && forall i :: 0 <= i < |b.snapshots| ==>
         var s := b.snapshots[i];
         s.original in Fingerprints(d, files) && s.digest == Fingerprints(d, files)[s.original]
  }

  method Bind(d: Disk, files: seq<Named>, executable: string, argv: seq<string>) returns (r: Result<Bound, Refusal>)
    ensures FreshCopies(d, files) ==> (r.Success? <==> Accepts(d, files, executable, argv))
    ensures r.Success? ==> files != [] && Faithful(d, files, ExecutableOf(d, files, executable), argv, r.value)
    ensures r.Success? ==> r.value.snapshots != [] && r.value.argv != [] && r.value.argv[0] == d.copy(r.value.snapshots[0].digest)
  {
    var chosen := ChooseRequest(d, files, executable, argv);
    if chosen.Failure? {
      return Failure(chosen.error);
    }
    var q := chosen.value;
    var exe := ExecutableOf(d, files, executable);
    FingerprintKeys(d, files);
    assert exe in Elements(Keys(d, files));
    if !d.inside(exe) && d.content(exe) != Some(Fingerprints(d, files)[exe]) {
      return Failure(LiveExecutableDiffers);
    }
    r := BindExecution(d, q);
    if FreshCopies(d, files) {
      AcceptsExactly(d, files, executable, argv, q);
    }
    if r.Success? {
      BoundIsFaithful(d, files, exe, argv, q, r.value);
      BoundArgv(d, files, exe, argv, q, r.value);
    }
  }

  lemma OneWorkspaceFile(d: Disk, files: seq<Named>, exe: Place, argv: seq<string>, q: Request)
    requires exe in Keys(d, files) && Chosen(d, files, exe, argv, q)
    requires !Hit(d, Elements(Keys(d, files)), exe, argv)
    ensures (forall k :: k in Keys(d, files) && d.inside(k) ==> k == q.executable) <==>
            forall i, j :: 0 <= i < |files| && 0 <= j < |files| && d.inside(Keys(d, files)[i]) && d.inside(Keys(d, files)[j]) ==>
              Keys(d, files)[i] == Keys(d, files)[j]
  {
    KeptElements(Keys(d, files), d.inside);
    assert ([q.executable] + q.inputs)[0] == q.executable;
    assert q.executable in Keys(d, files) && d.inside(q.executable);
  }

  lemma AcceptsExactly(d: Disk, files: seq<Named>, executable: string, argv: seq<string>, q: Request)
    requires FreshCopies(d, files) && !Refuses(d, files, executable, argv)
    requires Chosen(d, files, ExecutableOf(d, files, executable), argv, q)
    ensures var exe := ExecutableOf(d, files, executable);
            Accepts(d, files, executable, argv) <==> (d.inside(exe) || StillNamed(d, files, exe)) && Bindable(d, q)
  {
    var exe := ExecutableOf(d, files, executable);
    assert exe in Elements(Keys(d, files));
    BindableExactly(d, files, exe, argv, q);
    if !Hit(d, Elements(Keys(d, files)), exe, argv) {
      OneWorkspaceFile(d, files, exe, argv, q);
    }
    assert Covered(d, files, exe, argv) == Snapshotted(q);
  }

  /** The first snapshot is the executable's, and every token of the new arguments is the
      copy of the file its old token names. */
  lemma BoundArgv(d: Disk, files: seq<Named>, exe: Place, argv: seq<string>, q: Request, b: Bound)
    requires files != [] && exe in Keys(d, files) && Chosen(d, files, exe, argv, q) && Bindable(d, q) && IsBound(d, q, b)
    ensures b.snapshots != [] && b.argv != [] && b.snapshots[0].original == q.executable && b.argv[0] == d.copy(b.snapshots[0].digest)
    ensures |b.argv| == |q.argv| && forall i :: 0 <= i < |q.argv| ==>
              exists k :: 0 <= k < |b.snapshots| && b.snapshots[k].original == q.argv[i] && b.argv[i] == d.copy(b.snapshots[k].digest)
  {
    DistinctElements(Needed(q));
    assert Needed(q)[0] == q.executable && q.executable in Needed(q);
    assert Taken(d, q, q.executable);
    RewrittenIsCopy(d, files, exe, argv, q, 0);
    forall i | 0 <= i < |q.argv|
      ensures exists k :: 0 <= k < |b.snapshots| && b.snapshots[k].original == q.argv[i] && b.argv[i] == d.copy(b.snapshots[k].digest)
    {
      RewrittenIsCopy(d, files, exe, argv, q, i);
      ArgvIsNeeded(d, files, exe, argv, q, i);
      assert q.argv[i] in Elements(Distinct(Needed(q)));
      var k :| 0 <= k < |Distinct(Needed(q))| && Distinct(Needed(q))[k] == q.argv[i];
      assert Taken(d, q, q.argv[i]);
    }
  }

  lemma ArgvIsNeeded(d: Disk, files: seq<Named>, exe: Place, argv: seq<string>, q: Request, i: nat)
    requires Chosen(d, files, exe, argv, q) && i < |q.argv|
    ensures q.argv[i] in Needed(q)
  {
    if 0 < i { assert q.inputs[i - 1] == q.argv[i] && q.argv[i] in q.inputs; }
    assert q.argv[i] in Needed(q);
  }

  lemma BoundIsFaithful(d: Disk, files: seq<Named>, exe: Place, argv: seq<string>, q: Request, b: Bound)
    requires files != [] && exe in Keys(d, files) && Chosen(d, files, exe, argv, q) && Bindable(d, q) && IsBound(d, q, b)
    ensures Faithful(d, files, exe, argv, b)
  {
    NeededIsSnapshotted(q);
    SnapshottedIsNamed(d, files, exe, argv, q);
    DistinctElements(Needed(q));
    assert Originals(b) == Distinct(Needed(q));
    forall i | 0 <= i < |b.snapshots|
      ensures var s := b.snapshots[i];
              s.original in Fingerprints(d, files) && s.digest == Fingerprints(d, files)[s.original]
    {
      var k := b.snapshots[i].original;
      assert k == Distinct(Needed(q))[i];
      assert k in Distinct(Needed(q));
      assert k in Elements(Distinct(Needed(q)));
      assert k in Needed(q);
    }
  }

  /** The promise on the covered set itself: every named workspace file is in it, a
      live interpreter never is, and with a workspace argument nothing else is missing. */
  lemma CoversWorkspace(d: Disk, files: seq<Named>, executable: string, argv: seq<string>)
    requires !Refuses(d, files, executable, argv)
    ensures var exe, keys := ExecutableOf(d, files, executable), Elements(Keys(d, files));
            && (forall k :: k in keys && d.inside(k) ==> k in Covered(d, files, exe, argv))
            && (!d.inside(exe) ==> exe !in Covered(d, files, exe, argv))
            && (Hit(d, keys, exe, argv) ==> Covered(d, files, exe, argv) + Live(d, exe) == keys)
            && (!Hit(d, keys, exe, argv) ==> forall k :: k in Covered(d, files, exe, argv) ==> d.inside(k))
            && Covered(d, files, exe, argv) != {}
  {
    var exe, keys := ExecutableOf(d, files, executable), Elements(Keys(d, files));
    if d.inside(exe) {
      assert exe in Covered(d, files, exe, argv);
    } else if Hit(d, keys, exe, argv) {
      var i :| 1 <= i < |argv| && d.resolve(argv[i]) in keys && d.inside(d.resolve(argv[i]));
      assert d.resolve(argv[i]) in Covered(d, files, exe, argv);
    } else {
      var k :| k in keys && d.inside(k);
      assert k in Covered(d, files, exe, argv);
    }
  }

  // The same over the entries themselves

  lemma StillNamedIs(d: Disk, files: seq<Named>, key: Place)
    requires key in Keys(d, files)
    ensures StillNamed(d, files, key) <==>
            forall i :: IsLast(d, files, i) && d.resolve(files[i].path) == key ==> d.content(key) == Some(files[i].digest)
  {
    var i := LastEntry(d, files, key);
    LastDigestWins(d, files, i);
    FingerprintKeys(d, files);
    assert key in Elements(Keys(d, files));
    assert IsLast(d, files, i);
    forall k | IsLast(d, files, k) && d.resolve(files[k].path) == key ensures k == i { }
  }

  lemma KeysAre(d: Disk, files: seq<Named>, k: Place)
    ensures k in Elements(Keys(d, files)) <==> exists i :: 0 <= i < |files| && d.resolve(files[i].path) == k
  {
    if k in Keys(d, files) {
      var i :| 0 <= i < |files| && Keys(d, files)[i] == k;
      assert d.resolve(files[i].path) == k;
    }
    if i :| 0 <= i < |files| && d.resolve(files[i].path) == k { assert Keys(d, files)[i] == k; }
  }

  /** When the request is refused, entry by entry. */
  lemma RefusesExactly(d: Disk, files: seq<Named>, executable: string, argv: seq<string>)
    ensures Refuses(d, files, executable, argv) <==>
            || files == []
            || (exists i :: 0 <= i < |files| && files[i].relative && !d.inside(d.resolve(files[i].path)))
            || var exe := if executable == "" then d.resolve(files[0].path) else Place(executable);
               || (forall i :: 0 <= i < |files| ==> d.resolve(files[i].path) != exe)
               || (&& !d.inside(exe)
                   && (forall i, j :: 0 <= i < |files| && 1 <= j < |argv| ==>
                         d.resolve(argv[j]) != d.resolve(files[i].path) || !d.inside(d.resolve(argv[j])))
                   && (forall i :: 0 <= i < |files| ==> !d.inside(d.resolve(files[i].path))))
  {
    if files != [] {
      var keys, exe := Elements(Keys(d, files)), ExecutableOf(d, files, executable);
      forall k ensures k in keys <==> exists i :: 0 <= i < |files| && d.resolve(files[i].path) == k { KeysAre(d, files, k); }
      HitExactly(d, files, exe, argv);
    }
  }

  lemma HitExactly(d: Disk, files: seq<Named>, exe: Place, argv: seq<string>)
    ensures Hit(d, Elements(Keys(d, files)), exe, argv) <==>
            || d.inside(exe)
            || exists i, j :: 0 <= i < |files| && 1 <= j < |argv| && d.resolve(argv[j]) == d.resolve(files[i].path) && d.inside(d.resolve(argv[j]))
  {
    forall k ensures k in Elements(Keys(d, files)) <==> exists i :: 0 <= i < |files| && d.resolve(files[i].path) == k { KeysAre(d, files, k); }
  }

  /** What a bind covers, entry by entry: with an argument that names a workspace file
      everything but a live executable, and without one the workspace files. */
  lemma CoveredExactly(d: Disk, files: seq<Named>, exe: Place, argv: seq<string>, k: Place)
    ensures k in Covered(d, files, exe, argv) <==>
            && (exists i :: 0 <= i < |files| && d.resolve(files[i].path) == k)
            && (|| d.inside(k)
                || (k != exe && d.inside(exe))
                || (k != exe && exists i, j ::
                      0 <= i < |files| && 1 <= j < |argv| && d.resolve(argv[j]) == d.resolve(files[i].path) && d.inside(d.resolve(argv[j]))))
  {
    KeysAre(d, files, k);
    HitExactly(d, files, exe, argv);
  }

  /** When a bind of accepted names goes through, entry by entry: the last entry of every
      covered file, and of a live executable, has the digest of the bytes found; and
      some argument names a workspace file or all workspace files are one. */
  lemma AcceptsOverEntries(d: Disk, files: seq<Named>, executable: string, argv: seq<string>)
    requires !Refuses(d, files, executable, argv)
    ensures var exe := ExecutableOf(d, files, executable);
            Accepts(d, files, executable, argv) <==>
              && (forall i :: IsLast(d, files, i) && (d.resolve(files[i].path) in Covered(d, files, exe, argv) || d.resolve(files[i].path) == exe) ==>
                    d.content(d.resolve(files[i].path)) == Some(files[i].digest))
              && (Hit(d, Elements(Keys(d, files)), exe, argv) ||
                  forall i, j :: 0 <= i < |files| && 0 <= j < |files| && d.inside(d.resolve(files[i].path)) && d.inside(d.resolve(files[j].path)) ==>
                    d.resolve(files[i].path) == d.resolve(files[j].path))
  {
    var exe := ExecutableOf(d, files, executable);
    assert forall i :: 0 <= i < |files| ==> Keys(d, files)[i] == d.resolve(files[i].path);
    KeysAre(d, files, exe);
    assert d.inside(exe) ==> exe in Covered(d, files, exe, argv);
    forall k | k in Keys(d, files)
      ensures StillNamed(d, files, k) <==>
              forall i :: IsLast(d, files, i) && d.resolve(files[i].path) == k ==> d.content(k) == Some(files[i].digest)
    {
      StillNamedIs(d, files, k);
    }
    assert forall k :: k in Covered(d, files, exe, argv) ==> k in Keys(d, files);
  }

  /** Every snapshot has the digest of its file's last entry, and every covered file has
      a snapshot. */
  lemma BoundOverEntries(d: Disk, files: seq<Named>, exe: Place, argv: seq<string>, b: Bound, i: nat)
    requires Faithful(d, files, exe, argv, b) && IsLast(d, files, i)
    ensures forall k :: 0 <= k < |b.snapshots| && b.snapshots[k].original == d.resolve(files[i].path) ==> b.snapshots[k].digest == files[i].digest
    ensures d.resolve(files[i].path) in Covered(d, files, exe, argv) ==> exists k :: 0 <= k < |b.snapshots| && b.snapshots[k].original == d.resolve(files[i].path)
  {
    LastDigestWins(d, files, i);
    var key := d.resolve(files[i].path);
    if key in Covered(d, files, exe, argv) {
      assert key in Elements(Originals(b));
      var k :| 0 <= k < |Originals(b)| && Originals(b)[k] == key;
      assert b.snapshots[k].original == key;
    }
  }

  /** Every file holds its own name; only the interpreter is outside the workspace. */
  function SmallDisk(): Disk
  {
    Disk(s => Place(s), (p: Place) => p.text != "/bin/python3", (p: Place) => Some(p.text), g => Place("/snapshot/files/" + g))
  }

  function SelfNamed(path: string): Named
  {
    Named(path, false, path)
  }

  /** A live interpreter and two workspace files of which no argument names either:
      the request is made, and the binder refuses it although every byte is as named. */
  lemma UnnamedSecondFileIsRefused()
    ensures var files := [SelfNamed("/bin/python3"), SelfNamed("/w/a.py"), SelfNamed("/w/b.py")];
            && !Refuses(SmallDisk(), files, "/bin/python3", ["python3", "-V"])
            && !Accepts(SmallDisk(), files, "/bin/python3", ["python3", "-V"])
            && forall i :: 0 <= i < |files| ==> StillNamed(SmallDisk(), files, Place(files[i].path))
  {
    var d, live, a, b := SmallDisk(), SelfNamed("/bin/python3"), SelfNamed("/w/a.py"), SelfNamed("/w/b.py");
    var files := [live, a, b];
    var keys := Keys(d, files);
    assert keys == [Place(live.path), Place(a.path), Place(b.path)];
    assert a.path[1] != live.path[1] && b.path[1] != live.path[1] && a.path[3] != b.path[3];
    assert keys[0] in keys && keys[1] in keys && d.inside(keys[1]) && d.inside(keys[2]);
    assert "-V"[0] == '-' && live.path[0] == '/' && a.path[0] == '/' && b.path[0] == '/';
    assert Place("-V") !in keys;
    assert files[..2] == [live, a] && files[..2][..1] == [live] && [live][..0] == [];
    assert Fingerprints(d, [live]) == map[keys[0] := live.path];
    assert Fingerprints(d, [live, a]) == map[keys[0] := live.path, keys[1] := a.path];
    assert Fingerprints(d, files) == map[keys[0] := live.path, keys[1] := a.path, keys[2] := b.path];
  }

  /** An ordinary bind: one workspace file, its own executable, named by the digest of its
      bytes, which is not its path. */
  lemma OrdinaryBindIsAccepted()
    ensures var d := Disk((s: string) => Place(s), (p: Place) => true, (p: Place) => Some("sha"), (g: string) => Place("/snapshot/files/" + g));
            Accepts(d, [Named("/w/run", false, "sha")], "", ["/w/run"]) && !Accepts(d, [Named("/w/run", false, "other")], "", ["/w/run"])
  {
    var d := Disk((s: string) => Place(s), (p: Place) => true, (p: Place) => Some("sha"), (g: string) => Place("/snapshot/files/" + g));
    var good, bad := [Named("/w/run", false, "sha")], [Named("/w/run", false, "other")];
    assert "sha"[0] != "other"[0];
    RefusesExactly(d, good, "", ["/w/run"]);
    RefusesExactly(d, bad, "", ["/w/run"]);
    assert d.resolve(good[0].path) == Place("/w/run") && d.resolve(bad[0].path) == Place("/w/run");
    AcceptsOverEntries(d, good, "", ["/w/run"]);
    AcceptsOverEntries(d, bad, "", ["/w/run"]);
    assert d.content(d.resolve(bad[0].path)) != Some(bad[0].digest);
  }
}
