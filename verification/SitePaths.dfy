/** The import path of a virtual environment: the site directories and every
    existing path a .pth line reaches from them. */
module SitePaths {
  import opened Wrappers

  type Path = string
  type Key = string

  datatype Kind = Missing | Directory | Zip | Bad

  /** One line of a .pth file. `Names` is a line joined with its directory. */
  datatype Line = BadShape | Skipped | Unjoinable | Names(path: Path)
  datatype PthFile = UnreadablePth | PthLines(lines: seq<Line>)

  /** A still file system. `key` is path resolution, which can fail; `pth` lists the
      .pth files of a directory, or nothing when it cannot be listed. */
  datatype FileSystem = FileSystem(kind: Path -> Kind, key: Path -> Option<Key>, pth: Path -> Option<seq<PthFile>>)

  datatype Finding = Unreadable(path: Path) | Unresolvable(path: Path) | BadPth(path: Path) | TooMany

  const SITE_PATH_LIMIT: nat := 4096

  predicate Exists(fs: FileSystem, p: Path)
  {
    fs.kind(p) == Directory || fs.kind(p) == Zip
  }

  predicate NamedIn(f: PthFile, p: Path)
  {
    f.PthLines? && Names(p) in f.lines
  }

  /** A .pth line of directory `d` names the existing path `p`. */
  ghost predicate Edge(fs: FileSystem, d: Path, p: Path)
  {
    && fs.kind(d) == Directory && fs.pth(d).Some?
    && Exists(fs, p)
    && exists f :: f in fs.pth(d).value && NamedIn(f, p)
  }

  predicate LineSound(fs: FileSystem, l: Line)
  {
    match l
    case Skipped => true
    case Names(p) => fs.kind(p) != Bad && (Exists(fs, p) ==> fs.key(p).Some?)
    case _ => false
  }

  ghost predicate FileSound(fs: FileSystem, f: PthFile)
  {
    f.PthLines? && forall l :: l in f.lines ==> LineSound(fs, l)
  }

  /** Nothing about this path stops the scan. */
  ghost predicate Sound(fs: FileSystem, d: Path)
  {
    Scannable(fs, d) && (Exists(fs, d) ==> fs.key(d).Some?)
  }

  /** The path can be classified and every .pth line in it read and resolved. */
  ghost predicate Scannable(fs: FileSystem, d: Path)
  {
    && fs.kind(d) != Bad
    && (fs.kind(d) == Directory ==> fs.pth(d).Some? && forall f :: f in fs.pth(d).value ==> FileSound(fs, f))
  }

  ghost predicate Trail(fs: FileSystem, sites: seq<Path>, trail: seq<Path>)
  {
    && 0 < |trail| && trail[0] in sites
    && forall i :: 0 < i < |trail| ==> Edge(fs, trail[i - 1], trail[i])
  }

  /** Some walk along .pth edges leads from a site directory to this path. */
  ghost predicate Reached(fs: FileSystem, sites: seq<Path>, p: Path)
  {
    exists trail :: Trail(fs, sites, trail) && trail[|trail| - 1] == p
  }

  ghost predicate KeyReached(fs: FileSystem, sites: seq<Path>, k: Key)
  {
    exists p :: Reached(fs, sites, p) && Exists(fs, p) && fs.key(p) == Some(k)
  }

  ghost predicate SameEdges(fs: FileSystem, p: Path, q: Path)
  {
    forall r :: Edge(fs, p, r) ==> exists r' :: Edge(fs, q, r') && fs.key(r') == fs.key(r)
  }

  /** Two names of one resolved path are the same directory: they lead to the same
      resolved paths. */
  ghost predicate Coherent(fs: FileSystem)
  {
    forall p, q {:trigger SameEdges(fs, p, q)} :: fs.key(p).Some? && fs.key(p) == fs.key(q) ==> SameEdges(fs, p, q)
  }

  lemma ReachedStep(fs: FileSystem, sites: seq<Path>, d: Path, p: Path)
    requires Reached(fs, sites, d) && Edge(fs, d, p)
    ensures Reached(fs, sites, p)
  {
    var trail :| Trail(fs, sites, trail) && trail[|trail| - 1] == d;
    assert Trail(fs, sites, trail + [p]);
    assert (trail + [p])[|trail|] == p;
  }

  ghost predicate HasKey(fs: FileSystem, paths: seq<Path>, k: Option<Key>)
  {
    exists a :: a in paths && fs.key(a) == k
  }

  /** One .pth file: the existing paths it names that were not seen before. */
  method FileEntries(fs: FileSystem, d: Path, f: PthFile, seen0: set<Key>, added0: seq<Path>)
    returns (seen: set<Key>, added: seq<Path>, findings: seq<Finding>)
    requires fs.kind(d) == Directory && fs.pth(d).Some? && f in fs.pth(d).value
    requires forall a :: a in added0 ==> Edge(fs, d, a) && fs.key(a).Some?
    requires forall k :: k in seen0 <==> HasKey(fs, added0, Some(k))
    ensures added0 <= added
    ensures forall a :: a in added ==> Edge(fs, d, a) && fs.key(a).Some?
    ensures forall k :: k in seen <==> HasKey(fs, added, Some(k))
    ensures findings == [] <==> FileSound(fs, f)
    ensures findings == [] ==> forall p :: NamedIn(f, p) && Exists(fs, p) ==> HasKey(fs, added, fs.key(p))
  {
    seen, added, findings := seen0, added0, [];
    if f.UnreadablePth? {
      return seen, added, [BadPth(d)];
    }
    for i := 0 to |f.lines|
      invariant added0 <= added
      invariant forall a :: a in added ==> Edge(fs, d, a) && fs.key(a).Some?
      invariant forall k :: k in seen <==> HasKey(fs, added, Some(k))
      invariant findings == [] ==> forall l :: l in f.lines[..i] ==> LineSound(fs, l)
      invariant findings != [] ==> exists l :: l in f.lines[..i] && !LineSound(fs, l)
      invariant findings == [] ==> forall p :: Names(p) in f.lines[..i] && Exists(fs, p) ==> HasKey(fs, added, fs.key(p))
    {
      var line := f.lines[i];
      assert f.lines[..i + 1] == f.lines[..i] + [line];
      assert forall l :: l in f.lines[..i + 1] <==> l in f.lines[..i] || l == line;
      ghost var before := added;
      match line {
        case BadShape => findings := findings + [BadPth(d)];
        case Unjoinable => findings := findings + [BadPth(d)];
        case Skipped =>
        case Names(p) =>
          if fs.kind(p) == Bad {
            findings := findings + [Unreadable(p)];
          } else if fs.kind(p) != Missing {
            if fs.key(p).None? {
              findings := findings + [Unresolvable(p)];
            } else if fs.key(p).value !in seen {
              assert NamedIn(f, p);
              seen := seen + {fs.key(p).value};
              added := added + [p];
            }
          }
      }
      assert LineSound(fs, line) || line in f.lines[..i + 1];
      assert forall k :: HasKey(fs, before, k) ==> HasKey(fs, added, k);
    }
    assert f.lines[..|f.lines|] == f.lines;
  }

  /** The existing paths the .pth files of a directory name, once per resolved path. */
  method PthImportEntries(fs: FileSystem, d: Path) returns (added: seq<Path>, findings: seq<Finding>)
    ensures forall a :: a in added ==> Edge(fs, d, a) && fs.key(a).Some?
    ensures findings == [] <==> Scannable(fs, d)
    ensures findings == [] ==> forall p :: Edge(fs, d, p) ==> HasKey(fs, added, fs.key(p))
  {
    added, findings := [], [];
    if fs.kind(d) == Bad {
      return [], [Unreadable(d)];
    }
    if fs.kind(d) != Directory {
      return [], [];
    }
    if fs.pth(d).None? {
      return [], [Unreadable(d)];
    }
    var files := fs.pth(d).value;
    var seen: set<Key> := {};
    for i := 0 to |files|
      invariant forall a :: a in added ==> Edge(fs, d, a) && fs.key(a).Some?
      invariant forall k :: k in seen <==> HasKey(fs, added, Some(k))
      invariant findings == [] <==> forall f :: f in files[..i] ==> FileSound(fs, f)
      invariant findings == [] ==> forall f, p :: f in files[..i] && NamedIn(f, p) && Exists(fs, p) ==> HasKey(fs, added, fs.key(p))
    {
      assert files[..i + 1] == files[..i] + [files[i]];
      ghost var before := added;
      var more: seq<Finding>;
      seen, added, more := FileEntries(fs, d, files[i], seen, added);
      assert forall a :: a in before ==> a in added;
      assert forall k :: HasKey(fs, before, k) ==> HasKey(fs, added, k);
      findings := findings + more;
    }
    assert files[..|files|] == files;
  }

  ghost predicate DistinctKeys(fs: FileSystem, chosen: seq<Path>)
  {
    forall i, j :: 0 <= i < j < |chosen| ==> fs.key(chosen[i]) != fs.key(chosen[j])
  }

  /** A key is on hand when a chosen path has it or a queued one will bring it. */
  ghost predicate OnHand(fs: FileSystem, chosen: seq<Path>, queue: seq<Path>, k: Option<Key>)
  {
    HasKey(fs, chosen, k) || exists a :: a in queue && Exists(fs, a) && fs.key(a) == k
  }

  /** Every site directory and every edge of a chosen path is on hand. */
  ghost predicate Covered(fs: FileSystem, sites: seq<Path>, chosen: seq<Path>, queue: seq<Path>)
  {
    && (forall s :: s in sites && Exists(fs, s) ==> OnHand(fs, chosen, queue, fs.key(s)))
    && (forall c, p :: c in chosen && Edge(fs, c, p) ==> OnHand(fs, chosen, queue, fs.key(p)))
  }

  /** Why the scan refuses: it reached something that stops it, or it chose as many
      paths as it may and reached yet another. */
  ghost predicate Justified(fs: FileSystem, sites: seq<Path>, chosen: seq<Path>)
  {
    || (exists p :: Reached(fs, sites, p) && !Sound(fs, p))
    || (|chosen| == SITE_PATH_LIMIT && exists k :: KeyReached(fs, sites, k) && !HasKey(fs, chosen, Some(k)))
  }

  lemma DropHead(fs: FileSystem, sites: seq<Path>, chosen: seq<Path>, queue: seq<Path>, more: seq<Path>)
    requires queue != [] && Covered(fs, sites, chosen, queue)
    requires Exists(fs, queue[0]) ==> HasKey(fs, chosen, fs.key(queue[0]))
    ensures Covered(fs, sites, chosen, queue[1..] + more)
  {
    forall k | OnHand(fs, chosen, queue, k) ensures OnHand(fs, chosen, queue[1..] + more, k) {
      if !HasKey(fs, chosen, k) {
        var a :| a in queue && Exists(fs, a) && fs.key(a) == k;
        assert a in queue[1..];
      }
    }
  }

  lemma ChooseHead(fs: FileSystem, sites: seq<Path>, chosen: seq<Path>, queue: seq<Path>, more: seq<Path>)
    requires queue != [] && Covered(fs, sites, chosen, queue)
    requires forall a :: a in more ==> Edge(fs, queue[0], a)
    requires forall p :: Edge(fs, queue[0], p) ==> HasKey(fs, more, fs.key(p))
    ensures Covered(fs, sites, chosen + [queue[0]], queue[1..] + more)
  {
    var d := queue[0];
    forall k | OnHand(fs, chosen, queue, k) ensures OnHand(fs, chosen + [d], queue[1..] + more, k) {
      if HasKey(fs, chosen, k) {
        var a :| a in chosen && fs.key(a) == k;
        assert a in chosen + [d];
      } else {
        var a :| a in queue && Exists(fs, a) && fs.key(a) == k;
        assert a in queue[1..] || a in chosen + [d];
      }
    }
    forall p | Edge(fs, d, p) ensures OnHand(fs, chosen + [d], queue[1..] + more, fs.key(p)) {
      var a :| a in more && fs.key(a) == fs.key(p);
      assert a in queue[1..] + more;
    }
  }

  /** When nothing is queued any more, every reached key was chosen. */
  lemma {:induction false} ClosureComplete(fs: FileSystem, sites: seq<Path>, chosen: seq<Path>, trail: seq<Path>)
    requires Coherent(fs) && Covered(fs, sites, chosen, [])
    requires forall c :: c in chosen ==> Sound(fs, c) && Exists(fs, c)
    requires Trail(fs, sites, trail) && Exists(fs, trail[|trail| - 1])
    ensures HasKey(fs, chosen, fs.key(trail[|trail| - 1]))
  {
    var p := trail[|trail| - 1];
    if |trail| == 1 {
      assert OnHand(fs, chosen, [], fs.key(p));
    } else {
      var shorter := trail[..|trail| - 1];
      var d := shorter[|shorter| - 1];
      assert Edge(fs, trail[|trail| - 2], trail[|trail| - 1]);
      ClosureComplete(fs, sites, chosen, shorter);
      var c :| c in chosen && fs.key(c) == fs.key(d);
      assert SameEdges(fs, d, c);
      var p' :| Edge(fs, c, p') && fs.key(p') == fs.key(p);
      assert OnHand(fs, chosen, [], fs.key(p'));
    }
  }

  /** What holds between two rounds of the scan. */
  ghost predicate ScanInv(fs: FileSystem, sites: seq<Path>, chosen: seq<Path>, seen: set<Key>, queue: seq<Path>, findings: seq<Finding>)
  {
    && (forall p :: p in queue ==> Reached(fs, sites, p))
    && (forall c :: c in chosen ==> Reached(fs, sites, c) && Exists(fs, c) && fs.key(c).Some?)
    && DistinctKeys(fs, chosen) && |chosen| <= SITE_PATH_LIMIT
    && (forall k :: k in seen <==> HasKey(fs, chosen, Some(k)))
    && (findings == [] ==> Covered(fs, sites, chosen, queue) && forall c :: c in chosen ==> Sound(fs, c))
    && (findings == [] ==> forall s :: s in sites && s !in queue ==> fs.kind(s) != Bad)
    && (findings != [] ==> exists p :: Reached(fs, sites, p) && !Sound(fs, p))
  }

  lemma SkipRound(fs: FileSystem, sites: seq<Path>, chosen: seq<Path>, seen: set<Key>, queue: seq<Path>, findings: seq<Finding>)
    requires ScanInv(fs, sites, chosen, seen, queue, findings) && queue != []
    requires Exists(fs, queue[0]) ==> HasKey(fs, chosen, fs.key(queue[0]))
    requires fs.kind(queue[0]) != Bad
    ensures ScanInv(fs, sites, chosen, seen, queue[1..], findings)
  {
    if findings == [] {
      DropHead(fs, sites, chosen, queue, []);
      assert queue[1..] + [] == queue[1..];
    }
  }

  lemma RefuseRound(fs: FileSystem, sites: seq<Path>, chosen: seq<Path>, seen: set<Key>, queue: seq<Path>, findings: seq<Finding>, f: Finding)
    requires ScanInv(fs, sites, chosen, seen, queue, findings) && queue != [] && !Sound(fs, queue[0])
    ensures ScanInv(fs, sites, chosen, seen, queue[1..], findings + [f])
  {
    assert Reached(fs, sites, queue[0]);
  }

  lemma ChooseRound(fs: FileSystem, sites: seq<Path>, chosen: seq<Path>, seen: set<Key>, queue: seq<Path>, findings: seq<Finding>,
                    extras: seq<Path>, more: seq<Finding>)
    requires ScanInv(fs, sites, chosen, seen, queue, findings) && queue != []
    requires var d := queue[0]; Exists(fs, d) && fs.key(d).Some? && fs.key(d).value !in seen
    requires |chosen| < SITE_PATH_LIMIT
    requires forall a :: a in extras ==> Edge(fs, queue[0], a)
    requires more == [] <==> Scannable(fs, queue[0])
    requires more == [] ==> forall p :: Edge(fs, queue[0], p) ==> HasKey(fs, extras, fs.key(p))
    ensures ScanInv(fs, sites, chosen + [queue[0]], seen + {fs.key(queue[0]).value}, queue[1..] + extras, findings + more)
  {
    var d := queue[0];
    KeysAfterChoice(fs, chosen, d);
    forall a | a in extras ensures Reached(fs, sites, a) { ReachedStep(fs, sites, d, a); }
    assert Reached(fs, sites, d);
    if findings + more == [] { ChooseHead(fs, sites, chosen, queue, extras); }
    forall i, j | 0 <= i < j < |chosen + [d]| ensures fs.key((chosen + [d])[i]) != fs.key((chosen + [d])[j]) {
      if j == |chosen| { assert HasKey(fs, chosen, fs.key(chosen[i])); }
    }
  }

  /** The worklist. Each round either chooses a path, at most the limit's number of
      times, or shortens the queue: it ends on any file system, however large.
      Without findings the resolved paths chosen are exactly the reached ones: the
      least set that has the site directories and is closed under .pth edges. */
  method ExpandSitePaths(fs: FileSystem, sites: seq<Path>) returns (chosen: seq<Path>, findings: seq<Finding>)
    ensures DistinctKeys(fs, chosen) && |chosen| <= SITE_PATH_LIMIT
    ensures forall c :: c in chosen ==> Reached(fs, sites, c) && Exists(fs, c) && fs.key(c).Some?
    ensures Coherent(fs) && findings == [] ==> forall k :: HasKey(fs, chosen, Some(k)) <==> KeyReached(fs, sites, k)
    ensures findings == [] ==> Covered(fs, sites, chosen, []) && forall c :: c in chosen ==> Sound(fs, c)
    ensures findings == [] ==> forall s :: s in sites ==> fs.kind(s) != Bad
    ensures findings != [] ==> Justified(fs, sites, chosen)
  {
    chosen, findings := [], [];
    var seen: set<Key> := {};
    var queue := sites;
    forall s | s in sites ensures Reached(fs, sites, s) { assert Trail(fs, sites, [s]); }
    while queue != []
      invariant ScanInv(fs, sites, chosen, seen, queue, findings)
      decreases SITE_PATH_LIMIT - |chosen|, |queue|
    {
      var d := queue[0];
      if fs.kind(d) == Bad {
        RefuseRound(fs, sites, chosen, seen, queue, findings, Unreadable(d));
        queue, findings := queue[1..], findings + [Unreadable(d)];
        continue;
      }
      if fs.kind(d) == Missing {
        SkipRound(fs, sites, chosen, seen, queue, findings);
        queue := queue[1..];
        continue;
      }
      if fs.key(d).None? {
        RefuseRound(fs, sites, chosen, seen, queue, findings, Unresolvable(d));
        queue, findings := queue[1..], findings + [Unresolvable(d)];
        continue;
      }
      if fs.key(d).value in seen {
        SkipRound(fs, sites, chosen, seen, queue, findings);
        queue := queue[1..];
        continue;
      }
      if |chosen| >= SITE_PATH_LIMIT {
        assert KeyReached(fs, sites, fs.key(d).value);
        findings := findings + [TooMany];
        return;
      }
      var extras: seq<Path>, more: seq<Finding> := [], [];
      if fs.kind(d) == Directory {
        extras, more := PthImportEntries(fs, d);
      }
      ChooseRound(fs, sites, chosen, seen, queue, findings, extras, more);
      seen := seen + {fs.key(d).value};
      chosen := chosen + [d];
      findings := findings + more;
      queue := queue[1..] + extras;
    }
    if Coherent(fs) && findings == [] { ClosureExact(fs, sites, chosen); }
  }

  // The same in terms of files and lines alone

  /** Without findings: the site directories that exist were chosen up to resolution,
      every chosen path exists and resolves, and every .pth file of a chosen directory
      was read whole, its lines well formed and every existing path they name chosen
      up to resolution. */
  lemma ChosenIsClosed(fs: FileSystem, sites: seq<Path>, chosen: seq<Path>)
    requires Covered(fs, sites, chosen, [])
    requires forall c :: c in chosen ==> Sound(fs, c) && Exists(fs, c) && fs.key(c).Some?
    ensures forall s :: s in sites && (fs.kind(s) == Directory || fs.kind(s) == Zip) ==> exists c :: c in chosen && fs.key(c) == fs.key(s)
    ensures forall c :: c in chosen ==> (fs.kind(c) == Directory || fs.kind(c) == Zip) && fs.key(c).Some?
    ensures forall c :: c in chosen && fs.kind(c) == Directory ==>
            && fs.pth(c).Some?
            && forall f, l :: f in fs.pth(c).value && f.PthLines? && l in f.lines ==>
                 && l != BadShape && l != Unjoinable
                 && (l.Names? ==> fs.kind(l.path) != Bad)
                 && (l.Names? && (fs.kind(l.path) == Directory || fs.kind(l.path) == Zip) ==> exists c' :: c' in chosen && fs.key(c') == fs.key(l.path))
    ensures forall c, f :: c in chosen && fs.kind(c) == Directory && f in fs.pth(c).value ==> f.PthLines?
  {
    forall c | c in chosen && fs.kind(c) == Directory
      ensures fs.pth(c).Some?
      ensures forall f, l :: f in fs.pth(c).value && f.PthLines? && l in f.lines ==>
                && l != BadShape && l != Unjoinable && (l.Names? ==> fs.kind(l.path) != Bad)
                && (l.Names? && (fs.kind(l.path) == Directory || fs.kind(l.path) == Zip) ==> exists c' :: c' in chosen && fs.key(c') == fs.key(l.path))
    {
      assert Scannable(fs, c);
      forall f, l | f in fs.pth(c).value && f.PthLines? && l in f.lines
        ensures l != BadShape && l != Unjoinable && (l.Names? ==> fs.kind(l.path) != Bad)
        ensures l.Names? && (fs.kind(l.path) == Directory || fs.kind(l.path) == Zip) ==> exists c' :: c' in chosen && fs.key(c') == fs.key(l.path)
      {
        assert FileSound(fs, f) && LineSound(fs, l);
        if l.Names? && (fs.kind(l.path) == Directory || fs.kind(l.path) == Zip) {
          assert NamedIn(f, l.path);
          assert Edge(fs, c, l.path);
          assert OnHand(fs, chosen, [], fs.key(l.path));
        }
      }
    }
    forall s | s in sites && (fs.kind(s) == Directory || fs.kind(s) == Zip) ensures exists c :: c in chosen && fs.key(c) == fs.key(s) {
      assert OnHand(fs, chosen, [], fs.key(s));
    }
  }

  /** And it is the least such choice: any set of paths that has the site directories
      and every existing path its directories' .pth lines name has all that was chosen. */
  lemma ChosenIsLeast(fs: FileSystem, sites: seq<Path>, chosen: seq<Path>, closed: iset<Path>)
    requires forall c :: c in chosen ==> Reached(fs, sites, c)
    requires forall s :: s in sites ==> s in closed
    requires forall d, f, p ::
               (d in closed && fs.kind(d) == Directory && fs.pth(d).Some? && f in fs.pth(d).value && f.PthLines? && Names(p) in f.lines &&
                (fs.kind(p) == Directory || fs.kind(p) == Zip)) ==> p in closed
    ensures forall c :: c in chosen ==> c in closed
  {
    forall c | c in chosen ensures c in closed {
      var trail :| Trail(fs, sites, trail) && trail[|trail| - 1] == c;
      TrailStays(fs, sites, closed, trail);
    }
  }

  lemma {:induction false} TrailStays(fs: FileSystem, sites: seq<Path>, closed: iset<Path>, trail: seq<Path>)
    requires forall s :: s in sites ==> s in closed
    requires forall d, f, p ::
               (d in closed && fs.kind(d) == Directory && fs.pth(d).Some? && f in fs.pth(d).value && f.PthLines? && Names(p) in f.lines &&
                (fs.kind(p) == Directory || fs.kind(p) == Zip)) ==> p in closed
    requires Trail(fs, sites, trail)
    ensures trail[|trail| - 1] in closed
    decreases |trail|
  {
    if |trail| > 1 {
      var shorter := trail[..|trail| - 1];
      assert Trail(fs, sites, shorter);
      TrailStays(fs, sites, closed, shorter);
      var d, p := shorter[|shorter| - 1], trail[|trail| - 1];
      assert Edge(fs, d, p);
      var f :| f in fs.pth(d).value && NamedIn(f, p);
    }
  }

  /** A refusal short of the ceiling of 4096 paths has a reason in every such set: a path
      that cannot be classified or resolved, a directory whose .pth files cannot be
      listed, or a .pth file that cannot be read or has an unusable line. */
  lemma RefusalHasReason(fs: FileSystem, sites: seq<Path>, chosen: seq<Path>, closed: iset<Path>) returns (d: Path)
    requires Justified(fs, sites, chosen) && |chosen| < 4096
    requires forall s :: s in sites ==> s in closed
    requires forall d, f, p ::
               (d in closed && fs.kind(d) == Directory && fs.pth(d).Some? && f in fs.pth(d).value && f.PthLines? && Names(p) in f.lines &&
                (fs.kind(p) == Directory || fs.kind(p) == Zip)) ==> p in closed
    ensures d in closed
    ensures || fs.kind(d) == Bad
            || ((fs.kind(d) == Directory || fs.kind(d) == Zip) && fs.key(d).None?)
            || (fs.kind(d) == Directory && fs.pth(d).None?)
            || (fs.kind(d) == Directory && exists f :: f in fs.pth(d).value && f.UnreadablePth?)
            || (fs.kind(d) == Directory && exists f, l :: f in fs.pth(d).value && f.PthLines? && l in f.lines && (l.BadShape? || l.Unjoinable?))
            || (fs.kind(d) == Directory && exists f, p ::
                  (f in fs.pth(d).value && f.PthLines? && Names(p) in f.lines && (fs.kind(p) == Bad || (fs.kind(p) != Missing && fs.key(p).None?))))
  {
    d :| Reached(fs, sites, d) && !Sound(fs, d);
    var trail :| Trail(fs, sites, trail) && trail[|trail| - 1] == d;
    TrailStays(fs, sites, closed, trail);
    UnsoundHasReason(fs, d);
  }

  lemma UnsoundHasReason(fs: FileSystem, d: Path)
    requires !Sound(fs, d)
    ensures || fs.kind(d) == Bad
            || ((fs.kind(d) == Directory || fs.kind(d) == Zip) && fs.key(d).None?)
            || (fs.kind(d) == Directory && fs.pth(d).None?)
            || (fs.kind(d) == Directory && exists f :: f in fs.pth(d).value && f.UnreadablePth?)
            || (fs.kind(d) == Directory && exists f, l :: f in fs.pth(d).value && f.PthLines? && l in f.lines && (l.BadShape? || l.Unjoinable?))
            || (fs.kind(d) == Directory && exists f, p ::
                  (f in fs.pth(d).value && f.PthLines? && Names(p) in f.lines && (fs.kind(p) == Bad || (fs.kind(p) != Missing && fs.key(p).None?))))
  {
    if fs.kind(d) == Directory && fs.pth(d).Some? && fs.key(d).Some? {
      var f :| f in fs.pth(d).value && !FileSound(fs, f);
      if f.PthLines? {
        var l :| l in f.lines && !LineSound(fs, l);
        assert l.Names? ==> Names(l.path) in f.lines;
      }
    }
  }

  lemma ClosureExact(fs: FileSystem, sites: seq<Path>, chosen: seq<Path>)
    requires Coherent(fs) && Covered(fs, sites, chosen, [])
    requires forall c :: c in chosen ==> Sound(fs, c) && Reached(fs, sites, c) && Exists(fs, c)
    ensures forall k :: HasKey(fs, chosen, Some(k)) <==> KeyReached(fs, sites, k)
  {
    forall k | KeyReached(fs, sites, k) ensures HasKey(fs, chosen, Some(k)) {
      var p :| Reached(fs, sites, p) && Exists(fs, p) && fs.key(p) == Some(k);
      var trail :| Trail(fs, sites, trail) && trail[|trail| - 1] == p;
      ClosureComplete(fs, sites, chosen, trail);
    }
  }

  lemma KeysAfterChoice(fs: FileSystem, chosen: seq<Path>, d: Path)
    ensures forall k :: HasKey(fs, chosen + [d], k) <==> HasKey(fs, chosen, k) || k == fs.key(d)
  {
    forall k ensures HasKey(fs, chosen + [d], k) <==> HasKey(fs, chosen, k) || k == fs.key(d) {
      assert d in chosen + [d];
      if HasKey(fs, chosen, k) {
        var a :| a in chosen && fs.key(a) == k;
        assert a in chosen + [d];
      }
    }
  }
}
