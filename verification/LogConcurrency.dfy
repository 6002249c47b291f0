/** Any number of processes appending to and reading one log under the exclusive
    and shared append lock, interleaved at every step. A process may die anywhere;
    its lock is then released. */
module LogConcurrency {
  import opened EventLog

  type Process = nat

  /** What an appender was asked to write. */
  datatype Request = Request(kind: Kind, body: Body, stamp: string)

  /** Where a process stands. An appender holds the exclusive lock from `Acquired`
      on; `Read` keeps the snapshot it took and has not yet written. A reader also
      remembers how many appends had completed when it began; no code reads that. */
  datatype Phase =
    | Idle
    | Acquired(request: Request)
    | Read(snapshot: seq<Record>, request: Request)
    | Written(record: Record, request: Request)
    | Sharing(since: nat)
    | Snapped(seen: seq<Record>, since: nat)

  datatype Append = Append(request: Request, record: Record)
  datatype Snapshot = Snapshot(seen: seq<Record>, since: nat)

  /** `appended` and `snapshots` only record what completed; no process reads them. */
  datatype World = World(
    file: seq<Record>,
    phases: map<Process, Phase>,
    appended: seq<Append>,
    snapshots: seq<Snapshot>)

  datatype Move =
    | StartAppend(p: Process, request: Request)
    | ReadTail(p: Process)
    | WriteLine(p: Process)
    | FinishAppend(p: Process)
    | StartRead(p: Process)
    | TakeSnapshot(p: Process)
    | FinishRead(p: Process)
    | Die(p: Process)

  function PhaseOf(w: World, p: Process): Phase
  {
    if p in w.phases then w.phases[p] else Idle
  }

  predicate Exclusive(ph: Phase) { ph.Acquired? || ph.Read? || ph.Written? }
  predicate Shared(ph: Phase) { ph.Sharing? || ph.Snapped? }

  /** flock grants the exclusive lock when nobody holds it, the shared one when
      nobody holds it exclusively. */
  ghost predicate MayLock(w: World, exclusive: bool)
  {
    forall p :: p in w.phases ==> !Exclusive(w.phases[p]) && (exclusive ==> !Shared(w.phases[p]))
  }

  function At(w: World, p: Process, ph: Phase): World
  {
    w.(phases := w.phases[p := ph])
  }

  /** One atomic move; a move that is not possible leaves the world as it is. */
  ghost function Next(hash: Hasher, w: World, m: Move): World
  {
    var ph := PhaseOf(w, m.p);
    match m
    case StartAppend(p, q) => if ph.Idle? && MayLock(w, true) then At(w, p, Acquired(q)) else w
    case ReadTail(p) => if ph.Acquired? then At(w, p, Read(w.file, ph.request)) else w
    case WriteLine(p) =>
      if ph.Read? then
        var r := NextRecord(hash, ph.snapshot, ph.request.stamp, ph.request.kind, ph.request.body);
        At(w, p, Written(r, ph.request)).(file := w.file + [r])
      else w
    case FinishAppend(p) => if ph.Written? then At(w, p, Idle).(appended := w.appended + [Append(ph.request, ph.record)]) else w
    case StartRead(p) => if ph.Idle? && MayLock(w, false) then At(w, p, Sharing(|w.appended|)) else w
    case TakeSnapshot(p) => if ph.Sharing? then At(w, p, Snapped(w.file, ph.since)) else w
    case FinishRead(p) => if ph.Snapped? then At(w, p, Idle).(snapshots := w.snapshots + [Snapshot(ph.seen, ph.since)]) else w
    case Die(p) => At(w, p, Idle)
  }

  ghost function Play(hash: Hasher, w: World, moves: seq<Move>): World
    decreases |moves|
  {
    if moves == [] then w else Play(hash, Next(hash, w, moves[0]), moves[1..])
  }

  const EMPTY := World([], map[], [], [])

  /** Mutual exclusion, an up-to-date snapshot behind every pending write, and a
      written line that is the last one. */
  ghost predicate LockInv(w: World)
  {
    MutualExclusion(w) && PendingInv(w)
  }

  ghost predicate MutualExclusion(w: World)
  {
    forall p, q :: p in w.phases && q in w.phases && p != q && Exclusive(w.phases[p]) ==>
      !Exclusive(w.phases[q]) && !Shared(w.phases[q])
  }

  ghost predicate PendingInv(w: World)
  {
    && (forall p :: p in w.phases && w.phases[p].Read? ==> w.phases[p].snapshot == w.file)
    && (forall p :: p in w.phases && w.phases[p].Written? ==> w.file != [] && w.phases[p].record == w.file[|w.file| - 1])
  }

  /** The record carries what was asked. */
  predicate Carries(r: Record, q: Request)
  {
    r.kind == q.kind && r.body == q.body && r.stamp == q.stamp
  }

  ghost predicate AppendedInv(w: World)
  {
    && (forall k :: 0 <= k < |w.appended| ==> w.appended[k].record in w.file && Carries(w.appended[k].record, w.appended[k].request))
    && (forall j, k :: 0 <= j < k < |w.appended| ==> w.appended[j].record.seqNo < w.appended[k].record.seqNo)
    && (forall p :: p in w.phases && w.phases[p].Written? ==> Carries(w.phases[p].record, w.phases[p].request))
    && (forall p, k :: p in w.phases && w.phases[p].Written? && 0 <= k < |w.appended| ==>
          w.appended[k].record.seqNo < w.phases[p].record.seqNo)
  }

  /** The first `since` completed appends are all in what was seen. */
  ghost predicate Holds(w: World, seen: seq<Record>, since: nat)
  {
    since <= |w.appended| && forall k :: 0 <= k < since ==> w.appended[k].record in seen
  }

  ghost predicate SnapshotInv(w: World)
  {
    CompletedReads(w) && PendingReads(w)
  }

  ghost predicate CompletedReads(w: World)
  {
    forall k :: 0 <= k < |w.snapshots| ==> w.snapshots[k].seen <= w.file && Holds(w, w.snapshots[k].seen, w.snapshots[k].since)
  }

  ghost predicate PendingReads(w: World)
  {
    && (forall p :: p in w.phases && w.phases[p].Snapped? ==> w.phases[p].seen <= w.file && Holds(w, w.phases[p].seen, w.phases[p].since))
    && (forall p :: p in w.phases && w.phases[p].Sharing? ==> w.phases[p].since <= |w.appended|)
  }

  ghost predicate WorldInv(hash: Hasher, w: World)
  {
    Chained(hash, w.file) && LockInv(w) && AppendedInv(w) && SnapshotInv(w)
  }

  lemma NextKeepsExclusion(hash: Hasher, w: World, m: Move)
    requires MutualExclusion(w)
    ensures MutualExclusion(Next(hash, w, m))
  {
  }

  lemma NextKeepsPending(hash: Hasher, w: World, m: Move)
    requires LockInv(w)
    ensures PendingInv(Next(hash, w, m))
  {
  }

  lemma NextKeepsLock(hash: Hasher, w: World, m: Move)
    requires WorldInv(hash, w)
    ensures LockInv(Next(hash, w, m))
  {
    NextKeepsExclusion(hash, w, m);
    NextKeepsPending(hash, w, m);
  }

  lemma NextKeepsFile(hash: Hasher, w: World, m: Move)
    requires WorldInv(hash, w)
    ensures w.file <= Next(hash, w, m).file
    ensures Chained(hash, Next(hash, w, m).file)
  {
    var ph := PhaseOf(w, m.p);
    if m.WriteLine? && ph.Read? {
      AppendKeepsChain(hash, w.file, ph.request.stamp, ph.request.kind, ph.request.body);
    }
  }

  /** The number an append writes is above every number already in the log. */
  lemma NextNumberIsNew(hash: Hasher, log: seq<Record>, stamp: string, kind: Kind, body: Body, r: Record)
    requires Chained(hash, log) && r in log
    ensures r.seqNo < NextRecord(hash, log, stamp, kind, body).seqNo
  {
    var i :| 0 <= i < |log| && log[i] == r;
    assert log[i].seqNo == i + 1 && log[|log| - 1].seqNo == |log|;
  }

  lemma NextKeepsAppended(hash: Hasher, w: World, m: Move)
    requires WorldInv(hash, w)
    ensures AppendedInv(Next(hash, w, m))
  {
    var ph := PhaseOf(w, m.p);
    if m.WriteLine? && ph.Read? {
      WriteKeepsAppended(hash, w, m.p);
    } else if m.FinishAppend? && ph.Written? {
      assert ph.record in w.file;
    }
  }

  lemma WriteKeepsAppended(hash: Hasher, w: World, p: Process)
    requires WorldInv(hash, w) && PhaseOf(w, p).Read?
    ensures AppendedInv(Next(hash, w, WriteLine(p)))
  {
    var q := PhaseOf(w, p).request;
    var w', r := Next(hash, w, WriteLine(p)), NextRecord(hash, w.file, q.stamp, q.kind, q.body);
    assert w'.file == w.file + [r] && w'.appended == w.appended;
    forall k | 0 <= k < |w.appended| ensures w.appended[k].record.seqNo < r.seqNo {
      NextNumberIsNew(hash, w.file, q.stamp, q.kind, q.body, w.appended[k].record);
    }
    assert forall q :: q in w'.phases && w'.phases[q].Written? ==> q == p;
  }

  lemma HoldsGrows(hash: Hasher, w: World, m: Move)
    ensures w.appended <= Next(hash, w, m).appended
    ensures forall seen, since :: Holds(w, seen, since) ==> Holds(Next(hash, w, m), seen, since)
  {
  }

  lemma NextKeepsCompletedReads(hash: Hasher, w: World, m: Move)
    requires WorldInv(hash, w)
    ensures CompletedReads(Next(hash, w, m))
  {
    NextKeepsFile(hash, w, m);
    HoldsGrows(hash, w, m);
  }

  lemma NextKeepsPendingReads(hash: Hasher, w: World, m: Move)
    requires WorldInv(hash, w)
    ensures PendingReads(Next(hash, w, m))
  {
    NextKeepsFile(hash, w, m);
    HoldsGrows(hash, w, m);
    if m.TakeSnapshot? && PhaseOf(w, m.p).Sharing? {
      assert Holds(Next(hash, w, m), w.file, PhaseOf(w, m.p).since);
    }
  }

  lemma NextKeepsSnapshots(hash: Hasher, w: World, m: Move)
    requires WorldInv(hash, w)
    ensures SnapshotInv(Next(hash, w, m))
  {
    NextKeepsCompletedReads(hash, w, m);
    NextKeepsPendingReads(hash, w, m);
  }

  lemma {:induction false} PlayKeepsInv(hash: Hasher, w: World, moves: seq<Move>)
    requires WorldInv(hash, w)
    ensures WorldInv(hash, Play(hash, w, moves))
    ensures w.file <= Play(hash, w, moves).file
    decreases |moves|
  {
    if moves != [] {
      NextKeepsLock(hash, w, moves[0]);
      NextKeepsFile(hash, w, moves[0]);
      NextKeepsAppended(hash, w, moves[0]);
      NextKeepsSnapshots(hash, w, moves[0]);
      PlayKeepsInv(hash, Next(hash, w, moves[0]), moves[1..]);
    }
  }

  ghost predicate OnceIn(file: seq<Record>, r: Record)
  {
    exists i :: 0 <= i < |file| && file[i] == r && r !in file[..i] && r !in file[i + 1..]
  }

  lemma OnceBySequence(hash: Hasher, file: seq<Record>, r: Record)
    requires Chained(hash, file) && r in file
    ensures OnceIn(file, r)
  {
    var i :| 0 <= i < |file| && file[i] == r;
    assert forall j :: 0 <= j < |file| ==> file[j].seqNo == j + 1;
    assert r !in file[..i] && r !in file[i + 1..];
  }

  /** Under every interleaving the log verifies, each completed append is in it
      exactly once, as it was asked for and in completion order, and every completed
      read saw a prefix that holds every append completed before the read began. */
  lemma EveryInterleavingIsSafe(hash: Hasher, moves: seq<Move>)
    ensures var w := Play(hash, EMPTY, moves);
            && Chained(hash, w.file)
            && (forall k :: 0 <= k < |w.appended| ==>
                  var r, q := w.appended[k].record, w.appended[k].request;
                  OnceIn(w.file, r) && r.kind == q.kind && r.body == q.body && r.stamp == q.stamp)
            && (forall j, k :: 0 <= j < k < |w.appended| ==> w.appended[j].record.seqNo < w.appended[k].record.seqNo)
            && (forall k :: 0 <= k < |w.snapshots| ==> w.snapshots[k].seen <= w.file)
            && (forall j, k :: 0 <= k < |w.snapshots| && 0 <= j < w.snapshots[k].since ==>
                  j < |w.appended| && w.appended[j].record in w.snapshots[k].seen)
  {
    assert forall p :: p !in EMPTY.phases;
    PlayKeepsInv(hash, EMPTY, moves);
    var w := Play(hash, EMPTY, moves);
    forall k | 0 <= k < |w.appended| ensures OnceIn(w.file, w.appended[k].record) {
      OnceBySequence(hash, w.file, w.appended[k].record);
    }
    forall j, k | 0 <= k < |w.snapshots| && 0 <= j < w.snapshots[k].since
      ensures j < |w.appended| && w.appended[j].record in w.snapshots[k].seen
    {
      assert Holds(w, w.snapshots[k].seen, w.snapshots[k].since);
    }
  }

  // Progress

  lemma PlayFour(hash: Hasher, w: World, a: Move, b: Move, c: Move, d: Move)
    ensures Play(hash, w, [a, b, c, d]) == Next(hash, Next(hash, Next(hash, Next(hash, w, a), b), c), d)
  {
    assert [a, b, c, d][1..] == [b, c, d] && [b, c, d][1..] == [c, d] && [c, d][1..] == [d];
    var w1 := Next(hash, w, a);
    var w2 := Next(hash, w1, b);
    assert Play(hash, w, [a, b, c, d]) == Play(hash, w1, [b, c, d]);
    assert Play(hash, w1, [b, c, d]) == Play(hash, w2, [c, d]);
    assert Play(hash, w2, [c, d]) == Play(hash, Next(hash, w2, c), [d]);
    assert Play(hash, Next(hash, w2, c), [d]) == Play(hash, Next(hash, Next(hash, w2, c), d), []);
  }

  /** When nobody holds the lock, a process that is let run completes its append: the
      log grows by the one record asked for. */
  lemma AppendCompletes(hash: Hasher, w: World, p: Process, q: Request)
    requires Chained(hash, w.file) && PhaseOf(w, p).Idle?
    requires forall o :: o in w.phases ==> w.phases[o].Idle?
    ensures var t := Play(hash, w, [StartAppend(p, q), ReadTail(p), WriteLine(p), FinishAppend(p)]);
            var prev := if w.file == [] then Zeros else w.file[|w.file| - 1].eventHash;
            var r := Record(|w.file| + 1, prev, hash(Material(prev, |w.file| + 1, q.stamp, q.kind, q.body)), q.stamp, q.kind, q.body);
            t.file == w.file + [r] && t.appended == w.appended + [Append(q, r)] && PhaseOf(t, p).Idle?
  {
    PlayFour(hash, w, StartAppend(p, q), ReadTail(p), WriteLine(p), FinishAppend(p));
    NextRecordIs(hash, w.file, q.stamp, q.kind, q.body);
  }

  /** A reader that is let run beside any number of other readers sees the log. */
  lemma ReadCompletes(hash: Hasher, w: World, p: Process)
    requires PhaseOf(w, p).Idle?
    requires forall o :: o in w.phases ==> w.phases[o].Idle? || w.phases[o].Sharing? || w.phases[o].Snapped?
    ensures var t := Next(hash, Next(hash, Next(hash, w, StartRead(p)), TakeSnapshot(p)), FinishRead(p));
            t.file == w.file && t.snapshots == w.snapshots + [Snapshot(w.file, |w.appended|)] && PhaseOf(t, p).Idle?
  {
  }

  /** A completed read is a prefix of the log at every later moment, not only when
      it completed. */
  lemma SnapshotsStayPrefixes(hash: Hasher, before: seq<Move>, after: seq<Move>, k: nat)
    requires k < |Play(hash, EMPTY, before).snapshots|
    ensures Play(hash, EMPTY, before).snapshots[k].seen <= Play(hash, Play(hash, EMPTY, before), after).file
  {
    assert forall p :: p !in EMPTY.phases;
    PlayKeepsInv(hash, EMPTY, before);
    PlayKeepsInv(hash, Play(hash, EMPTY, before), after);
  }
}
