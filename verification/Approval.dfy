/** The approval protocol: write the document, append its event, record the phase;
    and the check that a launch later makes of whatever document it finds. */
module Approval {
  import opened Wrappers
  import opened EventLog

  datatype Phase = NoPhase | Approved | Preflighted | RunningPhase | Completed | Failed | Postflighted | Abandoned | OtherPhase

  predicate Terminal(p: Phase)
  {
    p.RunningPhase? || p.Completed? || p.Failed? || p.Postflighted? || p.Abandoned?
  }

  /** An approval document. A missing or non-finite expiry is `None`; every field
      the check does not read is in `rest`. */
  datatype Document = Document(contractHash: Hash, sourceHash: Hash, runId: string, expiry: Option<real>, channel: string, rest: string)

  predicate AllowedChannel(c: string)
  {
    c == "local_tty_approve" || c == "remote_human_confirm"
  }

  /** The two hashes in play, over log records and over documents. */
  datatype Hashes = Hashes(record: Hasher, document: Document -> Hash)

  function LatestApproval(log: seq<Record>): (latest: Option<Record>)
    ensures latest.Some? ==> latest.value in log && latest.value.kind.Approval?
  {
    if log == [] then None
    else if log[|log| - 1].kind.Approval? then Some(log[|log| - 1])
    else LatestApproval(log[..|log| - 1])
  }

  /** Walks a log backwards to the first approval event. */
  method ScanBack(log: seq<Record>) returns (latest: Option<Record>)
    ensures latest == LatestApproval(log)
  {
    var i := |log|;
    assert log[..i] == log;
    while 0 < i
      invariant 0 <= i <= |log|
      invariant LatestApproval(log) == LatestApproval(log[..i])
    {
      ghost var head := log[..i];
      i := i - 1;
      assert head[..i] == log[..i] && head[|head| - 1] == log[i];
      if log[i].kind.Approval? {
        return Some(log[i]);
      }
    }
    return None;
  }

  /** The latest approval event of a log that verifies. */
  method LatestApprovalEvent(hash: Hasher, log: seq<Record>) returns (latest: Option<Record>)
    ensures latest == if Chained(hash, log) then LatestApproval(log) else None
  {
    var ok := VerifyChain(hash, log);
    if !ok {
      return None;
    }
    latest := ScanBack(log);
  }

  /** The document is the one the latest chained approval event names. */
  ghost predicate MatchesLatest(h: Hashes, d: Document, log: seq<Record>)
  {
    && AllowedChannel(d.channel)
    && Chained(h.record, log)
    && LatestApproval(log).Some?
    && var e := LatestApproval(log).value.body;
    && e.documentHash.Some? && e.documentHash.value != Blank
    && e.documentHash.value == h.document(d)
    && e.channel == d.channel
  }

  /** The launch check. With a run directory the document must match its log and the
      expiry that counts is the event's; without one it is the document's own. */
  ghost predicate ApprovalValid(h: Hashes, d: Document, dir: Option<seq<Record>>, contractHash: Hash, sourceHash: Hash, runId: string, now: real)
  {
    && d.contractHash == contractHash && d.sourceHash == sourceHash && d.runId == runId
    && d.expiry.Some?
    && (dir.None? ==> now < d.expiry.value)
    && (dir.Some? ==>
          && MatchesLatest(h, d, dir.value)
          && LatestApproval(dir.value).value.body.expiry.Some?
          && now < LatestApproval(dir.value).value.body.expiry.value)
  }

  method CheckApproval(h: Hashes, d: Document, dir: Option<seq<Record>>, contractHash: Hash, sourceHash: Hash, runId: string, now: real)
    returns (ok: bool)
    ensures ok == ApprovalValid(h, d, dir, contractHash, sourceHash, runId, now)
  {
    if d.contractHash != contractHash || d.sourceHash != sourceHash || d.runId != runId || d.expiry.None? {
      return false;
    }
    var expires := d.expiry;
    if dir.Some? {
      if !AllowedChannel(d.channel) {
        return false;
      }
      var latest := LatestApprovalEvent(h.record, dir.value);
      if latest.None? || latest.value.body.documentHash.None? || latest.value.body.documentHash.value == Blank {
        return false;
      }
      if latest.value.body.documentHash.value != h.document(d) || latest.value.body.channel != d.channel {
        return false;
      }
      expires := latest.value.body.expiry;
    }
    return expires.Some? && now < expires.value;
  }

  /** The run directory, with the documents whose events were appended kept beside
      it; no code reads `approved`. */
  datatype RunDir = RunDir(file: Option<Document>, log: seq<Record>, phase: Phase, approved: seq<Document>)
  const FRESH := RunDir(None, [], NoPhase, [])

  datatype Write = PutFile(doc: Document) | AppendEvent(doc: Document, stamp: string) | PutPhase(phase: Phase)

  function ApprovalBody(h: Hashes, d: Document): Body
  {
    Body(Some(h.document(d)), d.expiry, d.channel, None, None, "")
  }

  function ApplyWrite(h: Hashes, s: RunDir, w: Write): RunDir
  {
    match w
    case PutFile(d) => s.(file := Some(d))
    case AppendEvent(d, t) =>
      s.(log := s.log + [NextRecord(h.record, s.log, t, Approval, ApprovalBody(h, d))], approved := s.approved + [d])
    case PutPhase(p) => s.(phase := p)
  }

  function ApplyWrites(h: Hashes, s: RunDir, ws: seq<Write>): RunDir
    decreases |ws|
  {
    if ws == [] then s else ApplyWrites(h, ApplyWrite(h, s, ws[0]), ws[1..])
  }

  lemma {:induction false} ApplyWritesAppend(h: Hashes, s: RunDir, ws: seq<Write>, w: Write)
    ensures ApplyWrites(h, s, ws + [w]) == ApplyWrite(h, ApplyWrites(h, s, ws), w)
    decreases |ws|
  {
    if ws == [] {
      assert ApplyWrites(h, s, [w]) == ApplyWrites(h, ApplyWrite(h, s, w), []);
    } else {
      assert (ws + [w])[1..] == ws[1..] + [w];
      ApplyWritesAppend(h, ApplyWrite(h, s, ws[0]), ws[1..], w);
    }
  }

  /** `admitted` is false when a check outside this model refuses. The document was
      built with a finite expiry. */
  predicate MayApprove(s: RunDir, d: Document, ttlRefresh: bool, admitted: bool)
  {
    && AllowedChannel(d.channel)
    && !Terminal(s.phase)
    && ((s.phase.Approved? || s.phase.Preflighted?) ==> ttlRefresh)
    && d.expiry.Some?
    && admitted
  }

  function ApprovalWrites(s: RunDir, d: Document, stamp: string, ttlRefresh: bool, admitted: bool): seq<Write>
  {
    if MayApprove(s, d, ttlRefresh, admitted) then [PutFile(d), AppendEvent(d, stamp), PutPhase(Approved)] else []
  }

  function Cut<T>(ws: seq<T>, n: nat): seq<T>
  {
    if n < |ws| then ws[..n] else ws
  }

  /** What can happen to a run directory: an approval cut after any of its writes,
      an event of another kind, a phase change elsewhere, or anything at all put in
      the approval file by someone else. */
  datatype Step =
    | Approve(doc: Document, stamp: string, ttlRefresh: bool, admitted: bool, survives: nat)
    | OtherEvent(kind: Kind, body: Body, stamp: string)
    | ChangePhase(phase: Phase)
    | Plant(file: Option<Document>)

  function Perform(h: Hashes, s: RunDir, step: Step): RunDir
  {
    match step
    case Approve(d, t, refresh, admitted, n) => ApplyWrites(h, s, Cut(ApprovalWrites(s, d, t, refresh, admitted), n))
    case OtherEvent(k, b, t) => if k.Approval? then s else s.(log := s.log + [NextRecord(h.record, s.log, t, k, b)])
    case ChangePhase(p) => s.(phase := p)
    case Plant(f) => s.(file := f)
  }

  function Run(h: Hashes, s: RunDir, steps: seq<Step>): RunDir
    decreases |steps|
  {
    if steps == [] then s else Run(h, Perform(h, s, steps[0]), steps[1..])
  }

  /** The log verifies, and its latest approval event speaks of the document
      approved last. */
  ghost predicate DirInv(h: Hashes, s: RunDir)
  {
    && Chained(h.record, s.log)
    && (LatestApproval(s.log).Some? <==> s.approved != [])
    && (s.approved != [] ==> LatestApproval(s.log).value.body == ApprovalBody(h, s.approved[|s.approved| - 1]))
    && (forall d :: d in s.approved ==> AllowedChannel(d.channel) && d.expiry.Some?)
  }

  lemma WriteKeepsInv(h: Hashes, s: RunDir, w: Write)
    requires DirInv(h, s)
    requires w.AppendEvent? ==> AllowedChannel(w.doc.channel) && w.doc.expiry.Some?
    ensures DirInv(h, ApplyWrite(h, s, w))
  {
    if w.AppendEvent? {
      AppendKeepsChain(h.record, s.log, w.stamp, Approval, ApprovalBody(h, w.doc));
    }
  }

  lemma {:induction false} WritesKeepInv(h: Hashes, s: RunDir, ws: seq<Write>)
    requires DirInv(h, s)
    requires forall w :: w in ws && w.AppendEvent? ==> AllowedChannel(w.doc.channel) && w.doc.expiry.Some?
    ensures DirInv(h, ApplyWrites(h, s, ws))
    decreases |ws|
  {
    if ws != [] {
      WriteKeepsInv(h, s, ws[0]);
      WritesKeepInv(h, ApplyWrite(h, s, ws[0]), ws[1..]);
    }
  }

  lemma StepKeepsInv(h: Hashes, s: RunDir, step: Step)
    requires DirInv(h, s)
    ensures DirInv(h, Perform(h, s, step))
  {
    match step {
      case Approve(d, t, refresh, admitted, n) =>
        WritesKeepInv(h, s, Cut(ApprovalWrites(s, d, t, refresh, admitted), n));
      case OtherEvent(k, b, t) =>
        if !k.Approval? {
          AppendKeepsChain(h.record, s.log, t, k, b);
          var longer := s.log + [NextRecord(h.record, s.log, t, k, b)];
          assert longer[..|s.log|] == s.log;
        }
      case _ =>
    }
  }

  lemma {:induction false} RunKeepsInv(h: Hashes, s: RunDir, steps: seq<Step>)
    requires DirInv(h, s)
    ensures DirInv(h, Run(h, s, steps))
    decreases |steps|
  {
    if steps != [] {
      StepKeepsInv(h, s, steps[0]);
      RunKeepsInv(h, Perform(h, s, steps[0]), steps[1..]);
    }
  }

  /** After any run, whatever document is presented: it validates exactly when it
      hashes like the document approved last, that document's own expiry is in the
      future, and it names this contract, source and run. */
  lemma ValidExactlyForLatest(h: Hashes, steps: seq<Step>, d: Document, contractHash: Hash, sourceHash: Hash, runId: string, now: real)
    ensures var s := Run(h, FRESH, steps);
            ApprovalValid(h, d, Some(s.log), contractHash, sourceHash, runId, now) <==>
              && s.approved != []
              && var last := s.approved[|s.approved| - 1];
              && h.document(d) == h.document(last) && h.document(d) != Blank
              && d.channel == last.channel && d.expiry.Some? && last.expiry.Some?
              && now < last.expiry.value
              && d.contractHash == contractHash && d.sourceHash == sourceHash && d.runId == runId
  {
    RunKeepsInv(h, FRESH, steps);
    var s := Run(h, FRESH, steps);
    if s.approved != [] {
      assert s.approved[|s.approved| - 1] in s.approved;
    }
  }

  /** So a planted, edited or superseded document that validates is one half of a
      collision, and the run tells the other half. */
  lemma OtherDocumentNeedsCollision(h: Hashes, steps: seq<Step>, d: Document, contractHash: Hash, sourceHash: Hash, runId: string, now: real)
    returns (other: Document)
    requires var s := Run(h, FRESH, steps);
             && ApprovalValid(h, d, Some(s.log), contractHash, sourceHash, runId, now)
             && (s.approved != [] ==> d != s.approved[|s.approved| - 1])
    ensures other in Run(h, FRESH, steps).approved && other != d && h.document(other) == h.document(d)
  {
    ValidExactlyForLatest(h, steps, d, contractHash, sourceHash, runId, now);
    var s := Run(h, FRESH, steps);
    other := s.approved[|s.approved| - 1];
  }

  /** An approval cut after its first write leaves a document that validates only if
      it hashes like the one approved before; cut after its second, it validates
      like a finished one. */
  lemma CutApproval(h: Hashes, s: RunDir, d: Document, stamp: string, ttlRefresh: bool)
    requires MayApprove(s, d, ttlRefresh, true)
    ensures var once := Perform(h, s, Approve(d, stamp, ttlRefresh, true, 1));
            once.file == Some(d) && once.log == s.log && once.approved == s.approved && once.phase == s.phase
    ensures var twice := Perform(h, s, Approve(d, stamp, ttlRefresh, true, 2));
            twice.file == Some(d) && twice.approved == s.approved + [d] && twice.phase == s.phase
    ensures forall n :: 3 <= n ==>
            var whole := Perform(h, s, Approve(d, stamp, ttlRefresh, true, n));
            whole == Perform(h, s, Approve(d, stamp, ttlRefresh, true, 2)).(phase := Approved)
  {
    var put, event, phase := PutFile(d), AppendEvent(d, stamp), PutPhase(Approved);
    var ws := ApprovalWrites(s, d, stamp, ttlRefresh, true);
    assert ws[..1] == [put];
    assert ws[..2] == [put] + [event];
    assert ws == [put] + [event] + [phase];
    assert ApplyWrites(h, s, [put]) == ApplyWrites(h, ApplyWrite(h, s, put), []);
    ApplyWritesAppend(h, s, [put], event);
    ApplyWritesAppend(h, s, [put] + [event], phase);
  }

  /** One approval, spelled out: what it asks for, and what each cut of it leaves. A run
      that is running or over takes none; an approved or preflighted one only a refresh
      of its time to live. */
  lemma ApprovalLaw(h: Hashes, s: RunDir, d: Document, stamp: string, ttlRefresh: bool, admitted: bool, n: nat)
    ensures var can := && (d.channel == "local_tty_approve" || d.channel == "remote_human_confirm")
                       && s.phase != RunningPhase && s.phase != Completed && s.phase != Failed && s.phase != Postflighted && s.phase != Abandoned
                       && ((s.phase == Approved || s.phase == Preflighted) ==> ttlRefresh)
                       && d.expiry.Some? && admitted;
            var put := s.(file := Some(d));
            var noted := put.(log := s.log + [NextRecord(h.record, s.log, stamp, Approval, Body(Some(h.document(d)), d.expiry, d.channel, None, None, ""))],
                              approved := s.approved + [d]);
            Perform(h, s, Approve(d, stamp, ttlRefresh, admitted, n)) ==
            if !can || n == 0 then s else if n == 1 then put else if n == 2 then noted else noted.(phase := Approved)
  {
    var put, event, phase := PutFile(d), AppendEvent(d, stamp), PutPhase(Approved);
    var ws := ApprovalWrites(s, d, stamp, ttlRefresh, admitted);
    if ws != [] {
      assert ws[..1] == [put] && ws[..2] == [put] + [event] && ws == [put] + [event] + [phase];
      assert ws[..0] == [];
      assert ApplyWrites(h, s, [put]) == ApplyWrites(h, ApplyWrite(h, s, put), []);
      ApplyWritesAppend(h, s, [put], event);
      ApplyWritesAppend(h, s, [put] + [event], phase);
    }
  }

  /** A completed approval is in force at once: its document validates until its expiry,
      unless it hashes to nothing. */
  lemma CompletedApprovalIsValid(h: Hashes, steps: seq<Step>, d: Document, stamp: string, now: real)
    requires d.channel == "local_tty_approve" || d.channel == "remote_human_confirm"
    requires d.expiry.Some? && h.document(d) != Blank && now < d.expiry.value
    requires Run(h, FRESH, steps).phase == NoPhase || Run(h, FRESH, steps).phase == OtherPhase
    ensures var t := Perform(h, Run(h, FRESH, steps), Approve(d, stamp, false, true, 3));
            && t.file == Some(d) && t.phase == Approved
            && ApprovalValid(h, d, Some(t.log), d.contractHash, d.sourceHash, d.runId, now)
            && ApprovalValid(h, d, None, d.contractHash, d.sourceHash, d.runId, now)
  {
    var s, step := Run(h, FRESH, steps), Approve(d, stamp, false, true, 3);
    ApprovalLaw(h, s, d, stamp, false, true, 3);
    RunSnoc(h, FRESH, steps, step);
    ValidExactlyForLatest(h, steps + [step], d, d.contractHash, d.sourceHash, d.runId, now);
  }

  lemma {:induction false} RunSnoc(h: Hashes, s: RunDir, steps: seq<Step>, step: Step)
    ensures Run(h, s, steps + [step]) == Perform(h, Run(h, s, steps), step)
    decreases |steps|
  {
    if steps == [] {
      assert Run(h, s, [step]) == Run(h, Perform(h, s, step), []);
    } else {
      assert (steps + [step])[1..] == steps[1..] + [step];
      RunSnoc(h, Perform(h, s, steps[0]), steps[1..], step);
    }
  }

  /** Without a run directory a document validates on its own: until its own expiry, for
      its own contract, source and run. */
  lemma ValidWithoutDirectory(h: Hashes, d: Document, contractHash: Hash, sourceHash: Hash, runId: string, now: real)
    ensures ApprovalValid(h, d, None, contractHash, sourceHash, runId, now) <==>
            d.expiry.Some? && now < d.expiry.value && contractHash == d.contractHash && sourceHash == d.sourceHash && runId == d.runId
  {
  }

  /** A run that is running or over takes no approval again: until something else moves
      its phase elsewhere, no run of steps appends an approval event. */
  lemma {:induction false} NoApprovalOnceTerminal(h: Hashes, s: RunDir, steps: seq<Step>)
    requires s.phase in {RunningPhase, Completed, Failed, Postflighted, Abandoned}
    requires forall step :: step in steps && step.ChangePhase? ==> step.phase in {RunningPhase, Completed, Failed, Postflighted, Abandoned}
    ensures Run(h, s, steps).approved == s.approved && Run(h, s, steps).phase in {RunningPhase, Completed, Failed, Postflighted, Abandoned}
    decreases |steps|
  {
    if steps != [] {
      assert steps[0] in steps;
      NoApprovalOnceTerminal(h, Perform(h, s, steps[0]), steps[1..]);
    }
  }

  /** The run directory as the code changes it, one write at a time; `fuse` is the
      number of writes the process still gets to make. */
  class RunDirectory {
    const hashes: Hashes
    var file: Option<Document>
    var log: seq<Record>
    var phase: Phase
    var fuse: nat
    ghost var approved: seq<Document>

    ghost function View(): RunDir
      reads this
    {
      RunDir(file, log, phase, approved)
    }

    constructor (hashes: Hashes)
      ensures View() == FRESH && this.hashes == hashes
    {
      this.hashes := hashes;
      file, log, phase, fuse := None, [], NoPhase, 0;
      approved := [];
    }

    method PutNext(w: Write) returns (alive: bool)
      modifies this
      ensures alive == (0 < old(fuse))
      ensures View() == if alive then ApplyWrite(hashes, old(View()), w) else old(View())
      ensures fuse == if alive then old(fuse) - 1 else 0
    {
      if fuse == 0 {
        return false;
      }
      fuse := fuse - 1;
      match w {
        case PutFile(d) => file := Some(d);
        case AppendEvent(d, t) =>
          log := log + [NextRecord(hashes.record, log, t, Approval, ApprovalBody(hashes, d))];
          approved := approved + [d];
        case PutPhase(p) => phase := p;
      }
      return true;
    }

    method CompleteApproval(d: Document, stamp: string, ttlRefresh: bool, admitted: bool) returns (ok: bool)
      modifies this
      ensures View() == Perform(hashes, old(View()), Approve(d, stamp, ttlRefresh, admitted, old(fuse)))
      ensures ok == (MayApprove(old(View()), d, ttlRefresh, admitted) && 3 <= old(fuse))
    {
      ghost var s, n := View(), fuse;
      if !AllowedChannel(d.channel) || Terminal(phase) { return false; }
      if (phase.Approved? || phase.Preflighted?) && !ttlRefresh { return false; }
      if d.expiry.None? || !admitted { return false; }
      CutApproval(hashes, s, d, stamp, ttlRefresh);
      var put, event := PutFile(d), AppendEvent(d, stamp);
      assert n == 0 ==> Cut(ApprovalWrites(s, d, stamp, ttlRefresh, admitted), n) == [];
      assert ApplyWrites(hashes, s, [put]) == ApplyWrites(hashes, ApplyWrite(hashes, s, put), []);
      ApplyWritesAppend(hashes, s, [put], event);
      assert n == 2 ==> Cut(ApprovalWrites(s, d, stamp, ttlRefresh, admitted), n) == [put] + [event];
      ApplyWritesAppend(hashes, s, [put] + [event], PutPhase(Approved));
      assert n >= 3 ==> Cut(ApprovalWrites(s, d, stamp, ttlRefresh, admitted), n) == [put] + [event] + [PutPhase(Approved)];
      var alive := PutNext(put);
      if !alive { return false; }
      alive := PutNext(event);
      if !alive { return false; }
      ok := PutNext(PutPhase(Approved));
    }
  }
}
