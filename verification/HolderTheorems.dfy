/** What the holder guarantees over every run: any operations, in any order, each
    finishing or cut short after any of its steps. */
module HolderTheorems {
  import opened Wrappers
  import opened ProcessTree
  import opened HolderRecords
  import opened HolderAuthorization
  import opened HolderPlans
  import opened HolderInvariant

  lemma ReachableInv(cfg: Config, steps: seq<Step>)
    ensures Inv(cfg, Run(cfg, INITIAL, steps))
  {
    RunKeepsInv(cfg, INITIAL, steps);
  }

  // Reading what a list of steps did

  lemma {:induction false} OnlyGrows(s: State, effects: seq<Effect>)
    ensures s.spent <= ApplyAll(s, effects).spent
    ensures s.history <= ApplyAll(s, effects).history
    decreases |effects|
  {
    if effects != [] {
      OnlyGrows(Apply(s, effects[0]), effects[1..]);
    }
  }

  lemma {:induction false} LaunchCameFromGate(s: State, effects: seq<Effect>, n: Nonce) returns (e: Effect)
    requires HasLaunched(ApplyAll(s, effects).history, n) && !HasLaunched(s.history, n)
    ensures e in effects && e.OpenGate? && e.launch.nonce == n
    decreases |effects|
  {
    e := effects[0];
    if !(e.OpenGate? && e.launch.nonce == n) {
      var s' := Apply(s, e);
      if s'.history != s.history {
        HistoryGrows(s.history, s'.history[|s.history|], n);
      }
      e := LaunchCameFromGate(s', effects[1..], n);
    }
  }

  lemma {:induction false} ReleaseCameFromFree(s: State, effects: seq<Effect>) returns (e: Effect)
    requires LeaseHeld(s) && !LeaseHeld(ApplyAll(s, effects))
    requires forall x :: x in effects && x.WriteLease? ==> x.lease.held
    ensures e in effects && e.FreeLease?
    decreases |effects|
  {
    e := effects[0];
    if !e.FreeLease? {
      e := ReleaseCameFromFree(Apply(s, e), effects[1..]);
    }
  }

  lemma {:induction false} SpendingCameFromWrite(s: State, effects: seq<Effect>) returns (e: Effect)
    requires ApplyAll(s, effects).spent != s.spent
    ensures e in effects && e.WriteSpent?
    decreases |effects|
  {
    e := effects[0];
    if !e.WriteSpent? {
      e := SpendingCameFromWrite(Apply(s, e), effects[1..]);
    }
  }

  lemma {:induction false} PolicyCameFromWrite(s: State, effects: seq<Effect>) returns (e: Effect)
    requires ApplyAll(s, effects).policy != s.policy
    ensures e in effects && e.WritePolicy?
    decreases |effects|
  {
    e := effects[0];
    if !e.WritePolicy? {
      e := PolicyCameFromWrite(Apply(s, e), effects[1..]);
    }
  }

  /** The spawn of an execute request, when it is one for this nonce. */
  function SpawnOf(op: Op, n: Nonce): Option<Spawn>
  {
    match op
    case Execute(t, _, _, w) => if t == n then Some(w) else None
    case ExecuteExactRun(t, _, _, w) => if t == n then Some(w) else None
    case _ => None
  }

  ghost predicate AdmittedBy(cfg: Config, s: State, q: Request, n: Nonce)
  {
    match q.op
    case Execute(t, h, a, _) => t == n && ExecuteAdmits(cfg, s, t, h, a, q.now, q.admitted)
    case ExecuteExactRun(t, sg, a, _) =>
      && t == n && RecordOf(s.spent, n).Some? && RecordOf(s.spent, n).value.session.Some?
      && ExecuteAdmits(cfg, s, t, ExecuteHuman(cfg, RecordOf(s.spent, n).value, sg), a, q.now, q.admitted)
    case _ => false
  }

  /** This request consumes the nonce: its own, or the one of the pending exact run. */
  ghost predicate Consumes(s: State, q: Request, n: Nonce)
  {
    && !LeaseHeld(s)
    && RecordOf(s.spent, n).None?
    && ((q.op.Consume? && q.op.nonce == n) || (q.op.AuthorizeExactRun? && s.pending.Some? && s.pending.value.nonce == n))
  }

  /** What a step of a request can be, and the state it needs. */
  ghost predicate Fits(cfg: Config, s: State, q: Request, e: Effect)
  {
    match e
    case WriteSpent(r) => Consumes(s, q, r.nonce)
    case WriteLease(l) => l.held && (Consumes(s, q, l.token) || AdmittedBy(cfg, s, q, l.token))
    case OpenGate(l) =>
      && AdmittedBy(cfg, s, q, l.nonce)
      && RecordOf(s.spent, l.nonce).Some? && l == LaunchOf(s, RecordOf(s.spent, l.nonce).value)
    case WritePolicy(_) => q.op.SetPolicy?
    case WriteMeta(g, _) => q.op.SetPolicy? || (q.op.Rotate? && g == s.generation)
    case FreeLease(l, v) =>
      && s.lease.Some? && l.token == s.lease.value.token && l.child != Uncertain
      && (match v
          case CancelledBeforeSpawn =>
            && q.op.Cancel? && s.lease.value.child == Uncertain && s.lease.value.pid.None?
            && (RecordOf(s.spent, l.token).Some? ==> RecordOf(s.spent, l.token).value.session.None?)
          case ReapedChild(pid, wasOpen) =>
            && AdmittedBy(cfg, s, q, l.token)
            && SpawnOf(q.op, l.token).Some?
            && var w := SpawnOf(q.op, l.token).value;
            && w.SpawnedChild? && w.reaped && w.pid == pid
            && w.gate == (if wasOpen then CloseFailed else GoRefused)
          case ObservedExit(pid, watch) =>
            && AdmittedBy(cfg, s, q, l.token)
            && SpawnOf(q.op, l.token).Some?
            && var w := SpawnOf(q.op, l.token).value;
            && w.SpawnedChild? && w.gate == GoWritten && w.pid == pid && w.watch == watch
            && Accounted(pid, watch))
    case _ => true
  }

  /** The steps after the first write of an execute. */
  ghost predicate SpawnFits(s: State, r: SpentRecord, spawn: Spawn, e: Effect)
  {
    match e
    case WriteLease(l) => l.held && l.token == r.nonce
    case OpenGate(l) => l == LaunchOf(s, r)
    case FreeLease(l, v) =>
      && l.token == r.nonce && l.child != Uncertain && spawn.SpawnedChild?
      && (match v
          case CancelledBeforeSpawn => false
          case ReapedChild(pid, wasOpen) =>
            spawn.reaped && spawn.pid == pid && spawn.gate == (if wasOpen then CloseFailed else GoRefused)
          case ObservedExit(pid, watch) =>
            spawn.gate == GoWritten && spawn.pid == pid && spawn.watch == watch && Accounted(pid, watch))
    case _ => false
  }

  lemma SpawnStepFits(s: State, r: SpentRecord, spawn: Spawn, e: Effect)
    requires e in SpawnPlan(s, r, spawn).effects
    ensures SpawnFits(s, r, spawn, e)
  {
  }

  lemma ExecuteFits(cfg: Config, s: State, q: Request, n: Nonce, h: Human, e: Effect)
    requires (q.op.Execute? && q.op.token == n) || (q.op.ExecuteExactRun? && q.op.nonce == n)
    requires e in ExecutePlan(cfg, s, n, h, q.op.sealedArgv, q.op.spawn, q.now, q.admitted).effects
    requires AdmittedBy(cfg, s, q, n)
    ensures Fits(cfg, s, q, e)
  {
    var r := RecordOf(s.spent, n).value;
    if e != WriteLease(RunningLease(n, None)) {
      SpawnStepFits(s, r, q.op.spawn, e);
    }
  }

  lemma AuthorizeFits(cfg: Config, s: State, q: Request, e: Effect)
    requires q.op.AuthorizeExactRun? && e in PlanOf(cfg, s, q).effects
    ensures Fits(cfg, s, q, e)
  {
  }

  lemma OtherFits(cfg: Config, s: State, q: Request, e: Effect)
    requires !KeysOnly(q.op) && !q.op.Execute? && !q.op.ExecuteExactRun? && !q.op.AuthorizeExactRun?
    requires e in PlanOf(cfg, s, q).effects
    ensures Fits(cfg, s, q, e)
  {
  }

  /** Every step of every request fits. */
  lemma StepFits(cfg: Config, s: State, q: Request, e: Effect)
    requires e in PlanOf(cfg, s, q).effects
    ensures Fits(cfg, s, q, e)
  {
    match q.op {
      case Execute(t, h, a, w) => ExecuteFits(cfg, s, q, t, h, e);
      case ExecuteExactRun(n, sg, a, w) => ExecuteFits(cfg, s, q, n, ExecuteHuman(cfg, RecordOf(s.spent, n).value, sg), e);
      case AuthorizeExactRun(_, _, _, _) => AuthorizeFits(cfg, s, q, e);
      case _ => if KeysOnly(q.op) { KeyPlanIsHarmless(cfg, s, q, e); } else { OtherFits(cfg, s, q, e); }
    }
  }

  ghost function Reached(cfg: Config, s: State, step: Step): State
  {
    ApplyAll(s, Prefix(PlanOf(cfg, s, step.request).effects, step.survives))
  }

  // Launches

  /** The payload of each nonce is released at most once. */
  lemma LaunchedAtMostOnce(cfg: Config, steps: seq<Step>, i: nat, j: nat)
    requires i < j < |Run(cfg, INITIAL, steps).history|
    requires Run(cfg, INITIAL, steps).history[i].Launched? && Run(cfg, INITIAL, steps).history[j].Launched?
    ensures Run(cfg, INITIAL, steps).history[i].launch.nonce != Run(cfg, INITIAL, steps).history[j].launch.nonce
  {
    ReachableInv(cfg, steps);
  }

  /** An uncertain lease is held, has no recorded pid, and its payload was never
      released. */
  lemma UncertainNeverLaunched(cfg: Config, steps: seq<Step>)
    ensures var s := Run(cfg, INITIAL, steps);
            s.lease.Some? && s.lease.value.child == Uncertain ==>
              s.lease.value.held && s.lease.value.pid.None? && !HasLaunched(s.history, s.lease.value.token)
  {
    ReachableInv(cfg, steps);
  }

  /** A spent nonce whose lease is missing, belongs to another nonce, or has left
      the uncertain state: it can never launch from here on. */
  ghost predicate PastLaunch(s: State, n: Nonce)
  {
    && SpentKnown(s, n)
    && (s.lease.Some? && s.lease.value.token == n ==> s.lease.value.child != Uncertain)
  }

  predicate Touches(e: Effect, n: Nonce)
  {
    || (e.WriteLease? && e.lease.token == n)
    || (e.OpenGate? && e.launch.nonce == n)
    || (e.FreeLease? && e.freed.child == Uncertain)
  }

  lemma PastLaunchUntouched(cfg: Config, s: State, q: Request, n: Nonce, e: Effect)
    requires PastLaunch(s, n) && e in PlanOf(cfg, s, q).effects
    ensures !Touches(e, n)
  {
    StepFits(cfg, s, q, e);
  }

  lemma UntouchedStep(s: State, e: Effect, n: Nonce)
    requires PastLaunch(s, n) && !Touches(e, n)
    ensures PastLaunch(Apply(s, e), n) && HasLaunched(Apply(s, e).history, n) == HasLaunched(s.history, n)
  {
    match e {
      case WriteSpent(r) => RecordOfAppend(s.spent, r, n);
      case OpenGate(l) => HistoryGrows(s.history, Launched(l), n);
      case FreeLease(l, v) => HistoryGrows(s.history, Freed(l.token, v), n);
      case Remember(p) => HistoryGrows(s.history, Issued(p.bound), n);
      case _ =>
    }
  }

  lemma {:induction false} UntouchedStaysPast(s: State, effects: seq<Effect>, n: Nonce)
    requires PastLaunch(s, n)
    requires forall e :: e in effects ==> !Touches(e, n)
    ensures PastLaunch(ApplyAll(s, effects), n)
    ensures HasLaunched(ApplyAll(s, effects).history, n) == HasLaunched(s.history, n)
    decreases |effects|
  {
    if effects != [] {
      assert !Touches(effects[0], n);
      UntouchedStep(s, effects[0], n);
      UntouchedStaysPast(Apply(s, effects[0]), effects[1..], n);
    }
  }

  /** A nonce that was spent but never got its lease, or whose lease left the
      uncertain state, is launched by no continuation of the run. */
  lemma {:induction false} PastLaunchNeverLaunches(cfg: Config, s: State, steps: seq<Step>, n: Nonce)
    requires PastLaunch(s, n)
    ensures PastLaunch(Run(cfg, s, steps), n)
    ensures HasLaunched(Run(cfg, s, steps).history, n) == HasLaunched(s.history, n)
    decreases |steps|
  {
    if steps != [] {
      var effects := PlanOf(cfg, s, steps[0].request).effects;
      forall e | e in effects ensures !Touches(e, n) {
        PastLaunchUntouched(cfg, s, steps[0].request, n, e);
      }
      UntouchedStaysPast(s, Prefix(effects, steps[0].survives), n);
      PastLaunchNeverLaunches(cfg, Perform(cfg, s, steps[0]), steps[1..], n);
    }
  }

  /** A consume cut between its two writes leaves such a nonce. */
  lemma CutConsumeIsPastLaunch(cfg: Config, s: State, step: Step)
    requires Inv(cfg, s)
    requires step.request.op.Consume? && step.survives == 1 && PlanOf(cfg, s, step.request).accepted
    ensures PastLaunch(Perform(cfg, s, step), step.request.op.nonce)
    ensures Perform(cfg, s, step).lease == s.lease
  {
    var effects := PlanOf(cfg, s, step.request).effects;
    var r := effects[0].record;
    assert Prefix(effects, 1) == [WriteSpent(r)];
    assert ApplyAll(s, [WriteSpent(r)]) == ApplyAll(Apply(s, WriteSpent(r)), []);
    RecordOfAppend(s.spent, r, r.nonce);
  }

  // The lease

  /** A held lease becomes free in one step only by a cancel before any spawn of a
      run that is not an exact run, by an execute that reaped its first child, or
      by an execute whose watch accounts for the whole process tree. */
  lemma LeaseFreedOnlyByEvidence(cfg: Config, s: State, step: Step)
    requires LeaseHeld(s) && !LeaseHeld(Perform(cfg, s, step))
    ensures var n := s.lease.value.token;
            var op := step.request.op;
            || (op.Cancel? && s.lease.value.child == Uncertain && s.lease.value.pid.None?
                && (RecordOf(s.spent, n).Some? ==> RecordOf(s.spent, n).value.session.None?))
            || (SpawnOf(op, n).Some? && SpawnOf(op, n).value.SpawnedChild?
                && s.lease.value.child == Uncertain
                && SpawnOf(op, n).value.gate != GoWritten && SpawnOf(op, n).value.reaped)
            || (SpawnOf(op, n).Some? && SpawnOf(op, n).value.SpawnedChild?
                && s.lease.value.child == Uncertain
                && SpawnOf(op, n).value.gate == GoWritten && Accounted(SpawnOf(op, n).value.pid, SpawnOf(op, n).value.watch))
  {
    var effects := PlanOf(cfg, s, step.request).effects;
    forall x | x in effects && x.WriteLease? ensures x.lease.held {
      StepFits(cfg, s, step.request, x);
    }
    var e := ReleaseCameFromFree(s, Prefix(effects, step.survives));
    StepFits(cfg, s, step.request, e);
  }

  /** What note-absent answers, and what it can tell a caller: "cancel before spawn"
      exactly when the document is accepted and a cancel of this lease is refused
      for nothing but its own document or an exact run; "verified termination"
      only when no document whatever could cancel it. It never changes a record. */
  lemma NoteAbsentPointsToCancel(cfg: Config, s: State, step: Step)
    requires step.request.op.NoteAbsent?
    ensures var op, now := step.request.op, step.request.now;
            var answer := AnswerNote(cfg, s, op.token, op.human, now);
            && (answer == CancelInstead ==>
                  forall h: Human :: HumanHolds(cfg, s, h, ToCancel, h.policy, op.token, None, now) ==>
                    (CancelPlan(cfg, s, op.token, h, now, true).accepted <==> !RunsExactly(s, op.token)))
            && (answer == NoMatch || answer == NeedsTermination ==>
                  forall h: Human, later: int, admitted: bool :: !CancelPlan(cfg, s, op.token, h, later, admitted).accepted)
    ensures Perform(cfg, s, step).(pending := s.pending, challenges := s.challenges) == s
    ensures !step.died ==> Perform(cfg, s, step) == s
  {
  }

  /** A cancel frees exactly the leases note-absent points to it. */
  lemma CancelAfterNoteAbsent(cfg: Config, steps: seq<Step>, token: Nonce, h: Human, cancel: Human, now: int)
    requires var s := Run(cfg, INITIAL, steps); HumanHolds(cfg, s, h, ToNoteAbsent, h.policy, token, None, now)
    ensures var s := Run(cfg, INITIAL, steps);
            CancelPlan(cfg, s, token, cancel, now, true).accepted <==>
              && AnswerNote(cfg, s, token, h, now) == CancelInstead
              && HumanHolds(cfg, s, cancel, ToCancel, cancel.policy, token, None, now)
              && !RunsExactly(s, token)
    ensures var s := Run(cfg, INITIAL, steps);
            AnswerNote(cfg, s, token, h, now) == CancelInstead ==> LeaseHeld(s) && !HasLaunched(s.history, token)
  {
    ReachableInv(cfg, steps);
  }

  ghost predicate Settled(h: seq<Event>, m: Nonce)
  {
    Discharged(h, m) || ReapedAfterOpen(h, m)
  }

  /** Nothing runs beside a payload the holder could not account for: whenever a
      nonce is consumed or a payload is launched, every other payload launched
      before has had its lease freed with evidence. */
  lemma LaunchesNeverOverlap(cfg: Config, steps: seq<Step>, step: Step, n: Nonce, m: Nonce)
    requires var s := Run(cfg, INITIAL, steps);
             var s' := Perform(cfg, s, step);
             && HasLaunched(s.history, m)
             && ((HasLaunched(s'.history, n) && !HasLaunched(s.history, n)) || s'.spent != s.spent)
    ensures Settled(Run(cfg, INITIAL, steps).history, m)
  {
    var s := Run(cfg, INITIAL, steps);
    ReachableInv(cfg, steps);
    var effects := PlanOf(cfg, s, step.request).effects;
    var x :| x in s.history && x.Launched? && x.launch.nonce == m;
    assert LaunchHolds(s, x.launch);
    if Reached(cfg, s, step).spent != s.spent {
      var e := SpendingCameFromWrite(s, Prefix(effects, step.survives));
      StepFits(cfg, s, step.request, e);
    } else {
      var e := LaunchCameFromGate(s, Prefix(effects, step.survives), n);
      StepFits(cfg, s, step.request, e);
      assert s.lease.value.token == n && s.lease.value.child == Uncertain;
    }
  }

  /** The gate of this step opened and then failed to close. */
  predicate GateCloseFails(step: Step)
  {
    match step.request.op
    case Execute(_, _, _, w) => w.SpawnedChild? && w.gate == CloseFailed
    case ExecuteExactRun(_, _, _, w) => w.SpawnedChild? && w.gate == CloseFailed
    case _ => false
  }

  /** This step executes the nonce, its gate opens and fails to close, its child is
      reaped, and it is not cut. */
  ghost predicate ReapsOpened(cfg: Config, s: State, step: Step, n: Nonce)
  {
    && AdmittedBy(cfg, s, step.request, n)
    && GateCloseFails(step)
    && step.request.op.spawn.reaped
    && Finishes(cfg, s, step)
  }

  lemma ReapOpenedEffects(cfg: Config, s: State, q: Request, n: Nonce)
    requires AdmittedBy(cfg, s, q, n)
    requires q.op.spawn.SpawnedChild? && q.op.spawn.gate == CloseFailed && q.op.spawn.reaped
    ensures RecordOf(s.spent, n).Some?
    ensures PlanOf(cfg, s, q).effects ==
            [WriteLease(RunningLease(n, None)), OpenGate(LaunchOf(s, RecordOf(s.spent, n).value)),
             FreeLease(Lease(false, n, SpawnFailed, None, false), ReapedChild(q.op.spawn.pid, true))]
  {
    var r := RecordOf(s.spent, n).value;
    var rest := SpawnPlan(s, r, q.op.spawn);
    assert rest.effects == [OpenGate(LaunchOf(s, r))] + ReapPlan(n, q.op.spawn.pid, true, true).effects;
    assert PlanOf(cfg, s, q).effects == [WriteLease(RunningLease(n, None))] + rest.effects;
  }

  lemma OpenedThenFreed(s: State, w: Lease, l: Launch, f: Lease, pid: Pid)
    requires l.nonce == f.token && !f.held
    ensures var t := ApplyAll(s, [WriteLease(w), OpenGate(l), FreeLease(f, ReapedChild(pid, true))]);
            !LeaseHeld(t) && HasLaunched(t.history, f.token) && ReapedAfterOpen(t.history, f.token)
  {
    ApplyThree(s, WriteLease(w), OpenGate(l), FreeLease(f, ReapedChild(pid, true)));
    var history := s.history + [Launched(l)] + [Freed(f.token, ReapedChild(pid, true))];
    assert Launched(l) in history && Freed(f.token, ReapedChild(pid, true)) in history;
  }

  /** Whenever that happens the lease comes free with the payload launched and its
      tree unaccounted for. */
  lemma ReapsOpenedFrees(cfg: Config, s: State, step: Step, n: Nonce)
    requires ReapsOpened(cfg, s, step, n)
    ensures var t := Perform(cfg, s, step);
            !LeaseHeld(t) && HasLaunched(t.history, n) && ReapedAfterOpen(t.history, n)
  {
    ReapOpenedEffects(cfg, s, step.request, n);
    OpenedThenFreed(s, RunningLease(n, None), LaunchOf(s, RecordOf(s.spent, n).value),
                    Lease(false, n, SpawnFailed, None, false), step.request.op.spawn.pid);
  }

  /** And in one step nothing else does it: a launched payload's lease is freed by
      reaping its first child exactly when the gate failed on close, the child was
      reaped, and the step was not cut before the lease write. */
  lemma ReapedAfterOpenExactly(cfg: Config, s: State, step: Step, n: Nonce)
    requires !ReapedAfterOpen(s.history, n)
    ensures ReapedAfterOpen(Perform(cfg, s, step).history, n) <==> ReapsOpened(cfg, s, step, n)
  {
    if ReapsOpened(cfg, s, step, n) {
      ReapsOpenedFrees(cfg, s, step, n);
    } else {
      var kept := Prefix(PlanOf(cfg, s, step.request).effects, step.survives);
      forall e | e in kept ensures !FreesOpened(e, n) {
        if FreesOpened(e, n) { FreesOpenedNeeds(cfg, s, step, n, e); }
      }
      NoneFreesOpened(s, kept, n);
    }
  }

  lemma FreesOpenedNeeds(cfg: Config, s: State, step: Step, n: Nonce, e: Effect)
    requires e in Prefix(PlanOf(cfg, s, step.request).effects, step.survives) && FreesOpened(e, n)
    ensures ReapsOpened(cfg, s, step, n)
  {
    StepFits(cfg, s, step.request, e);
    ReapOpenedEffects(cfg, s, step.request, n);
    var kept := Prefix(PlanOf(cfg, s, step.request).effects, step.survives);
    var k :| 0 <= k < |kept| && kept[k] == e;
    assert PlanOf(cfg, s, step.request).effects[k] == e;
  }

  predicate FreesOpened(e: Effect, n: Nonce)
  {
    e.FreeLease? && e.freed.token == n && e.evidence.ReapedChild? && e.evidence.gateOpened
  }

  lemma {:induction false} NoneFreesOpened(s: State, effects: seq<Effect>, n: Nonce)
    requires forall e :: e in effects ==> !FreesOpened(e, n)
    ensures ReapedAfterOpen(ApplyAll(s, effects).history, n) ==> ReapedAfterOpen(s.history, n)
    decreases |effects|
  {
    if effects != [] {
      var s' := Apply(s, effects[0]);
      assert !FreesOpened(effects[0], n);
      NoneFreesOpened(s', effects[1..], n);
      if s'.history != s.history {
        assert forall x :: x in s'.history <==> x in s.history || x == s'.history[|s.history|];
      }
    }
  }

  /** While no gate fails to close after its go byte, the evidence is always the
      full one: every earlier payload's whole tree was accounted for. */
  lemma {:induction false} ReapedAfterOpenNeedsCloseFailure(cfg: Config, s: State, steps: seq<Step>, m: Nonce)
    requires !ReapedAfterOpen(s.history, m)
    requires forall step :: step in steps ==> !GateCloseFails(step)
    ensures !ReapedAfterOpen(Run(cfg, s, steps).history, m)
    decreases |steps|
  {
    if steps != [] {
      assert !GateCloseFails(steps[0]);
      ReapedAfterOpenExactly(cfg, s, steps[0], m);
      ReapedAfterOpenNeedsCloseFailure(cfg, Perform(cfg, s, steps[0]), steps[1..], m);
    }
  }

  // Spent nonces

  /** Spent nonces are pairwise distinct, and a lease is always of a spent nonce. */
  lemma SpentDistinctAndLeased(cfg: Config, steps: seq<Step>)
    ensures Distinct(Run(cfg, INITIAL, steps).spent)
    ensures var s := Run(cfg, INITIAL, steps); s.lease.Some? ==> SpentKnown(s, s.lease.value.token)
  {
    ReachableInv(cfg, steps);
  }

  /** Spent records are only ever appended to, and so is what happened. */
  lemma {:induction false} SpentOnlyGrows(cfg: Config, s: State, steps: seq<Step>)
    ensures s.spent <= Run(cfg, s, steps).spent
    ensures s.history <= Run(cfg, s, steps).history
    decreases |steps|
  {
    if steps != [] {
      OnlyGrows(s, Prefix(PlanOf(cfg, s, steps[0].request).effects, steps[0].survives));
      SpentOnlyGrows(cfg, Perform(cfg, s, steps[0]), steps[1..]);
    }
  }

  /** An operation that is refused outright changes no record. A stale exact run is
      forgotten; a verified submission that is refused after all has used up its
      challenge and its nonce; the refused executes are those that had already
      started a spawn. */
  lemma RefusedChangesNoRecord(cfg: Config, s: State, step: Step)
    requires !PlanOf(cfg, s, step.request).accepted
    requires !AdmittedBy(cfg, s, step.request, if s.lease.Some? then s.lease.value.token else "")
    ensures var t := Perform(cfg, s, step);
            && t.(pending := s.pending, challenges := s.challenges, deviceNonces := s.deviceNonces) == s
            && (!step.request.op.SubmitDeviceSignature? ==> t.deviceNonces == s.deviceNonces)
  {
    var effects := PlanOf(cfg, s, step.request).effects;
    forall e | e in effects ensures e.Forget? || (step.request.op.SubmitDeviceSignature? && (e.SetChallenges? || e.SpendDeviceNonce?)) {
    }
    MemoryOnly(s, Prefix(effects, step.survives));
  }

  lemma {:induction false} MemoryOnly(s: State, effects: seq<Effect>)
    requires forall e :: e in effects ==> e.Forget? || e.SetChallenges? || e.SpendDeviceNonce?
    ensures var t := ApplyAll(s, effects);
            && t.(pending := s.pending, challenges := s.challenges, deviceNonces := s.deviceNonces) == s
            && ((forall e :: e in effects ==> !e.SpendDeviceNonce?) ==> t.deviceNonces == s.deviceNonces)
    decreases |effects|
  {
    if effects != [] {
      assert effects[0].Forget? || effects[0].SetChallenges? || effects[0].SpendDeviceNonce?;
      MemoryOnly(Apply(s, effects[0]), effects[1..]);
    }
  }

  ghost predicate LeaseIsLastSpent(s: State)
  {
    && (s.lease.Some? <==> s.spent != [])
    && (s.lease.Some? ==> s.lease.value.token == s.spent[|s.spent| - 1].nonce)
  }

  /** An accepted consume, direct or through an exact run, is these two writes. */
  lemma ConsumingShape(cfg: Config, s: State, q: Request) returns (r: SpentRecord)
    requires q.op.Consume? || q.op.AuthorizeExactRun?
    requires PlanOf(cfg, s, q).accepted
    ensures PlanOf(cfg, s, q).effects ==
            [WriteSpent(r), WriteLease(UncertainLease(r.nonce))] + (if q.op.Consume? then [] else [Forget])
  {
    r := PlanOf(cfg, s, q).effects[0].record;
  }

  lemma ConsumedState(s: State, r: SpentRecord, tail: seq<Effect>)
    requires tail == [] || tail == [Forget]
    ensures var t := ApplyAll(s, [WriteSpent(r), WriteLease(UncertainLease(r.nonce))] + tail);
            t.spent == s.spent + [r] && t.lease == Some(UncertainLease(r.nonce))
  {
    var effects := [WriteSpent(r), WriteLease(UncertainLease(r.nonce))] + tail;
    var s2 := Apply(Apply(s, effects[0]), effects[1]);
    assert effects[1..][1..] == tail;
    assert ApplyAll(s, effects) == ApplyAll(s2, tail);
    assert ApplyAll(s2, tail) == if tail == [] then s2 else ApplyAll(Apply(s2, Forget), tail[1..]);
  }

  lemma OtherStepsKeepToken(cfg: Config, s: State, q: Request, e: Effect)
    requires e in PlanOf(cfg, s, q).effects
    requires (q.op.Consume? || q.op.AuthorizeExactRun?) ==> !PlanOf(cfg, s, q).accepted
    ensures KeepsLeaseToken(s, e)
  {
    if q.op.Consume? || q.op.AuthorizeExactRun? {
      assert e == Forget;
    } else {
      StepFits(cfg, s, q, e);
    }
  }

  /** A finished operation leaves the lease on the nonce spent last. */
  lemma FinishedKeepsLeaseLast(cfg: Config, s: State, step: Step)
    requires LeaseIsLastSpent(s) && Finishes(cfg, s, step)
    ensures LeaseIsLastSpent(Perform(cfg, s, step))
  {
    var effects := PlanOf(cfg, s, step.request).effects;
    assert Prefix(effects, step.survives) == effects;
    var op := step.request.op;
    if (op.Consume? || op.AuthorizeExactRun?) && PlanOf(cfg, s, step.request).accepted {
      var r := ConsumingShape(cfg, s, step.request);
      ConsumedState(s, r, if op.Consume? then [] else [Forget]);
    } else {
      forall e | e in effects ensures KeepsLeaseToken(s, e) {
        OtherStepsKeepToken(cfg, s, step.request, e);
      }
      TokenStays(s, effects, s);
    }
  }

  predicate KeepsLeaseToken(s: State, e: Effect)
  {
    && !e.WriteSpent?
    && (e.WriteLease? ==> s.lease.Some? && e.lease.token == s.lease.value.token)
    && (e.FreeLease? ==> s.lease.Some? && e.freed.token == s.lease.value.token)
  }

  lemma {:induction false} TokenStays(s: State, effects: seq<Effect>, now: State)
    requires forall e :: e in effects ==> KeepsLeaseToken(s, e)
    requires now.spent == s.spent && now.lease.Some? == s.lease.Some?
    requires now.lease.Some? ==> now.lease.value.token == s.lease.value.token
    ensures var t := ApplyAll(now, effects);
            && t.spent == s.spent && t.lease.Some? == s.lease.Some?
            && (t.lease.Some? ==> t.lease.value.token == s.lease.value.token)
    decreases |effects|
  {
    if effects != [] {
      assert KeepsLeaseToken(s, effects[0]);
      TokenStays(s, effects[1..], Apply(now, effects[0]));
    }
  }

  /** Without crashes the lease token is the nonce spent last. */
  lemma {:induction false} CrashFreeLeaseIsLast(cfg: Config, s: State, steps: seq<Step>)
    requires LeaseIsLastSpent(s) && CrashFree(cfg, s, steps)
    ensures LeaseIsLastSpent(Run(cfg, s, steps))
    decreases |steps|
  {
    if steps != [] {
      FinishedKeepsLeaseLast(cfg, s, steps[0]);
      CrashFreeLeaseIsLast(cfg, Perform(cfg, s, steps[0]), steps[1..]);
    }
  }

  // Generations

  /** Neither generation record ever decreases, and the policy is at most one ahead. */
  lemma {:induction false} GenerationsNeverDecrease(cfg: Config, s: State, steps: seq<Step>)
    requires Inv(cfg, s)
    ensures var t := Run(cfg, s, steps);
            && s.generation <= t.generation
            && (s.policy.Some? ==> t.policy.Some? && s.policy.value.generation <= t.policy.value.generation)
            && (t.policy.Some? ==> t.generation <= t.policy.value.generation <= t.generation + 1)
    decreases |steps|
  {
    if steps != [] {
      PerformKeepsInv(cfg, s, steps[0]);
      PlanIsSafe(cfg, s, steps[0].request);
      SafeStepsRaise(cfg, s, PlanOf(cfg, s, steps[0].request).effects, steps[0].survives);
      GenerationsNeverDecrease(cfg, Perform(cfg, s, steps[0]), steps[1..]);
    }
  }

  lemma {:induction false} SafeStepsRaise(cfg: Config, s: State, effects: seq<Effect>, n: nat)
    requires Inv(cfg, s) && AllSafe(cfg, s, effects)
    ensures var t := ApplyAll(s, Prefix(effects, n));
            && s.generation <= t.generation
            && (s.policy.Some? ==> t.policy.Some? && s.policy.value.generation <= t.policy.value.generation)
    decreases |effects|
  {
    if effects != [] && n > 0 {
      StepKeepsInv(cfg, s, effects[0]);
      SafeStepsRaise(cfg, Apply(s, effects[0]), effects[1..], n - 1);
      assert Prefix(effects, n)[1..] == Prefix(effects[1..], n - 1);
    }
  }

  lemma {:induction false} LoadKept(s: State, effects: seq<Effect>)
    requires LoadHolds(s)
    requires forall e :: e in effects ==> !e.WritePolicy? && (e.WriteMeta? ==> e.generation == s.generation)
    ensures LoadHolds(ApplyAll(s, effects)) && ApplyAll(s, effects).generation == s.generation
    ensures ApplyAll(s, effects).policy == s.policy
    decreases |effects|
  {
    if effects != [] {
      LoadKept(Apply(s, effects[0]), effects[1..]);
    }
  }

  /** The policy and generation records disagree after one step exactly when that
      step is a set-policy cut between its two writes. */
  lemma MismatchExactlyFromCutSetPolicy(cfg: Config, s: State, step: Step)
    requires LoadHolds(s)
    ensures !LoadHolds(Perform(cfg, s, step)) <==>
            step.request.op.SetPolicy? && PlanOf(cfg, s, step.request).accepted && step.survives == 1
  {
    var effects := PlanOf(cfg, s, step.request).effects;
    var kept := Prefix(effects, step.survives);
    if step.request.op.SetPolicy? && effects != [] {
      var p, m := effects[0], effects[1];
      assert effects == [p, m, WriteReceipt(None)];
      if step.survives == 0 {
        assert kept == [];
      } else if step.survives == 1 {
        assert kept == [p];
        assert ApplyAll(s, [p]) == ApplyAll(Apply(s, p), []);
      } else {
        assert kept[0] == p && kept[1] == m && kept[1..][0] == m;
        var t := Apply(Apply(s, p), m);
        assert ApplyAll(s, kept) == ApplyAll(t, kept[1..][1..]);
        LoadKept(t, kept[1..][1..]);
      }
    } else {
      forall e | e in kept ensures !e.WritePolicy? && (e.WriteMeta? ==> e.generation == s.generation) {
        if !step.request.op.SetPolicy? { StepFits(cfg, s, step.request, e); }
      }
      LoadKept(s, kept);
    }
  }

  /** Without crashes the two records agree. */
  lemma {:induction false} CrashFreeGenerationsAgree(cfg: Config, s: State, steps: seq<Step>)
    requires LoadHolds(s) && CrashFree(cfg, s, steps)
    ensures LoadHolds(Run(cfg, s, steps))
    decreases |steps|
  {
    if steps != [] {
      MismatchExactlyFromCutSetPolicy(cfg, s, steps[0]);
      CrashFreeGenerationsAgree(cfg, Perform(cfg, s, steps[0]), steps[1..]);
    }
  }

  /** Once they disagree, every later operation refuses and no record changes. */
  lemma {:induction false} MismatchIsFinal(cfg: Config, s: State, steps: seq<Step>)
    requires !LoadHolds(s)
    ensures Run(cfg, s, steps).(pending := s.pending, challenges := s.challenges) == s
    ensures forall q :: PlanOf(cfg, Run(cfg, s, steps), q) == REFUSED
    decreases |steps|
  {
    if steps != [] {
      var t := Perform(cfg, s, steps[0]);
      assert PlanOf(cfg, s, steps[0].request) == REFUSED;
      assert t.(pending := s.pending, challenges := s.challenges) == s;
      MismatchIsFinal(cfg, t, steps[1..]);
    }
  }

  // Policy changes

  /** This step is an accepted set-policy to which the factor contributed: a device
      of its role signed the challenge, or its slot's session key the message; or the
      software double stood in. */
  ghost predicate SetPolicyAuthorizedBy(cfg: Config, s: State, step: Step, r: Role)
  {
    && step.request.op.SetPolicy?
    && PlanOf(cfg, s, step.request).accepted
    && var h := step.request.op.human;
    && Destination(h).Some?
    && FactorAuthorized(cfg, s, h, ToSetPolicy, MutationPolicy(s, Destination(h).value), PolicyName(Destination(h).value), None, r)
  }

  /** And a device paired in that role signed. */
  ghost predicate SetPolicySignedBy(cfg: Config, s: State, step: Step, r: Role)
  {
    && step.request.op.SetPolicy?
    && PlanOf(cfg, s, step.request).accepted
    && var h := step.request.op.human;
    && Destination(h).Some?
    && FactorSigned(cfg, s, h, ToSetPolicy, MutationPolicy(s, Destination(h).value), PolicyName(Destination(h).value), None, r)
  }

  /** The policy record only changes in an accepted set-policy to which every factor
      of the policy in force before it contributed. */
  lemma PolicyChangeAuthorizedByOldFactors(cfg: Config, s: State, step: Step, r: Role)
    requires s.policy.Some? && Perform(cfg, s, step).policy != s.policy
    requires r in Factors(s.policy.value.name)
    ensures SetPolicyAuthorizedBy(cfg, s, step, r)
    ensures r in Factors(MutationPolicy(s, Destination(step.request.op.human).value))
  {
    var e := PolicyCameFromWrite(s, Prefix(PlanOf(cfg, s, step.request).effects, step.survives));
    if !step.request.op.SetPolicy? {
      StepFits(cfg, s, step.request, e);
    }
    var h := step.request.op.human;
    var destination := Destination(h).value;
    var p := MutationPolicy(s, destination);
    assert r in Factors(p);
    AuthorizedByEveryFactor(cfg, s, h, ToSetPolicy, p, PolicyName(destination), None, step.request.now, r);
  }

  /** A device paired in an old factor's role signed such a change if and only if it
      was made with device signatures, or some slot of the authorizing policy's
      sessions held a device of that role. */
  lemma PolicyChangeSignedExactly(cfg: Config, s: State, step: Step, r: Role)
    requires s.policy.Some? && Perform(cfg, s, step).policy != s.policy
    requires r in Factors(s.policy.value.name)
    requires step.request.op.SetPolicy? ==> step.request.op.human.means != TestDouble
    ensures SetPolicySignedBy(cfg, s, step, r) <==>
            && step.request.op.SetPolicy?
            && var h := step.request.op.human;
            && Destination(h).Some?
            && (h.means.DeviceMethod? || SlotHolds(s, MutationPolicy(s, Destination(h).value), r))
  {
    PolicyChangeAuthorizedByOldFactors(cfg, s, step, r);
    var h := step.request.op.human;
    var destination := Destination(h).value;
    FactorSignedExactly(cfg, s, h, ToSetPolicy, MutationPolicy(s, destination), PolicyName(destination), None, step.request.now, r);
  }

  /** Over any run, a factor that is gone from the policy contributed to the
      set-policy that dropped it, and still held when that step began. */
  lemma {:induction false} DroppedFactorAuthorized(cfg: Config, s: State, steps: seq<Step>, r: Role) returns (i: nat)
    requires s.policy.Some? && r in Factors(s.policy.value.name)
    requires Run(cfg, s, steps).policy.Some? ==> r !in Factors(Run(cfg, s, steps).policy.value.name)
    ensures i < |steps| && SetPolicyAuthorizedBy(cfg, Run(cfg, s, steps[..i]), steps[i], r)
    ensures var t := Run(cfg, s, steps[..i]);
            && t.policy.Some? && r in Factors(t.policy.value.name) && Perform(cfg, t, steps[i]).policy != t.policy
    decreases |steps|
  {
    var t := Perform(cfg, s, steps[0]);
    if t.policy.Some? && r in Factors(t.policy.value.name) {
      var k := DroppedFactorAuthorized(cfg, t, steps[1..], r);
      i := k + 1;
      assert steps[..i][1..] == steps[1..][..k];
    } else {
      PolicyChangeAuthorizedByOldFactors(cfg, s, steps[0], r);
      i := 0;
    }
  }
}
