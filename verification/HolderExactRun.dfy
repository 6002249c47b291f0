/** Exact runs: what is issued is what is authorized is what is launched, under
    the same policy and the same generations. */
module HolderExactRun {
  import opened Wrappers
  import opened HolderRecords
  import opened HolderAuthorization
  import opened HolderPlans
  import opened HolderInvariant
  import opened HolderTheorems

  /** A step that releases the payload of this nonce. */
  ghost predicate Launches(cfg: Config, s: State, step: Step, n: Nonce)
  {
    HasLaunched(Perform(cfg, s, step).history, n) && !HasLaunched(s.history, n)
  }

  /** What the release of an exact run needs at that moment: the spent record's own
      message, current generations, the policy still in force, an unexpired
      authorization, and a signature of every required session key. */
  ghost predicate BoundLaunch(cfg: Config, s: State, r: SpentRecord, signatures: map<string, Signature>, now: int)
  {
    && r.session.Some?
    && r.session.value.bound ==
       ExactRun(cfg.holderId, r.payloadDigest, r.launchArgv, r.nonce, r.policy, s.generation, s.keyGeneration, r.session.value.expiry)
    && r.generation == s.generation && r.keyGeneration == s.keyGeneration
    && s.policy.Some? && s.policy.value.name == r.policy
    && now < r.session.value.expiry
    && forall role :: role in Factors(r.policy) ==>
         && RoleName(role) in signatures
         && KeySigned(cfg, s.devices, SessionSlot(role), P256, r.session.value.bound, signatures[RoleName(role)])
  }

  lemma ExactRunLaunchIsBound(cfg: Config, steps: seq<Step>, step: Step)
    requires step.request.op.ExecuteExactRun?
    requires Launches(cfg, Run(cfg, INITIAL, steps), step, step.request.op.nonce)
    ensures var s := Run(cfg, INITIAL, steps);
            var n := step.request.op.nonce;
            && RecordOf(s.spent, n).Some?
            && BoundLaunch(cfg, s, RecordOf(s.spent, n).value, step.request.op.signatures, step.request.now)
            && var r := RecordOf(s.spent, n).value;
               Launched(Launch(n, r.payloadDigest, r.launchArgv, s.generation, s.keyGeneration)) in Perform(cfg, s, step).history
  {
    var s := Run(cfg, INITIAL, steps);
    var n := step.request.op.nonce;
    ReachableInv(cfg, steps);
    var effects := Prefix(PlanOf(cfg, s, step.request).effects, step.survives);
    var e := LaunchCameFromGate(s, effects, n);
    StepFits(cfg, s, step.request, e);
    var r := RecordOf(s.spent, n).value;
    assert RecordHolds(s, r);
    BoundBySession(cfg, s, r, step.request);
    GateIsRecorded(s, effects, e);
  }

  lemma {:induction false} GateIsRecorded(s: State, effects: seq<Effect>, e: Effect)
    requires e in effects && e.OpenGate?
    ensures Launched(e.launch) in ApplyAll(s, effects).history
    decreases |effects|
  {
    var s' := Apply(s, effects[0]);
    if effects[0] == e {
      OnlyGrows(s', effects[1..]);
      assert Launched(e.launch) in s'.history;
      assert s'.history <= ApplyAll(s, effects).history;
    } else {
      GateIsRecorded(s', effects[1..], e);
    }
  }

  lemma BoundBySession(cfg: Config, s: State, r: SpentRecord, q: Request)
    requires Inv(cfg, s) && q.op.ExecuteExactRun? && AdmittedBy(cfg, s, q, q.op.nonce)
    requires RecordOf(s.spent, q.op.nonce) == Some(r)
    ensures BoundLaunch(cfg, s, r, q.op.signatures, q.now)
  {
    var h := ExecuteHuman(cfg, r, q.op.signatures);
    assert RecordHolds(s, r);
    assert SessionHolds(cfg, s, h, r.policy, r.nonce, Some(Authorized(r.payloadDigest, r.launchArgv, r.terms)));
    forall role | role in Factors(r.policy)
      ensures RoleName(role) in q.op.signatures
      ensures KeySigned(cfg, s.devices, SessionSlot(role), P256, r.session.value.bound, q.op.signatures[RoleName(role)])
    {
      assert RoleName(role) in h.signatures.Keys;
      assert SessionKeySigned(cfg, s.devices, r.policy, RoleName(role), h.bound.value, h.signatures[RoleName(role)]);
    }
  }

  lemma {:induction false} RecordIsStable(spent: seq<SpentRecord>, more: seq<SpentRecord>, n: Nonce)
    requires RecordOf(spent, n).Some? && spent <= more
    ensures RecordOf(more, n) == RecordOf(spent, n)
    decreases |more|
  {
    if |spent| < |more| {
      RecordIsStable(spent, more[..|more| - 1], n);
      RecordOfAppend(more[..|more| - 1], more[|more| - 1], n);
      assert more == more[..|more| - 1] + [more[|more| - 1]];
    } else {
      assert more == spent;
    }
  }

  /** This step turns the pending exact run into a spent record. */
  ghost predicate Authorizes(cfg: Config, s: State, step: Step)
  {
    step.request.op.AuthorizeExactRun? && Perform(cfg, s, step).spent != s.spent
  }

  lemma SpentRecordIsFound(s: State, effects: seq<Effect>, r: SpentRecord)
    requires effects != [] && effects[0] == WriteSpent(r) && RecordOf(s.spent, r.nonce).None?
    ensures RecordOf(ApplyAll(s, effects).spent, r.nonce) == Some(r)
  {
    var s1 := Apply(s, WriteSpent(r));
    RecordOfAppend(s.spent, r, r.nonce);
    OnlyGrows(s1, effects[1..]);
    RecordIsStable(s1.spent, ApplyAll(s, effects).spent, r.nonce);
  }

  lemma AuthorizedRecord(cfg: Config, s: State, step: Step)
    requires Inv(cfg, s) && Authorizes(cfg, s, step)
    ensures s.pending.Some?
    ensures var p := s.pending.value;
            var found := RecordOf(Perform(cfg, s, step).spent, p.nonce);
            && RecordOf(s.spent, p.nonce).None? && found.Some?
            && found.value.payloadDigest == p.payloadDigest && found.value.launchArgv == p.launchArgv
            && found.value.policy == p.policy
            && found.value.generation == p.generation == s.generation
            && found.value.keyGeneration == p.keyGeneration == s.keyGeneration
            && found.value.session == Some(Session(p.bound, p.expiry))
  {
    var effects := PlanOf(cfg, s, step.request).effects;
    var kept := Prefix(effects, step.survives);
    var e := SpendingCameFromWrite(s, kept);
    var p := s.pending.value;
    var r := ConsumingShape(cfg, s, step.request);
    assert e == WriteSpent(r);
    assert kept[0] == WriteSpent(r);
    assert r == PlanOf(cfg, s, step.request).effects[0].record;
    SpentRecordIsFound(s, kept, r);
  }

  /** From issue to launch. If the pending run of one reachable state is authorized,
      and an exact-run execute of its nonce launches in any later state, then the
      message was issued, the payload and launch vector are the issued ones, and
      policy, generation and key generation are the issued ones in both states. */
  lemma ExactRunEndToEnd(cfg: Config, before: seq<Step>, auth: Step, after: seq<Step>, exec: Step)
    requires Authorizes(cfg, Run(cfg, INITIAL, before), auth)
    requires exec.request.op.ExecuteExactRun?
    requires Run(cfg, INITIAL, before).pending.Some? &&
             Run(cfg, INITIAL, before).pending.value.nonce == exec.request.op.nonce
    requires Launches(cfg, Run(cfg, INITIAL, before + [auth] + after), exec, exec.request.op.nonce)
    ensures var a := Run(cfg, INITIAL, before);
            var x := Run(cfg, INITIAL, before + [auth] + after);
            var p := a.pending.value;
            && p.bound == ExactRun(cfg.holderId, p.payloadDigest, p.launchArgv, p.nonce, p.policy, p.generation, p.keyGeneration, p.expiry)
            && Issued(p.bound) in a.history
            && Launched(Launch(p.nonce, p.payloadDigest, p.launchArgv, p.generation, p.keyGeneration)) in Perform(cfg, x, exec).history
            && p.generation == a.generation == x.generation
            && p.keyGeneration == a.keyGeneration == x.keyGeneration
            && x.policy.Some? && x.policy.value.name == p.policy
            && exec.request.now < p.expiry
  {
    ReachableInv(cfg, before);
    AuthorizedRecord(cfg, Run(cfg, INITIAL, before), auth);
    AuthorizedStays(cfg, before, auth, after, exec.request.op.nonce);
    ExactRunLaunchIsBound(cfg, before + [auth] + after, exec);
  }

  lemma RunThrough(cfg: Config, s: State, before: seq<Step>, step: Step, after: seq<Step>)
    ensures Run(cfg, s, before + [step] + after) == Run(cfg, Perform(cfg, Run(cfg, s, before), step), after)
  {
    assert before + [step] + after == before + ([step] + after);
    assert ([step] + after)[1..] == after;
    RunAppend(cfg, s, before, [step] + after);
  }

  lemma AuthorizedStays(cfg: Config, before: seq<Step>, auth: Step, after: seq<Step>, n: Nonce)
    requires RecordOf(Perform(cfg, Run(cfg, INITIAL, before), auth).spent, n).Some?
    ensures RecordOf(Run(cfg, INITIAL, before + [auth] + after).spent, n) == RecordOf(Perform(cfg, Run(cfg, INITIAL, before), auth).spent, n)
  {
    var b := Perform(cfg, Run(cfg, INITIAL, before), auth);
    RunThrough(cfg, INITIAL, before, auth, after);
    SpentOnlyGrows(cfg, b, after);
    RecordIsStable(b.spent, Run(cfg, b, after).spent, n);
  }

  lemma {:induction false} RunAppend(cfg: Config, s: State, first: seq<Step>, second: seq<Step>)
    ensures Run(cfg, s, first + second) == Run(cfg, Run(cfg, s, first), second)
    decreases |first|
  {
    if first == [] {
      assert first + second == second;
    } else {
      assert (first + second)[1..] == first[1..] + second;
      RunAppend(cfg, Perform(cfg, s, first[0]), first[1..], second);
    }
  }

  /** Each issued run is authorized at most once: after its nonce is spent, no
      continuation of the run authorizes it again, pending or not. */
  lemma AuthorizedAtMostOnce(cfg: Config, s: State, steps: seq<Step>, step: Step, n: Nonce)
    requires Inv(cfg, s) && RecordOf(s.spent, n).Some?
    requires var t := Run(cfg, s, steps); t.pending.Some? && t.pending.value.nonce == n
    ensures !Authorizes(cfg, Run(cfg, s, steps), step)
  {
    var t := Run(cfg, s, steps);
    RunKeepsInv(cfg, s, steps);
    SpentOnlyGrows(cfg, s, steps);
    RecordIsStable(s.spent, t.spent, n);
    if Authorizes(cfg, t, step) {
      AuthorizedRecord(cfg, t, step);
    }
  }

  /** A policy change ends the pending exact run issued before it: no continuation
      authorizes that run. */
  lemma PolicyChangeEndsPendingRun(cfg: Config, s: State, steps: seq<Step>, step: Step)
    requires Inv(cfg, s)
    requires var t := Run(cfg, s, steps); t.pending.Some? && t.pending.value.generation < s.generation
    ensures !Authorizes(cfg, Run(cfg, s, steps), step)
  {
    var t := Run(cfg, s, steps);
    RunKeepsInv(cfg, s, steps);
    GenerationsNeverDecrease(cfg, s, steps);
    if Authorizes(cfg, t, step) {
      AuthorizedRecord(cfg, t, step);
    }
  }

  /** A policy change also ends an exact run consumed before it: no continuation
      launches it through an exact-run execute. */
  lemma PolicyChangeEndsConsumedRun(cfg: Config, s: State, steps: seq<Step>, step: Step, n: Nonce)
    requires Inv(cfg, s)
    requires RecordOf(s.spent, n).Some? && RecordOf(s.spent, n).value.generation < s.generation
    requires step.request.op.ExecuteExactRun? && step.request.op.nonce == n
    ensures !Launches(cfg, Run(cfg, s, steps), step, n)
  {
    var t := Run(cfg, s, steps);
    RunKeepsInv(cfg, s, steps);
    GenerationsNeverDecrease(cfg, s, steps);
    SpentOnlyGrows(cfg, s, steps);
    RecordIsStable(s.spent, t.spent, n);
    if Launches(cfg, t, step, n) {
      var e := LaunchCameFromGate(t, Prefix(PlanOf(cfg, t, step.request).effects, step.survives), n);
      StepFits(cfg, t, step.request, e);
      BoundBySession(cfg, t, RecordOf(t.spent, n).value, step.request);
    }
  }

  // The key generation

  /** The enrolled caller's record is not behind the holder's key generation. */
  predicate CallerCurrent(s: State)
  {
    s.enrollment.Some? && s.enrollment.value in s.callers ==>
      s.keyGeneration <= s.callers[s.enrollment.value].keyGeneration
  }

  lemma {:induction false} RotationRaises(s: State, effects: seq<Effect>, n: nat)
    requires CallerCurrent(s)
    requires forall e :: e in effects ==> !e.WriteCallers? && !e.WriteEnrollment? && (e.WriteMeta? ==> e.keyGeneration == s.keyGeneration)
    ensures var t := ApplyAll(s, Prefix(effects, n)); CallerCurrent(t) && s.keyGeneration == t.keyGeneration
    decreases |effects|
  {
    if effects != [] && n > 0 {
      RotationRaises(Apply(s, effects[0]), effects[1..], n - 1);
      assert Prefix(effects, n)[1..] == Prefix(effects[1..], n - 1);
    }
  }

  lemma OtherStepsKeepKey(cfg: Config, s: State, q: Request, e: Effect)
    requires e in PlanOf(cfg, s, q).effects && !q.op.Rotate? && !q.op.Enroll?
    ensures !e.WriteCallers? && !e.WriteEnrollment? && (e.WriteMeta? ==> e.keyGeneration == s.keyGeneration)
  {
    match q.op {
      case Execute(t, h, a, w) => ExecuteStepsKeepKey(cfg, s, t, h, a, w, q.now, q.admitted, e);
      case ExecuteExactRun(n, sg, a, w) =>
        ExecuteStepsKeepKey(cfg, s, n, ExecuteHuman(cfg, RecordOf(s.spent, n).value, sg), a, w, q.now, q.admitted, e);
      case _ =>
    }
  }

  lemma ExecuteStepsKeepKey(cfg: Config, s: State, token: Nonce, h: Human, sealedArgv: Option<Argv>, spawn: Spawn,
                            now: int, admitted: bool, e: Effect)
    requires e in ExecutePlan(cfg, s, token, h, sealedArgv, spawn, now, admitted).effects
    ensures !e.WriteCallers? && !e.WriteEnrollment? && !e.WriteMeta?
  {
    var r := RecordOf(s.spent, token).value;
    if e != WriteLease(RunningLease(token, None)) {
      SpawnStepFits(s, r, spawn, e);
    }
  }

  /** Between enrollments the key generation never decreases, crashes included. */
  lemma {:induction false} KeyGenerationNeverDecreases(cfg: Config, s: State, steps: seq<Step>)
    requires CallerCurrent(s)
    requires forall step :: step in steps ==> !step.request.op.Enroll?
    ensures CallerCurrent(Run(cfg, s, steps)) && s.keyGeneration <= Run(cfg, s, steps).keyGeneration
    decreases |steps|
  {
    if steps != [] {
      var step := steps[0];
      var effects := PlanOf(cfg, s, step.request).effects;
      if step.request.op.Rotate? && effects != [] {
        RotateKeepsCurrent(cfg, s, step);
      } else {
        forall e | e in effects
          ensures !e.WriteCallers? && !e.WriteEnrollment? && (e.WriteMeta? ==> e.keyGeneration == s.keyGeneration)
        {
          assert !step.request.op.Enroll?;
          OtherStepsKeepKey(cfg, s, step.request, e);
        }
        RotationRaises(s, effects, step.survives);
      }
      KeyGenerationNeverDecreases(cfg, Perform(cfg, s, step), steps[1..]);
    }
  }

  lemma RotateEffects(cfg: Config, s: State, q: Request)
    requires q.op.Rotate? && PlanOf(cfg, s, q).effects != []
    ensures s.enrollment.Some? && s.enrollment.value in s.callers
    ensures var next := s.callers[s.enrollment.value].keyGeneration + 1;
            PlanOf(cfg, s, q).effects ==
            [WriteCallers(s.callers[s.enrollment.value := Caller(false, next)]), WriteMeta(s.generation, next), WriteReceipt(None)]
  {
  }

  lemma RotateKeepsCurrent(cfg: Config, s: State, step: Step)
    requires CallerCurrent(s) && step.request.op.Rotate? && PlanOf(cfg, s, step.request).effects != []
    ensures CallerCurrent(Perform(cfg, s, step)) && s.keyGeneration <= Perform(cfg, s, step).keyGeneration
    ensures Finishes(cfg, s, step) ==> s.keyGeneration < Perform(cfg, s, step).keyGeneration
  {
    RotateEffects(cfg, s, step.request);
    var effects := PlanOf(cfg, s, step.request).effects;
    var c, m, w := effects[0], effects[1], effects[2];
    if step.survives == 1 {
      assert Prefix(effects, 1) == [c];
      assert ApplyAll(s, [c]) == ApplyAll(Apply(s, c), []);
    } else if step.survives == 2 {
      assert Prefix(effects, 2) == [c, m];
      ApplyTwo(s, c, m);
    } else if step.survives > 2 {
      assert Prefix(effects, step.survives) == [c, m, w];
      ApplyThree(s, c, m, w);
    }
  }

  /** A finished rotate moves the key generation down exactly when the caller it
      serves was enrolled later than the holder's last rotations. */
  lemma RotateLowersExactly(cfg: Config, s: State, step: Step)
    requires step.request.op.Rotate? && PlanOf(cfg, s, step.request).accepted && Finishes(cfg, s, step)
    ensures s.enrollment.Some? && s.enrollment.value in s.callers
    ensures Perform(cfg, s, step).keyGeneration < s.keyGeneration <==>
            s.callers[s.enrollment.value].keyGeneration + 1 < s.keyGeneration
  {
    RotateEffects(cfg, s, step.request);
    var effects := PlanOf(cfg, s, step.request).effects;
    ApplyThree(s, effects[0], effects[1], effects[2]);
    assert Prefix(effects, step.survives) == [effects[0], effects[1], effects[2]];
  }

  // Rotations between issue, authorize and execute

  /** A state reached from a finished rotation of a current caller without another
      enrollment. */
  ghost predicate RotatedSince(cfg: Config, s: State, rotate: Step, steps: seq<Step>)
  {
    && Inv(cfg, s) && CallerCurrent(s)
    && rotate.request.op.Rotate? && PlanOf(cfg, s, rotate.request).accepted && Finishes(cfg, s, rotate)
    && forall step :: step in steps ==> !step.request.op.Enroll?
  }

  lemma RotatedKey(cfg: Config, s: State, rotate: Step, steps: seq<Step>)
    requires RotatedSince(cfg, s, rotate, steps)
    ensures var t := Run(cfg, Perform(cfg, s, rotate), steps);
            Inv(cfg, t) && s.keyGeneration < t.keyGeneration
  {
    PerformKeepsInv(cfg, s, rotate);
    RunKeepsInv(cfg, Perform(cfg, s, rotate), steps);
    RotateKeepsCurrent(cfg, s, rotate);
    KeyGenerationNeverDecreases(cfg, Perform(cfg, s, rotate), steps);
  }

  /** A rotation ends the pending exact run issued before it: no continuation
      without an enrollment authorizes a run issued under the old key generation. */
  lemma RotationEndsPendingRun(cfg: Config, s: State, rotate: Step, steps: seq<Step>, step: Step)
    requires RotatedSince(cfg, s, rotate, steps)
    requires var t := Run(cfg, Perform(cfg, s, rotate), steps);
             t.pending.Some? && t.pending.value.keyGeneration <= s.keyGeneration
    ensures !Authorizes(cfg, Run(cfg, Perform(cfg, s, rotate), steps), step)
  {
    var t := Run(cfg, Perform(cfg, s, rotate), steps);
    RotatedKey(cfg, s, rotate, steps);
    if Authorizes(cfg, t, step) {
      AuthorizedRecord(cfg, t, step);
    }
  }

  /** And it ends an exact run consumed before it: no such continuation launches it
      through an exact-run execute. */
  lemma RotationEndsConsumedRun(cfg: Config, s: State, rotate: Step, steps: seq<Step>, step: Step, n: Nonce)
    requires RotatedSince(cfg, s, rotate, steps)
    requires step.request.op.ExecuteExactRun? && step.request.op.nonce == n
    requires var t := Run(cfg, Perform(cfg, s, rotate), steps);
             RecordOf(t.spent, n).Some? && RecordOf(t.spent, n).value.keyGeneration <= s.keyGeneration
    ensures !Launches(cfg, Run(cfg, Perform(cfg, s, rotate), steps), step, n)
  {
    var t := Run(cfg, Perform(cfg, s, rotate), steps);
    RotatedKey(cfg, s, rotate, steps);
    if Launches(cfg, t, step, n) {
      var e := LaunchCameFromGate(t, Prefix(PlanOf(cfg, t, step.request).effects, step.survives), n);
      StepFits(cfg, t, step.request, e);
      BoundBySession(cfg, t, RecordOf(t.spent, n).value, step.request);
    }
  }
}
