/** Concrete runs for two promises the holder keeps only under a condition. */
module HolderWitnesses {
  import opened Wrappers
  import opened HolderRecords
  import opened HolderAuthorization
  import opened HolderPlans
  import opened HolderInvariant
  import opened HolderTheorems
  import opened HolderExactRun

  /** A holder that accepts the software stand-in and verifies no signature. */
  const DOUBLE_CONFIG := Config("holder", false, true, (a, k, m, sig) => false, (m, proof) => false, k => k)

  function DoubleHuman(purpose: Purpose, subject: string): Human
  {
    Human(TestDouble, false, purpose, Some(Local), subject, Factors(Local), 10, false, NoLabel, map[], "", [], 0, 0, "", "", [], None)
  }

  function Whole(op: Op): Step
  {
    Step(Request(op, 0, true), 9, false)
  }

  lemma RunSnoc(cfg: Config, s: State, steps: seq<Step>, step: Step)
    ensures Run(cfg, s, steps + [step]) == Perform(cfg, Run(cfg, s, steps), step)
  {
    RunAppend(cfg, s, steps, [step]);
    assert Run(cfg, Run(cfg, s, steps), [step]) == Run(cfg, Perform(cfg, Run(cfg, s, steps), step), []);
  }

  function EnrollOp(caller: CallerId): Op { Enroll(caller, DoubleHuman(ToEnroll, caller)) }
  function RotateOp(caller: CallerId): Op { Rotate(DoubleHuman(ToRotate, caller)) }

  lemma EnrollFrom(s: State, caller: CallerId)
    requires LoadHolds(s) && caller !in s.callers && caller != "" && caller != "bootstrap"
    ensures Perform(DOUBLE_CONFIG, s, Whole(EnrollOp(caller))) ==
            s.(callers := s.callers[caller := Caller(false, 1)], enrollment := Some(caller))
  {
    ApplyTwo(s, WriteCallers(s.callers[caller := Caller(false, 1)]), WriteEnrollment(caller));
  }

  lemma RotateFrom(s: State, caller: CallerId)
    requires LoadHolds(s) && s.enrollment == Some(caller) && caller in s.callers && !s.callers[caller].revoked
    ensures PlanOf(DOUBLE_CONFIG, s, Whole(RotateOp(caller)).request).accepted
    ensures Finishes(DOUBLE_CONFIG, s, Whole(RotateOp(caller)))
    ensures var next := s.callers[caller].keyGeneration + 1;
            Perform(DOUBLE_CONFIG, s, Whole(RotateOp(caller))) ==
            s.(callers := s.callers[caller := Caller(false, next)], keyGeneration := next, receipt := None)
  {
    var next := s.callers[caller].keyGeneration + 1;
    ApplyThree(s, WriteCallers(s.callers[caller := Caller(false, next)]), WriteMeta(s.generation, next), WriteReceipt(None));
  }

  /** A second enrollment between two rotations: the second accepted rotation leaves
      the key generation where it was, so it ends nothing issued under it. */
  lemma RotationCanKeepKeyGeneration() returns (before: seq<Step>, rotate: Step)
    ensures var s := Run(DOUBLE_CONFIG, INITIAL, before);
            && rotate.request.op.Rotate? && Finishes(DOUBLE_CONFIG, s, rotate)
            && PlanOf(DOUBLE_CONFIG, s, rotate.request).accepted
            && 1 < s.keyGeneration
            && Perform(DOUBLE_CONFIG, s, rotate).keyGeneration == s.keyGeneration
  {
    var first, second, third := Whole(EnrollOp("a")), Whole(RotateOp("a")), Whole(EnrollOp("b"));
    before := [] + [first] + [second] + [third];
    rotate := Whole(RotateOp("b"));
    RunSnoc(DOUBLE_CONFIG, INITIAL, [], first);
    RunSnoc(DOUBLE_CONFIG, INITIAL, [] + [first], second);
    RunSnoc(DOUBLE_CONFIG, INITIAL, [] + [first] + [second], third);
    EnrollFrom(INITIAL, "a");
    var s1 := Perform(DOUBLE_CONFIG, INITIAL, first);
    RotateFrom(s1, "a");
    var s2 := Perform(DOUBLE_CONFIG, s1, second);
    EnrollFrom(s2, "b");
    RotateFrom(Perform(DOUBLE_CONFIG, s2, third), "b");
  }

  lemma SetPolicyFrom(cfg: Config, s: State, h: Human, destination: Policy)
    requires LoadHolds(s) && s.enrollment.Some? && PolicyNamed(h.subject) == Some(destination)
    requires HumanHolds(cfg, s, h, ToSetPolicy, Some(MutationPolicy(s, destination)), PolicyName(destination), None, 0)
    ensures PlanOf(cfg, s, Whole(SetPolicy(h)).request).accepted
    ensures Perform(cfg, s, Whole(SetPolicy(h))) ==
            s.(policy := Some(PolicyRecord(destination, s.generation + 1)), generation := s.generation + 1, receipt := None)
  {
    ApplyThree(s, WritePolicy(PolicyRecord(destination, s.generation + 1)), WriteMeta(s.generation + 1, s.keyGeneration), WriteReceipt(None));
  }

  // The gate that opens and then fails to close

  const ONE_CALLER := INITIAL.(callers := map["a" := Caller(false, 1)], enrollment := Some("a"))
  const LOCAL_POLICY := ONE_CALLER.(policy := Some(PolicyRecord(Local, 2)), generation := 2)

  function ConsumeOp(nonce: Nonce): Op
  {
    Consume(nonce, Local, DoubleHuman(ToConsume, nonce), Binding(["/bin/x"], 1, ""), Some("digest"))
  }

  function RecordFor(nonce: Nonce): SpentRecord
  {
    SpentRecord(nonce, "digest", ["/bin/x"], "", Local, 2, 1, None)
  }

  const NO_WATCH := Watch(None, [], None, false, false, false, false, {}, false, false, {}, false)
  const OPEN_LAUNCH := Launch("n", "digest", ["/bin/x"], 2, 1)
  const CLOSE_FAILS_OP := Execute("n", DoubleHuman(ToExecute, "n"), Some(["/bin/x"]), SpawnedChild(7, CloseFailed, true, NO_WATCH))
  const REAPED := Lease(false, "n", SpawnFailed, None, false)
  const AFTER_CLOSE := LOCAL_POLICY.(spent := [RecordFor("n")], lease := Some(REAPED),
                                   history := [Launched(OPEN_LAUNCH), Freed("n", ReapedChild(7, true))])

  lemma PolicySet()
    ensures Perform(DOUBLE_CONFIG, ONE_CALLER, Whole(SetPolicy(DoubleHuman(ToSetPolicy, "local")))) == LOCAL_POLICY
  {
    SetPolicyFrom(DOUBLE_CONFIG, ONE_CALLER, DoubleHuman(ToSetPolicy, "local"), Local);
  }

  lemma ConsumeFrom(s: State, nonce: Nonce)
    requires s.policy == Some(PolicyRecord(Local, 2)) && s.generation == 2 && s.keyGeneration == 1
    requires !LeaseHeld(s) && nonce != "" && RecordOf(s.spent, nonce).None?
    ensures PlanOf(DOUBLE_CONFIG, s, Whole(ConsumeOp(nonce)).request).accepted
    ensures Perform(DOUBLE_CONFIG, s, Whole(ConsumeOp(nonce))) ==
            s.(spent := s.spent + [RecordFor(nonce)], lease := Some(UncertainLease(nonce)))
  {
    assert ConsumeAdmits(DOUBLE_CONFIG, s, nonce, Local, DoubleHuman(ToConsume, nonce), Binding(["/bin/x"], 1, ""), Some("digest"), 0, true);
    ApplyTwo(s, WriteSpent(RecordFor(nonce)), WriteLease(UncertainLease(nonce)));
  }

  const BEFORE_CLOSE := LOCAL_POLICY.(spent := [RecordFor("n")], lease := Some(UncertainLease("n")))

  lemma BeforeCloseAdmits()
    ensures RecordOf(BEFORE_CLOSE.spent, "n") == Some(RecordFor("n"))
    ensures AdmittedBy(DOUBLE_CONFIG, BEFORE_CLOSE, Whole(CLOSE_FAILS_OP).request, "n")
  {
    assert ExecuteAdmits(DOUBLE_CONFIG, BEFORE_CLOSE, "n", DoubleHuman(ToExecute, "n"), Some(["/bin/x"]), 0, true);
  }

  lemma CloseFails()
    ensures Perform(DOUBLE_CONFIG, BEFORE_CLOSE, Whole(CLOSE_FAILS_OP)) == AFTER_CLOSE
  {
    BeforeCloseAdmits();
    ReapOpenedEffects(DOUBLE_CONFIG, BEFORE_CLOSE, Whole(CLOSE_FAILS_OP).request, "n");
    ApplyThree(BEFORE_CLOSE, WriteLease(RunningLease("n", None)), OpenGate(OPEN_LAUNCH), FreeLease(REAPED, ReapedChild(7, true)));
  }

  const SETUP_STEPS := [] + [Whole(EnrollOp("a"))] + [Whole(SetPolicy(DoubleHuman(ToSetPolicy, "local")))]
  const CLOSE_STEPS := SETUP_STEPS + [Whole(ConsumeOp("n"))] + [Whole(CLOSE_FAILS_OP)]

  lemma SetupRun()
    ensures Run(DOUBLE_CONFIG, INITIAL, SETUP_STEPS) == LOCAL_POLICY
  {
    var first, second := Whole(EnrollOp("a")), Whole(SetPolicy(DoubleHuman(ToSetPolicy, "local")));
    RunSnoc(DOUBLE_CONFIG, INITIAL, [], first);
    RunSnoc(DOUBLE_CONFIG, INITIAL, [] + [first], second);
    EnrollFrom(INITIAL, "a");
    PolicySet();
  }

  lemma CloseRun()
    ensures Run(DOUBLE_CONFIG, INITIAL, CLOSE_STEPS) == AFTER_CLOSE
  {
    SetupRun();
    RunSnoc(DOUBLE_CONFIG, INITIAL, SETUP_STEPS, Whole(ConsumeOp("n")));
    RunSnoc(DOUBLE_CONFIG, INITIAL, SETUP_STEPS + [Whole(ConsumeOp("n"))], Whole(CLOSE_FAILS_OP));
    ConsumeFrom(LOCAL_POLICY, "n");
    assert LOCAL_POLICY.spent + [RecordFor("n")] == [RecordFor("n")];
    CloseFails();
  }

  lemma UnaccountedAfterClose()
    ensures HasLaunched(AFTER_CLOSE.history, "n") && !LeaseHeld(AFTER_CLOSE)
    ensures !Discharged(AFTER_CLOSE.history, "n") && ReapedAfterOpen(AFTER_CLOSE.history, "n")
    ensures RecordOf(AFTER_CLOSE.spent, "m").None?
  {
    assert AFTER_CLOSE.history[0] == Launched(OPEN_LAUNCH);
    assert AFTER_CLOSE.history[1] == Freed("n", ReapedChild(7, true));
    assert RecordOf(AFTER_CLOSE.spent, "m") == RecordOf(AFTER_CLOSE.spent[1..], "m");
  }

  /** A reachable state in which a payload was launched, its lease is free, its tree
      was never accounted for, and a consume is accepted all the same. */
  lemma CloseFailureFreesUnaccounted() returns (before: seq<Step>, next: Step)
    ensures var s := Run(DOUBLE_CONFIG, INITIAL, before);
            && HasLaunched(s.history, "n") && !LeaseHeld(s)
            && !Discharged(s.history, "n") && ReapedAfterOpen(s.history, "n")
            && next.request.op.Consume? && PlanOf(DOUBLE_CONFIG, s, next.request).accepted
  {
    before := CLOSE_STEPS;
    next := Whole(ConsumeOp("m"));
    CloseRun();
    UnaccountedAfterClose();
    ConsumeFrom(AFTER_CLOSE, "m");
  }
}
