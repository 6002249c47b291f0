/** Concrete runs of a holder whose session keys do all the signing: no software
    double, no bootstrap. */
module HolderSessionWitnesses {
  import opened Wrappers
  import opened HolderRecords
  import opened HolderAuthorization
  import opened HolderPlans
  import opened HolderTheorems
  import opened HolderDevices
  import opened HolderExactRun
  import opened HolderWitnesses

  /** A signature verifies exactly under the key it equals. */
  const KEY_CONFIG := Config("holder", false, false, (a, k, m, sig) => sig == k, (m, proof) => false, k => k)

  function Doc(s: State, purpose: Purpose, policy: Policy, subject: string, signatures: map<string, Signature>): Human
  {
    Human(ExactRunSession, false, purpose, Some(policy), subject, Factors(policy), 10, false, NoLabel, signatures, "", [],
          s.generation, s.keyGeneration, "holder", "", [],
          Some(ExactRun("holder", "", [], subject, policy, s.generation, s.keyGeneration, 10)))
  }

  /** Every signing slot is live under the key its signature equals. */
  predicate Signable(s: State, policy: Policy, signatures: map<string, Signature>)
  {
    && SessionRolesHold(policy, signatures)
    && (forall role :: role in signatures ==>
          && role + "-human" in s.devices && !s.devices[role + "-human"].revoked
          && s.devices[role + "-human"].publicKey == Some(signatures[role]))
    && (policy == Local ==> "phone-human" !in s.devices)
  }

  lemma DocHolds(s: State, purpose: Purpose, policy: Policy, subject: string, signatures: map<string, Signature>)
    requires Signable(s, policy, signatures)
    ensures HumanHolds(KEY_CONFIG, s, Doc(s, purpose, policy, subject, signatures), purpose, Some(policy), subject, None, 0)
  {
    var h := Doc(s, purpose, policy, subject, signatures);
    forall role | role in h.signatures.Keys ensures SessionKeySigned(KEY_CONFIG, s.devices, policy, role, h.bound.value, h.signatures[role]) {
    }
  }

  lemma SlotNames()
    ensures SessionSlot(Mac) == "mac-human" && SessionSlot(Phone) == "phone-human"
    ensures "mac" + "-human" == "mac-human" && "phone" + "-human" == "phone-human"
    ensures "mac-human" != "phone-human" && "mac" != "phone"
  {
    assert "mac"[0] == 'm' && "phone"[0] == 'p' && "mac-human"[0] == 'm' && "phone-human"[0] == 'p';
  }

  // One step at a time

  function ChallengeOp(role: Role, nonce: Nonce): Op { IssueDeviceChallenge(role, 0, nonce, "c") }
  function SubmitOp(role: Role, key: PublicKey, generation: int, nonce: Nonce): Op
  {
    SubmitDeviceSignature(role, 0, Submission(key, key, "holder", generation, 120, nonce, "c"))
  }

  function Challenged(s: State, nonce: Nonce): State
  {
    s.(challenges := s.challenges[Mac := SlotChallenge(0, nonce, 120, s.generation, "c")])
  }

  lemma ChallengeFrom(s: State, nonce: Nonce)
    requires LoadHolds(s)
    ensures Perform(KEY_CONFIG, s, Whole(ChallengeOp(Mac, nonce))) == Challenged(s, nonce)
  {
    var w := SetChallenges(Challenged(s, nonce).challenges);
    assert ApplyAll(s, [w]) == ApplyAll(Apply(s, w), []);
  }

  lemma SubmitEffectsAre(s: State, key: PublicKey, nonce: Nonce)
    requires LoadHolds(s) && key != "" && nonce != "" && nonce !in s.deviceNonces && SlotKey(s, Phone) != Some(key)
    ensures PlanOf(KEY_CONFIG, Challenged(s, nonce), Whole(SubmitOp(Mac, key, s.generation, nonce)).request) ==
            Plan([SetChallenges(s.challenges - {Mac}), SpendDeviceNonce(nonce)] +
                 [WriteDevices(s.devices[SessionSlot(Mac) := Device(Mac, false, Some(key), P256, key, s.generation)]), WriteReceipt(None)], true)
  {
    var t, m := Challenged(s, nonce), Submission(key, key, "holder", s.generation, 120, nonce, "c");
    assert SubmissionHolds(KEY_CONFIG, t, Mac, 0, m, 0);
    assert t.challenges - {Mac} == s.challenges - {Mac};
  }

  lemma FourEffects(s: State, a: Effect, b: Effect, c: Effect, d: Effect)
    ensures ApplyAll(s, [a, b] + [c, d]) == Apply(Apply(Apply(Apply(s, a), b), c), d)
  {
    assert [a, b] + [c, d] == [a, b, c] + [d];
    ApplyAllAppend(s, [a, b, c], d);
    ApplyThree(s, a, b, c);
  }

  lemma SubmitFrom(s: State, key: PublicKey, nonce: Nonce)
    requires LoadHolds(s) && key != "" && nonce != "" && nonce !in s.deviceNonces && SlotKey(s, Phone) != Some(key)
    ensures Perform(KEY_CONFIG, Challenged(s, nonce), Whole(SubmitOp(Mac, key, s.generation, nonce))) ==
            s.(challenges := s.challenges - {Mac}, deviceNonces := s.deviceNonces + {nonce},
               devices := s.devices[SessionSlot(Mac) := Device(Mac, false, Some(key), P256, key, s.generation)], receipt := None)
  {
    SubmitEffectsAre(s, key, nonce);
    FourEffects(Challenged(s, nonce), SetChallenges(s.challenges - {Mac}), SpendDeviceNonce(nonce),
                WriteDevices(s.devices[SessionSlot(Mac) := Device(Mac, false, Some(key), P256, key, s.generation)]), WriteReceipt(None));
  }

  lemma EnrollWith(s: State, h: Human, caller: CallerId)
    requires LoadHolds(s) && caller !in s.callers && caller != "" && caller != "bootstrap"
    requires HumanHolds(KEY_CONFIG, s, h, ToEnroll, h.policy, caller, None, 0)
    ensures Perform(KEY_CONFIG, s, Whole(Enroll(caller, h))) ==
            s.(callers := s.callers[caller := Caller(false, 1)], enrollment := Some(caller))
  {
    ApplyTwo(s, WriteCallers(s.callers[caller := Caller(false, 1)]), WriteEnrollment(caller));
  }

  lemma RevokeFrom(s: State, h: Human, id: DeviceId)
    requires LoadHolds(s) && s.enrollment.Some? && s.policy.Some? && id in s.devices
    requires HumanHolds(KEY_CONFIG, s, h, ToRevoke, Some(s.policy.value.name), id, None, 0)
    ensures Perform(KEY_CONFIG, s, Whole(Revoke(id, h))) == s.(devices := s.devices[id := s.devices[id].(revoked := true)], receipt := None)
  {
    ApplyTwo(s, WriteDevices(s.devices[id := s.devices[id].(revoked := true)]), WriteReceipt(None));
  }

  lemma PairFrom(s: State, h: Human, id: DeviceId, role: Role, key: PublicKey)
    requires LoadHolds(s) && s.enrollment.Some? && s.policy.None? && id !in s.devices && key != ""
    requires HumanHolds(KEY_CONFIG, s, h, ToPair, h.policy, id, None, 0)
    ensures Perform(KEY_CONFIG, s, Whole(Pair(id, role, Some(key), P256, key, h))) ==
            s.(devices := s.devices[id := Device(role, false, Some(key), P256, key, s.generation)])
  {
    var w := WriteDevices(s.devices[id := Device(role, false, Some(key), P256, key, s.generation)]);
    assert ApplyAll(s, [w]) == ApplyAll(Apply(s, w), []);
  }

  // An enrolled holder with one session key

  const MAC_ONLY: map<string, Signature> := map["mac" := "k1"]
  const MAC_DEVICE := Device(Mac, false, Some("k1"), P256, "k1", 1)
  const KEYED := INITIAL.(devices := map["mac-human" := MAC_DEVICE], deviceNonces := {"n1"})
  const ENROLLED := KEYED.(callers := map["a" := Caller(false, 1)], enrollment := Some("a"))

  ghost function EnrollSteps(): seq<Step>
  {
    [] + [Whole(ChallengeOp(Mac, "n1"))] + [Whole(SubmitOp(Mac, "k1", 1, "n1"))] + [Whole(Enroll("a", Doc(KEYED, ToEnroll, Local, "a", MAC_ONLY)))]
  }

  lemma MacSigns(s: State)
    requires s.devices.Keys == {"mac-human"} && !s.devices["mac-human"].revoked && s.devices["mac-human"].publicKey == Some("k1")
    ensures Signable(s, Local, MAC_ONLY)
  {
    SlotNames();
  }

  lemma Enrolled()
    ensures Run(KEY_CONFIG, INITIAL, EnrollSteps()) == ENROLLED
  {
    var a, b, c := Whole(ChallengeOp(Mac, "n1")), Whole(SubmitOp(Mac, "k1", 1, "n1")), Whole(Enroll("a", Doc(KEYED, ToEnroll, Local, "a", MAC_ONLY)));
    SlotNames();
    RunSnoc(KEY_CONFIG, INITIAL, [], a);
    RunSnoc(KEY_CONFIG, INITIAL, [] + [a], b);
    RunSnoc(KEY_CONFIG, INITIAL, [] + [a] + [b], c);
    ChallengeFrom(INITIAL, "n1");
    SubmitFrom(INITIAL, "k1", "n1");
    MacSigns(KEYED);
    DocHolds(KEYED, ToEnroll, Local, "a", MAC_ONLY);
    EnrollWith(KEYED, Doc(KEYED, ToEnroll, Local, "a", MAC_ONLY), "a");
  }

  const LOCAL_KEYED := ENROLLED.(policy := Some(PolicyRecord(Local, 2)), generation := 2)

  ghost function LocalSteps(): seq<Step>
  {
    EnrollSteps() + [Whole(SetPolicy(Doc(ENROLLED, ToSetPolicy, Local, "local", MAC_ONLY)))]
  }

  lemma LocalKeyed()
    ensures Run(KEY_CONFIG, INITIAL, LocalSteps()) == LOCAL_KEYED
  {
    Enrolled();
    var h := Doc(ENROLLED, ToSetPolicy, Local, "local", MAC_ONLY);
    RunSnoc(KEY_CONFIG, INITIAL, EnrollSteps(), Whole(SetPolicy(h)));
    MacSigns(ENROLLED);
    DocHolds(ENROLLED, ToSetPolicy, Local, "local", MAC_ONLY);
    SetPolicyFrom(KEY_CONFIG, ENROLLED, h, Local);
  }

  // A revoked session key that comes back

  const REVOKED := LOCAL_KEYED.(devices := map["mac-human" := MAC_DEVICE.(revoked := true)])
  const RESUBMITTED := LOCAL_KEYED.(devices := map["mac-human" := MAC_DEVICE.(generation := 2)], deviceNonces := {"n1", "n2"})

  lemma OneDevice(a: Device, b: Device)
    ensures map["mac-human" := a]["mac-human" := b] == map["mac-human" := b]
  {
  }

  ghost function RevokeSteps(): seq<Step>
  {
    LocalSteps() + [Whole(Revoke("mac-human", Doc(LOCAL_KEYED, ToRevoke, Local, "mac-human", MAC_ONLY)))]
  }

  lemma Revoked()
    ensures Run(KEY_CONFIG, INITIAL, RevokeSteps()) == REVOKED
  {
    var revoke := Doc(LOCAL_KEYED, ToRevoke, Local, "mac-human", MAC_ONLY);
    LocalKeyed();
    RunSnoc(KEY_CONFIG, INITIAL, LocalSteps(), Whole(Revoke("mac-human", revoke)));
    MacSigns(LOCAL_KEYED);
    DocHolds(LOCAL_KEYED, ToRevoke, Local, "mac-human", MAC_ONLY);
    RevokeFrom(LOCAL_KEYED, revoke, "mac-human");
    OneDevice(MAC_DEVICE, MAC_DEVICE.(revoked := true));
  }

  ghost function AgainSteps(): seq<Step>
  {
    [Whole(ChallengeOp(Mac, "n2"))] + [Whole(SubmitOp(Mac, "k1", 2, "n2"))]
  }

  lemma Resubmitted()
    ensures Run(KEY_CONFIG, REVOKED, AgainSteps()) == RESUBMITTED
  {
    var a, b := Whole(ChallengeOp(Mac, "n2")), Whole(SubmitOp(Mac, "k1", 2, "n2"));
    RunSnoc(KEY_CONFIG, REVOKED, [], a);
    assert [] + [a] == [a];
    RunSnoc(KEY_CONFIG, REVOKED, [a], b);
    ResubmitState();
  }

  lemma ResubmitState()
    ensures Perform(KEY_CONFIG, REVOKED, Whole(ChallengeOp(Mac, "n2"))) == Challenged(REVOKED, "n2")
    ensures Perform(KEY_CONFIG, Challenged(REVOKED, "n2"), Whole(SubmitOp(Mac, "k1", 2, "n2"))) == RESUBMITTED
  {
    SlotNames();
    assert "n1"[1] != "n2"[1] && REVOKED.deviceNonces == {"n1"} && REVOKED.challenges == map[];
    ChallengeFrom(REVOKED, "n2");
    SubmitFrom(REVOKED, "k1", "n2");
    OneDevice(MAC_DEVICE.(revoked := true), MAC_DEVICE.(generation := 2));
    var none: map<Role, SlotChallenge> := map[];
    assert none - {Mac} == none;
  }

  /** After its revocation the very same key is submitted again, with no human
      authorization and no pairing, and what it signs is accepted. */
  lemma SubmissionRevivesRevokedKey() returns (before: seq<Step>, after: seq<Step>, h: Human)
    ensures var s, t := Run(KEY_CONFIG, INITIAL, before), Run(KEY_CONFIG, INITIAL, before + after);
            && "mac-human" in s.devices && s.devices["mac-human"].revoked
            && (forall step :: step in after ==> step.request.op.IssueDeviceChallenge? || step.request.op.SubmitDeviceSignature?)
            && Live(t, "mac-human") && t.devices["mac-human"].publicKey == s.devices["mac-human"].publicKey
            && h.means.ExactRunSession? && h.signatures.Keys == {"mac"}
            && HumanHolds(KEY_CONFIG, t, h, ToRevoke, Some(Local), "mac-human", None, 0)
  {
    before, after := RevokeSteps(), AgainSteps();
    Revoked();
    RunAppend(KEY_CONFIG, INITIAL, before, after);
    Resubmitted();
    h := Doc(RESUBMITTED, ToRevoke, Local, "mac-human", MAC_ONLY);
    MacSigns(RESUBMITTED);
    DocHolds(RESUBMITTED, ToRevoke, Local, "mac-human", MAC_ONLY);
  }

  // A slot paired in the other role

  const BOTH: map<string, Signature> := map["mac" := "k1", "phone" := "k2"]
  const SECOND_MAC := Device(Mac, false, Some("k2"), P256, "k2", 1)
  const MISPAIRED := ENROLLED.(devices := ENROLLED.devices["phone-human" := SECOND_MAC])
  const DUAL_MISPAIRED := MISPAIRED.(policy := Some(PolicyRecord(Dual, 2)), generation := 2)

  lemma BothSign(s: State)
    requires s.devices == MISPAIRED.devices
    ensures Signable(s, Dual, BOTH)
  {
    SlotNames();
  }

  ghost function MispairSteps(): seq<Step>
  {
    EnrollSteps() + [Whole(Pair("phone-human", Mac, Some("k2"), P256, "k2", Doc(ENROLLED, ToPair, Local, "phone-human", MAC_ONLY)))]
  }

  lemma Mispaired()
    ensures Run(KEY_CONFIG, INITIAL, MispairSteps()) == MISPAIRED
  {
    var pair := Doc(ENROLLED, ToPair, Local, "phone-human", MAC_ONLY);
    Enrolled();
    SlotNames();
    RunSnoc(KEY_CONFIG, INITIAL, EnrollSteps(), Whole(Pair("phone-human", Mac, Some("k2"), P256, "k2", pair)));
    MacSigns(ENROLLED);
    DocHolds(ENROLLED, ToPair, Local, "phone-human", MAC_ONLY);
    PairFrom(ENROLLED, pair, "phone-human", Mac, "k2");
  }

  ghost function DualSteps(): seq<Step>
  {
    MispairSteps() + [Whole(SetPolicy(Doc(MISPAIRED, ToSetPolicy, Dual, "dual", BOTH)))]
  }

  lemma DualMispaired()
    ensures Run(KEY_CONFIG, INITIAL, DualSteps()) == DUAL_MISPAIRED
  {
    var dual := Doc(MISPAIRED, ToSetPolicy, Dual, "dual", BOTH);
    Mispaired();
    RunSnoc(KEY_CONFIG, INITIAL, MispairSteps(), Whole(SetPolicy(dual)));
    BothSign(MISPAIRED);
    DocHolds(MISPAIRED, ToSetPolicy, Dual, "dual", BOTH);
    SetPolicyFrom(KEY_CONFIG, MISPAIRED, dual, Dual);
  }

  lemma DropStep()
    ensures Perform(KEY_CONFIG, DUAL_MISPAIRED, Whole(SetPolicy(Doc(DUAL_MISPAIRED, ToSetPolicy, Dual, "local", BOTH)))).policy ==
            Some(PolicyRecord(Local, 3))
  {
    BothSign(DUAL_MISPAIRED);
    DocHolds(DUAL_MISPAIRED, ToSetPolicy, Dual, "local", BOTH);
    SetPolicyFrom(KEY_CONFIG, DUAL_MISPAIRED, Doc(DUAL_MISPAIRED, ToSetPolicy, Dual, "local", BOTH), Local);
  }

  /** A reachable holder under the dual policy without any device paired as a phone:
      a session drops the phone factor, and no device of that role signed it. */
  lemma MispairedSlotDropsFactor() returns (before: seq<Step>, drop: Step)
    ensures var s := Run(KEY_CONFIG, INITIAL, before);
            && s.policy == Some(PolicyRecord(Dual, s.generation)) && Phone in Factors(Dual)
            && (forall id :: id in s.devices ==> s.devices[id].role == Mac)
            && var t := Perform(KEY_CONFIG, s, drop);
            && t.policy.Some? && t.policy.value.name == Local
            && SetPolicyAuthorizedBy(KEY_CONFIG, s, drop, Phone) && !SetPolicySignedBy(KEY_CONFIG, s, drop, Phone)
  {
    before, drop := DualSteps(), Whole(SetPolicy(Doc(DUAL_MISPAIRED, ToSetPolicy, Dual, "local", BOTH)));
    DualMispaired();
    DropStep();
    PolicyChangeAuthorizedByOldFactors(KEY_CONFIG, DUAL_MISPAIRED, drop, Phone);
    PolicyChangeSignedExactly(KEY_CONFIG, DUAL_MISPAIRED, drop, Phone);
  }

  // An exact run from issue to launch

  const BOUND := ExactRun("holder", "digest", ["/bin/x"], "n", Local, 2, 1, 120)
  const ISSUED := LOCAL_KEYED.(pending := Some(Pending(0, "n", "digest", ["/bin/x"], "", BOUND, Local, 2, 1, 120)), history := [Issued(BOUND)])
  const EXACT_RECORD := SpentRecord("n", "digest", ["/bin/x"], "", Local, 2, 1, Some(Session(BOUND, 120)))
  const AUTHORIZED := LOCAL_KEYED.(spent := [EXACT_RECORD], lease := Some(UncertainLease("n")), history := [Issued(BOUND)])

  const ISSUE := Whole(IssueExactRun(0, "n", Local, Binding(["/bin/x"], 1, ""), Some("digest")))
  const AUTHORIZE := Whole(AuthorizeExactRun(0, None, None, MAC_ONLY))
  const LAUNCH := Whole(ExecuteExactRun("n", MAC_ONLY, Some(["/bin/x"]), SpawnedChild(7, GoWritten, false, NO_WATCH)))

  lemma IssueStep()
    ensures Perform(KEY_CONFIG, LOCAL_KEYED, ISSUE) == ISSUED
  {
    var w := Remember(ISSUED.pending.value);
    assert PlanOf(KEY_CONFIG, LOCAL_KEYED, ISSUE.request).effects == [w];
    assert ApplyAll(LOCAL_KEYED, [w]) == ApplyAll(Apply(LOCAL_KEYED, w), []);
  }

  lemma SessionHumanHolds(s: State, purpose: Purpose)
    requires s.devices == LOCAL_KEYED.devices && s.generation == 2 && s.keyGeneration == 1
    ensures var h := SessionHuman(KEY_CONFIG, purpose, "n", Local, 120, 2, 1, "digest", ["/bin/x"], BOUND, MAC_ONLY);
            HumanHolds(KEY_CONFIG, s, h, purpose, Some(Local), "n", Some(Authorized("digest", ["/bin/x"], "")), 0)
  {
    var h := SessionHuman(KEY_CONFIG, purpose, "n", Local, 120, 2, 1, "digest", ["/bin/x"], BOUND, MAC_ONLY);
    SlotNames();
    forall role | role in h.signatures.Keys ensures SessionKeySigned(KEY_CONFIG, s.devices, Local, role, BOUND, h.signatures[role]) {
      assert role == "mac";
    }
    assert h.bound == Some(ExactRunMessage(h, "n", Local));
  }

  lemma ConsumeAdmitted()
    ensures var h := SessionHuman(KEY_CONFIG, ToConsume, "n", Local, 120, 2, 1, "digest", ["/bin/x"], BOUND, MAC_ONLY);
            ConsumeAdmits(KEY_CONFIG, ISSUED, "n", Local, h, Binding(["/bin/x"], 1, ""), Some("digest"), 0, true)
  {
    SessionHumanHolds(ISSUED, ToConsume);
    assert ISSUED.devices["mac-human"].role == Mac && !ISSUED.devices["mac-human"].revoked;
  }

  lemma AuthorizeEffects()
    ensures PlanOf(KEY_CONFIG, ISSUED, AUTHORIZE.request).effects == [WriteSpent(EXACT_RECORD), WriteLease(UncertainLease("n"))] + [Forget]
  {
    ConsumeAdmitted();
    assert PlanOf(KEY_CONFIG, ISSUED, AUTHORIZE.request) == PendingPlan(KEY_CONFIG, ISSUED, ISSUED.pending.value, MAC_ONLY, 0);
  }

  lemma AuthorizeStep()
    ensures Perform(KEY_CONFIG, ISSUED, AUTHORIZE) == AUTHORIZED
  {
    AuthorizeEffects();
    var w, l := WriteSpent(EXACT_RECORD), WriteLease(UncertainLease("n"));
    assert [w, l] + [Forget] == [w, l, Forget];
    ApplyThree(ISSUED, w, l, Forget);
  }

  lemma LaunchAdmitted()
    ensures RecordOf(AUTHORIZED.spent, "n") == Some(EXACT_RECORD)
    ensures ExecuteAdmits(KEY_CONFIG, AUTHORIZED, "n", ExecuteHuman(KEY_CONFIG, EXACT_RECORD, MAC_ONLY), Some(["/bin/x"]), 0, true)
  {
    SessionHumanHolds(AUTHORIZED, ToExecute);
  }

  lemma LaunchStep()
    ensures Launches(KEY_CONFIG, AUTHORIZED, LAUNCH, "n")
  {
    LaunchAdmitted();
    var effects := PlanOf(KEY_CONFIG, AUTHORIZED, LAUNCH.request).effects;
    var open := OpenGate(Launch("n", "digest", ["/bin/x"], 2, 1));
    assert effects[1] == open && open in effects;
    GateIsRecorded(AUTHORIZED, effects, open);
  }

  /** A run in which a pending exact run is authorized and then launched. */
  lemma ExactRunLaunches() returns (before: seq<Step>, auth: Step, exec: Step)
    ensures var s := Run(KEY_CONFIG, INITIAL, before);
            && Authorizes(KEY_CONFIG, s, auth)
            && exec.request.op.ExecuteExactRun? && s.pending.Some? && s.pending.value.nonce == exec.request.op.nonce
            && Launches(KEY_CONFIG, Run(KEY_CONFIG, INITIAL, before + [auth] + []), exec, exec.request.op.nonce)
  {
    before, auth, exec := LocalSteps() + [ISSUE], AUTHORIZE, LAUNCH;
    LocalKeyed();
    RunSnoc(KEY_CONFIG, INITIAL, LocalSteps(), ISSUE);
    IssueStep();
    RunSnoc(KEY_CONFIG, INITIAL, before, auth);
    AuthorizeStep();
    assert before + [auth] + [] == before + [auth];
    LaunchStep();
  }
}
