/** Honest runs go through: what live devices or session keys sign for a payload is
    consumed and launched, and nothing else is. */
module HolderHonestRuns {
  import opened Wrappers
  import opened ProcessTree
  import opened HolderRecords
  import opened HolderAuthorization
  import opened HolderPlans
  import opened HolderInvariant
  import opened HolderTheorems
  import opened HolderExactRun
  import opened HolderWitnesses
  import opened HolderDocuments
  import opened HolderLaws
  import opened HolderSlotLaws

  /** A step that is admitted and not cut. */
  function At(op: Op, now: int): Step
  {
    Step(Request(op, now, true), 9, false)
  }

  /** A free lease, the policy in force, and a nonce never spent. */
  ghost predicate ReadyFor(cfg: Config, s: State, policy: Policy, nonce: Nonce, digest: Digest)
  {
    && s.policy == Some(PolicyRecord(policy, s.generation)) && (s.lease.Some? ==> !s.lease.value.held)
    && nonce != "" && (forall r :: r in s.spent ==> r.nonce != nonce) && digest != cfg.holderId
  }

  function Consumed(s: State, r: SpentRecord): State
  {
    s.(spent := s.spent + [r], lease := Some(Lease(true, r.nonce, Uncertain, None, false)))
  }

  lemma ConsumedRecordIsFound(s: State, r: SpentRecord)
    requires forall x :: x in s.spent ==> x.nonce != r.nonce
    ensures RecordOf(Consumed(s, r).spent, r.nonce) == Some(r)
  {
    RecordOfAppend(s.spent, r, r.nonce);
    RecordIsFirst(s.spent, r.nonce);
  }

  // With device signatures

  lemma DeviceConsume(cfg: Config, s: State, signers: set<DeviceId>, a: Algorithm, sign: (PublicKey, Message) -> Signature,
                      policy: Policy, nonce: Nonce, binding: Binding, digest: Digest, now: int)
    requires Honest(cfg, a, sign) && CanSign(s, signers, a, policy) && ReadyFor(cfg, s, policy, nonce, digest)
    requires binding.keyGeneration == s.keyGeneration && binding.launchArgv != [] && 0 <= now
    ensures var authorized := Some(Authorized(digest, binding.launchArgv, binding.terms));
            var h := DeviceDocument(cfg, s, signers, a, sign, ToConsume, policy, nonce, authorized, now + 1);
            && PlanOf(cfg, s, Request(Consume(nonce, policy, h, binding, Some(digest)), now, true)).accepted
            && Perform(cfg, s, At(Consume(nonce, policy, h, binding, Some(digest)), now)) ==
               Consumed(s, SpentRecord(nonce, digest, binding.launchArgv, binding.terms, policy, s.generation, s.keyGeneration, None))
  {
    var authorized := Some(Authorized(digest, binding.launchArgv, binding.terms));
    var h := DeviceDocument(cfg, s, signers, a, sign, ToConsume, policy, nonce, authorized, now + 1);
    var step := At(Consume(nonce, policy, h, binding, Some(digest)), now);
    DeviceDocumentAccepted(cfg, s, signers, a, sign, ToConsume, policy, nonce, authorized, now + 1, now);
    ConsumeAcceptedExactly(cfg, s, step.request);
    ConsumeLeaves(cfg, s, step);
  }

  lemma DeviceExecuteAdmitted(cfg: Config, t: State, signers: set<DeviceId>, a: Algorithm, sign: (PublicKey, Message) -> Signature,
                              policy: Policy, r: SpentRecord, spawn: Spawn, now: int)
    requires Honest(cfg, a, sign) && CanSign(t, signers, a, policy) && 0 <= now
    requires t.policy.Some? ==> t.policy.value.generation == t.generation
    requires t.lease == Some(Lease(true, r.nonce, Uncertain, None, false)) && RecordOf(t.spent, r.nonce) == Some(r)
    ensures var authorized := Some(Authorized(r.payloadDigest, r.launchArgv, r.terms));
            var h := DeviceDocument(cfg, t, signers, a, sign, ToExecute, policy, r.nonce, authorized, now + 1);
            AdmittedBy(cfg, t, At(Execute(r.nonce, h, Some(r.launchArgv), spawn), now).request, r.nonce)
  {
    var authorized := Some(Authorized(r.payloadDigest, r.launchArgv, r.terms));
    var h := DeviceDocument(cfg, t, signers, a, sign, ToExecute, policy, r.nonce, authorized, now + 1);
    DeviceDocumentAccepted(cfg, t, signers, a, sign, ToExecute, policy, r.nonce, authorized, now + 1, now);
    ExecuteAdmittedExactly(cfg, t, At(Execute(r.nonce, h, Some(r.launchArgv), spawn), now).request);
  }

  /** From any state ready for it, live devices of the policy's roles consume and launch
      exactly the payload they signed, and the lease is free again when its watch
      accounts for it. */
  lemma DeviceRunCompletes(cfg: Config, s: State, signers: set<DeviceId>, a: Algorithm, sign: (PublicKey, Message) -> Signature,
                           policy: Policy, nonce: Nonce, binding: Binding, digest: Digest, spawn: Spawn, now: int)
    returns (consume: Step, execute: Step)
    requires Honest(cfg, a, sign) && CanSign(s, signers, a, policy) && ReadyFor(cfg, s, policy, nonce, digest)
    requires binding.keyGeneration == s.keyGeneration && binding.launchArgv != [] && 0 <= now
    requires spawn.SpawnedChild? && spawn.gate == GoWritten && Accounted(spawn.pid, spawn.watch)
    ensures consume.request.op.Consume? && consume.request.op.human.means == DeviceMethod(policy) && PlanOf(cfg, s, consume.request).accepted
    ensures execute.request.op.Execute? && execute.request.op.human.means == DeviceMethod(policy)
    ensures var r := SpentRecord(nonce, digest, binding.launchArgv, binding.terms, policy, s.generation, s.keyGeneration, None);
            Run(cfg, s, [consume, execute]) ==
            s.(spent := s.spent + [r],
               lease := Some(Lease(false, nonce, if spawn.watch.timedOut then TimedOut else Exited, Some(spawn.pid), true)),
               history := s.history + [Launched(Launch(nonce, digest, binding.launchArgv, s.generation, s.keyGeneration))] +
                          [Freed(nonce, ObservedExit(spawn.pid, spawn.watch))])
  {
    var r := SpentRecord(nonce, digest, binding.launchArgv, binding.terms, policy, s.generation, s.keyGeneration, None);
    var authorized := Some(Authorized(digest, binding.launchArgv, binding.terms));
    var t := Consumed(s, r);
    consume := At(Consume(nonce, policy, DeviceDocument(cfg, s, signers, a, sign, ToConsume, policy, nonce, authorized, now + 1), binding, Some(digest)), now);
    execute := At(Execute(nonce, DeviceDocument(cfg, t, signers, a, sign, ToExecute, policy, nonce, authorized, now + 1), Some(binding.launchArgv), spawn), now);
    DeviceConsume(cfg, s, signers, a, sign, policy, nonce, binding, digest, now);
    ConsumedRecordIsFound(s, r);
    DeviceExecuteAdmitted(cfg, t, signers, a, sign, policy, r, spawn, now);
    ExecuteFinishes(cfg, t, execute, nonce);
    AccountedLaw(cfg, t, execute, nonce);
    RunTwo(cfg, s, consume, execute);
  }

  lemma ExecuteFinishes(cfg: Config, s: State, step: Step, n: Nonce)
    requires AdmittedBy(cfg, s, step.request, n) && step.survives == 9
    requires step.request.op.spawn.SpawnedChild? && step.request.op.spawn.gate == GoWritten
    ensures Finishes(cfg, s, step)
  {
    SupervisedEffects(cfg, s, step.request, n);
  }

  lemma RunTwo(cfg: Config, s: State, a: Step, b: Step)
    ensures Run(cfg, s, [a, b]) == Perform(cfg, Perform(cfg, s, a), b)
  {
    assert [a, b][1..] == [b];
    assert Run(cfg, Perform(cfg, s, a), [b]) == Run(cfg, Perform(cfg, Perform(cfg, s, a), b), []);
  }

  // With session keys

  /** A live device is paired in every role of the policy. */
  predicate RolesLive(s: State, policy: Policy)
  {
    && (policy != Companion ==> exists id :: id in s.devices && !s.devices[id].revoked && s.devices[id].role == Mac)
    && (policy != Local ==> exists id :: id in s.devices && !s.devices[id].revoked && s.devices[id].role == Phone)
  }

  function BoundOf(cfg: Config, s: State, policy: Policy, nonce: Nonce, argv: Argv, digest: Digest, expiry: int): Message
  {
    ExactRun(cfg.holderId, digest, argv, nonce, policy, s.generation, s.keyGeneration, expiry)
  }

  function ExactRecord(cfg: Config, s: State, policy: Policy, nonce: Nonce, binding: Binding, digest: Digest, expiry: int): SpentRecord
  {
    SpentRecord(nonce, digest, binding.launchArgv, binding.terms, policy, s.generation, s.keyGeneration,
                Some(Session(BoundOf(cfg, s, policy, nonce, binding.launchArgv, digest, expiry), expiry)))
  }

  function IssuedState(cfg: Config, s: State, peer: int, policy: Policy, nonce: Nonce, binding: Binding, digest: Digest, expiry: int): State
  {
    var bound := BoundOf(cfg, s, policy, nonce, binding.launchArgv, digest, expiry);
    s.(pending := Some(Pending(peer, nonce, digest, binding.launchArgv, binding.terms, bound, policy, s.generation, s.keyGeneration, expiry)),
       history := s.history + [Issued(bound)])
  }

  lemma ExactConsumeAccepted(cfg: Config, t: State, sign: (PublicKey, Message) -> Signature, policy: Policy, nonce: Nonce,
                             binding: Binding, digest: Digest, expiry: int, now: int)
    requires Honest(cfg, P256, sign) && SlotsReady(t, policy) && RolesLive(t, policy) && !cfg.installed
    requires ReadyFor(cfg, t, policy, nonce, digest)
    requires binding.keyGeneration == t.keyGeneration && binding.launchArgv != [] && 0 <= expiry && now < expiry
    ensures var h := SessionDocument(cfg, t, sign, ToConsume, policy, nonce, digest, binding.launchArgv, expiry);
            PlanOf(cfg, t, Request(Consume(nonce, policy, h, binding, Some(digest)), now, true)) ==
            Plan([WriteSpent(ExactRecord(cfg, t, policy, nonce, binding, digest, expiry)), WriteLease(Lease(true, nonce, Uncertain, None, false))], true)
  {
    var h := SessionDocument(cfg, t, sign, ToConsume, policy, nonce, digest, binding.launchArgv, expiry);
    SessionDocumentAccepted(cfg, t, sign, ToConsume, policy, nonce, digest, binding.launchArgv,
                            Some(Authorized(digest, binding.launchArgv, binding.terms)), expiry, now);
    ConsumeAcceptedExactly(cfg, t, Request(Consume(nonce, policy, h, binding, Some(digest)), now, true));
  }

  lemma ConsumedThenForgotten(t: State, r: SpentRecord)
    ensures ApplyAll(t, [WriteSpent(r), WriteLease(Lease(true, r.nonce, Uncertain, None, false))] + [Forget]) == Consumed(t, r).(pending := None)
  {
    var w, l := WriteSpent(r), WriteLease(Lease(true, r.nonce, Uncertain, None, false));
    ApplyAllAppend(t, [w, l], Forget);
    ApplyTwo(t, w, l);
  }

  lemma ExactAuthorize(cfg: Config, t: State, sign: (PublicKey, Message) -> Signature, now: int)
    requires t.pending.Some?
    requires var p := t.pending.value;
             && Honest(cfg, P256, sign) && SlotsReady(t, p.policy) && RolesLive(t, p.policy) && !cfg.installed
             && ReadyFor(cfg, t, p.policy, p.nonce, p.payloadDigest)
             && p.generation == t.generation && p.keyGeneration == t.keyGeneration && p.launchArgv != [] && 0 <= p.expiry && now < p.expiry
             && p.bound == BoundOf(cfg, t, p.policy, p.nonce, p.launchArgv, p.payloadDigest, p.expiry)
    ensures var p := t.pending.value;
            Perform(cfg, t, At(AuthorizeExactRun(p.peer, None, None, SlotSignatures(t, sign, p.policy, p.bound)), now)) ==
            Consumed(t, ExactRecord(cfg, t, p.policy, p.nonce, Binding(p.launchArgv, t.keyGeneration, p.terms), p.payloadDigest, p.expiry)).(pending := None)
  {
    var p := t.pending.value;
    var q := At(AuthorizeExactRun(p.peer, None, None, SlotSignatures(t, sign, p.policy, p.bound)), now).request;
    var binding := Binding(p.launchArgv, t.keyGeneration, p.terms);
    SlotSignaturesHold(cfg, t, sign, p.policy, p.bound);
    ExactConsumeAccepted(cfg, t, sign, p.policy, p.nonce, binding, p.payloadDigest, p.expiry, now);
    AuthorizationIsConsume(cfg, t, q);
    ConsumedThenForgotten(t, ExactRecord(cfg, t, p.policy, p.nonce, binding, p.payloadDigest, p.expiry));
    FinishedIs(cfg, t, At(q.op, now));
  }

  lemma ExactExecuteAdmitted(cfg: Config, t: State, sign: (PublicKey, Message) -> Signature, r: SpentRecord, spawn: Spawn, now: int)
    requires Honest(cfg, P256, sign) && SlotsReady(t, r.policy) && !cfg.installed
    requires t.policy.Some? ==> t.policy.value.generation == t.generation
    requires t.lease == Some(Lease(true, r.nonce, Uncertain, None, false)) && RecordOf(t.spent, r.nonce) == Some(r)
    requires r.session.Some? && r.generation == t.generation && r.keyGeneration == t.keyGeneration
    requires r.session.value.bound == BoundOf(cfg, t, r.policy, r.nonce, r.launchArgv, r.payloadDigest, r.session.value.expiry)
    requires 0 <= r.session.value.expiry && now < r.session.value.expiry
    ensures var sg := SlotSignatures(t, sign, r.policy, r.session.value.bound);
            AdmittedBy(cfg, t, At(ExecuteExactRun(r.nonce, sg, Some(r.launchArgv), spawn), now).request, r.nonce)
  {
    var sg := SlotSignatures(t, sign, r.policy, r.session.value.bound);
    SessionDocumentAccepted(cfg, t, sign, ToExecute, r.policy, r.nonce, r.payloadDigest, r.launchArgv,
                            Some(Authorized(r.payloadDigest, r.launchArgv, r.terms)), r.session.value.expiry, now);
    ExecuteExactAdmittedExactly(cfg, t, At(ExecuteExactRun(r.nonce, sg, Some(r.launchArgv), spawn), now).request);
  }

  lemma ExactExecute(cfg: Config, t: State, sign: (PublicKey, Message) -> Signature, r: SpentRecord, spawn: Spawn, now: int)
    requires Honest(cfg, P256, sign) && SlotsReady(t, r.policy) && !cfg.installed
    requires t.policy.Some? ==> t.policy.value.generation == t.generation
    requires t.lease == Some(Lease(true, r.nonce, Uncertain, None, false)) && RecordOf(t.spent, r.nonce) == Some(r)
    requires r.session.Some? && r.generation == t.generation && r.keyGeneration == t.keyGeneration
    requires r.session.value.bound == BoundOf(cfg, t, r.policy, r.nonce, r.launchArgv, r.payloadDigest, r.session.value.expiry)
    requires 0 <= r.session.value.expiry && now < r.session.value.expiry
    requires spawn.SpawnedChild? && spawn.gate == GoWritten && Accounted(spawn.pid, spawn.watch)
    ensures var sg := SlotSignatures(t, sign, r.policy, r.session.value.bound);
            Perform(cfg, t, At(ExecuteExactRun(r.nonce, sg, Some(r.launchArgv), spawn), now)) ==
            t.(lease := Some(Lease(false, r.nonce, if spawn.watch.timedOut then TimedOut else Exited, Some(spawn.pid), true)),
               history := t.history + [Launched(Launch(r.nonce, r.payloadDigest, r.launchArgv, t.generation, t.keyGeneration))] +
                          [Freed(r.nonce, ObservedExit(spawn.pid, spawn.watch))])
  {
    var step := At(ExecuteExactRun(r.nonce, SlotSignatures(t, sign, r.policy, r.session.value.bound), Some(r.launchArgv), spawn), now);
    ExactExecuteAdmitted(cfg, t, sign, r, spawn, now);
    ExecuteFinishes(cfg, t, step, r.nonce);
    AccountedLaw(cfg, t, step, r.nonce);
  }

  lemma ExactIssue(cfg: Config, s: State, peer: int, policy: Policy, nonce: Nonce, binding: Binding, digest: Digest, now: int)
    requires s.policy.Some? ==> s.policy.value.generation == s.generation
    requires binding.keyGeneration == s.keyGeneration && binding.launchArgv != []
    ensures Perform(cfg, s, At(IssueExactRun(peer, nonce, policy, binding, Some(digest)), now)) ==
            IssuedState(cfg, s, peer, policy, nonce, binding, digest, now + 120)
  {
    IssueLaw(cfg, s, At(IssueExactRun(peer, nonce, policy, binding, Some(digest)), now));
  }

  lemma ExactMiddle(cfg: Config, s: State, sign: (PublicKey, Message) -> Signature, peer: int, policy: Policy, nonce: Nonce,
                    binding: Binding, digest: Digest, expiry: int, now: int)
    requires Honest(cfg, P256, sign) && SlotsReady(s, policy) && RolesLive(s, policy) && !cfg.installed
    requires ReadyFor(cfg, s, policy, nonce, digest)
    requires binding.keyGeneration == s.keyGeneration && binding.launchArgv != [] && 0 <= expiry && now < expiry
    ensures var t, r := IssuedState(cfg, s, peer, policy, nonce, binding, digest, expiry), ExactRecord(cfg, s, policy, nonce, binding, digest, expiry);
            var sg := SlotSignatures(s, sign, policy, r.session.value.bound);
            && Perform(cfg, t, At(AuthorizeExactRun(peer, None, None, sg), now)) == Consumed(t, r).(pending := None)
            && RecordOf(Consumed(t, r).spent, nonce) == Some(r)
  {
    var t := IssuedState(cfg, s, peer, policy, nonce, binding, digest, expiry);
    ExactAuthorize(cfg, t, sign, now);
    ConsumedRecordIsFound(t, ExactRecord(cfg, s, policy, nonce, binding, digest, expiry));
  }

  /** From any state ready for it, within its two minutes, an exact run that the session
      slots sign once is issued, authorized and launched: exactly the issued payload. */
  lemma ExactRunCompletes(cfg: Config, s: State, sign: (PublicKey, Message) -> Signature, peer: int, policy: Policy, nonce: Nonce,
                          binding: Binding, digest: Digest, spawn: Spawn, issuedAt: int, authorizedAt: int, executedAt: int)
    returns (issue: Step, authorize: Step, execute: Step)
    requires Honest(cfg, P256, sign) && SlotsReady(s, policy) && RolesLive(s, policy) && !cfg.installed
    requires ReadyFor(cfg, s, policy, nonce, digest)
    requires binding.keyGeneration == s.keyGeneration && binding.launchArgv != []
    requires 0 <= issuedAt && authorizedAt < issuedAt + 120 && executedAt < issuedAt + 120
    requires spawn.SpawnedChild? && spawn.gate == GoWritten && Accounted(spawn.pid, spawn.watch)
    ensures issue.request.op.IssueExactRun? && authorize.request.op.AuthorizeExactRun? && execute.request.op.ExecuteExactRun?
    ensures authorize.request.op.signatures == execute.request.op.signatures
    ensures var t := Perform(cfg, Perform(cfg, Perform(cfg, s, issue), authorize), execute);
            && t.spent == s.spent + [ExactRecord(cfg, s, policy, nonce, binding, digest, issuedAt + 120)] && t.pending.None?
            && t.lease == Some(Lease(false, nonce, if spawn.watch.timedOut then TimedOut else Exited, Some(spawn.pid), true))
            && t.history == s.history + [Issued(BoundOf(cfg, s, policy, nonce, binding.launchArgv, digest, issuedAt + 120))] +
                            [Launched(Launch(nonce, digest, binding.launchArgv, s.generation, s.keyGeneration))] +
                            [Freed(nonce, ObservedExit(spawn.pid, spawn.watch))]
  {
    var expiry := issuedAt + 120;
    var r := ExactRecord(cfg, s, policy, nonce, binding, digest, expiry);
    var sg := SlotSignatures(s, sign, policy, r.session.value.bound);
    issue := At(IssueExactRun(peer, nonce, policy, binding, Some(digest)), issuedAt);
    authorize := At(AuthorizeExactRun(peer, None, None, sg), authorizedAt);
    execute := At(ExecuteExactRun(nonce, sg, Some(binding.launchArgv), spawn), executedAt);
    ExactIssue(cfg, s, peer, policy, nonce, binding, digest, issuedAt);
    ExactMiddle(cfg, s, sign, peer, policy, nonce, binding, digest, expiry, authorizedAt);
    ExactExecute(cfg, Consumed(IssuedState(cfg, s, peer, policy, nonce, binding, digest, expiry), r).(pending := None), sign, r, spawn, executedAt);
  }

  // A holder whose devices do the signing

  /** A signature verifies exactly under the key it equals; the bootstrap proof is "boot". */
  const BOOT_CONFIG := Config("holder", false, false, (a, k, m, sig) => sig == k, (m, proof) => proof == "boot", k => k)

  function KeySign(): (PublicKey, Message) -> Signature
  {
    (k, m) => k
  }

  function BootDoc(purpose: Purpose, subject: string): Human
  {
    Human(Bootstrap, false, purpose, Some(Local), subject, Factors(Local), 1, false, NoLabel, map[], "boot", [], 0, 0, "", "", [], None)
  }

  lemma BootDocHolds(s: State, purpose: Purpose, subject: string)
    requires purpose == ToEnroll || purpose == ToPair
    ensures HumanHolds(BOOT_CONFIG, s, BootDoc(purpose, subject), purpose, Some(Local), subject, None, 0)
  {
    HumanHoldsExactly(BOOT_CONFIG, s, BootDoc(purpose, subject), purpose, Some(Local), subject, None, 0);
  }

  const BOOT_ENROLLED := INITIAL.(callers := map["a" := Caller(false, 1)], enrollment := Some("a"))
  const LAPTOP := Device(Mac, false, Some("k1"), Ed25519, "f1", 1)
  const BOOT_PAIRED := BOOT_ENROLLED.(devices := map["laptop" := LAPTOP])
  const BOOT_LOCAL := BOOT_PAIRED.(policy := Some(PolicyRecord(Local, 2)), generation := 2)

  ghost function BootSteps(): seq<Step>
  {
    [] + [At(Enroll("a", BootDoc(ToEnroll, "a")), 0)] + [At(Pair("laptop", Mac, Some("k1"), Ed25519, "f1", BootDoc(ToPair, "laptop")), 0)] +
    [At(SetPolicy(DeviceDocument(BOOT_CONFIG, BOOT_PAIRED, {"laptop"}, Ed25519, KeySign(), ToSetPolicy, Local, "local", None, 1)), 0)]
  }

  lemma LaptopSigns(s: State)
    requires s.devices == map["laptop" := LAPTOP]
    ensures CanSign(s, {"laptop"}, Ed25519, Local) && Honest(BOOT_CONFIG, Ed25519, KeySign())
  {
    assert s.devices["laptop"].role == Mac && "laptop" in {"laptop"};
  }

  lemma BootEnroll()
    ensures Perform(BOOT_CONFIG, INITIAL, At(Enroll("a", BootDoc(ToEnroll, "a")), 0)) == BOOT_ENROLLED
  {
    BootDocHolds(INITIAL, ToEnroll, "a");
    EnrollLaw(BOOT_CONFIG, INITIAL, At(Enroll("a", BootDoc(ToEnroll, "a")), 0));
  }

  lemma BootPair()
    ensures Perform(BOOT_CONFIG, BOOT_ENROLLED, At(Pair("laptop", Mac, Some("k1"), Ed25519, "f1", BootDoc(ToPair, "laptop")), 0)) == BOOT_PAIRED
  {
    BootDocHolds(BOOT_ENROLLED, ToPair, "laptop");
    PairLaw(BOOT_CONFIG, BOOT_ENROLLED, At(Pair("laptop", Mac, Some("k1"), Ed25519, "f1", BootDoc(ToPair, "laptop")), 0));
  }

  lemma BootPolicy()
    ensures var h := DeviceDocument(BOOT_CONFIG, BOOT_PAIRED, {"laptop"}, Ed25519, KeySign(), ToSetPolicy, Local, "local", None, 1);
            Perform(BOOT_CONFIG, BOOT_PAIRED, At(SetPolicy(h), 0)) == BOOT_LOCAL
  {
    var h := DeviceDocument(BOOT_CONFIG, BOOT_PAIRED, {"laptop"}, Ed25519, KeySign(), ToSetPolicy, Local, "local", None, 1);
    LaptopSigns(BOOT_PAIRED);
    DeviceDocumentAccepted(BOOT_CONFIG, BOOT_PAIRED, {"laptop"}, Ed25519, KeySign(), ToSetPolicy, Local, "local", None, 1, 0);
    SetPolicyAcceptedExactly(BOOT_CONFIG, BOOT_PAIRED, At(SetPolicy(h), 0).request);
    SetPolicyLeaves(BOOT_CONFIG, BOOT_PAIRED, At(SetPolicy(h), 0));
  }

  lemma BootLocal()
    ensures Run(BOOT_CONFIG, INITIAL, BootSteps()) == BOOT_LOCAL
  {
    var a, b := At(Enroll("a", BootDoc(ToEnroll, "a")), 0), At(Pair("laptop", Mac, Some("k1"), Ed25519, "f1", BootDoc(ToPair, "laptop")), 0);
    var c := At(SetPolicy(DeviceDocument(BOOT_CONFIG, BOOT_PAIRED, {"laptop"}, Ed25519, KeySign(), ToSetPolicy, Local, "local", None, 1)), 0);
    RunSnoc(BOOT_CONFIG, INITIAL, [], a);
    RunSnoc(BOOT_CONFIG, INITIAL, [] + [a], b);
    RunSnoc(BOOT_CONFIG, INITIAL, [] + [a] + [b], c);
    BootEnroll();
    BootPair();
    BootPolicy();
  }

  const QUIET_WATCH := Watch(Some(map[]), [], Some(map[]), false, true, false, false, {}, true, false, {}, true)
  const BOOT_RECORD := SpentRecord("n", "digest", ["/bin/x"], "", Local, 2, 1, None)
  const BOOT_DONE := BOOT_LOCAL.(spent := [BOOT_RECORD], lease := Some(Lease(false, "n", Exited, Some(7), true)),
                                 history := [Launched(Launch("n", "digest", ["/bin/x"], 2, 1)), Freed("n", ObservedExit(7, QUIET_WATCH))])

  lemma QuietIsAccounted()
    ensures Accounted(7, QUIET_WATCH)
  {
    AccountedExactly(7, QUIET_WATCH);
  }

  /** A run from the first records on: bootstrap enrolls and pairs, the paired device sets
      the policy, and what it then signs is consumed and launched. */
  lemma DeviceSignedRun() returns (before: seq<Step>, consume: Step, execute: Step)
    ensures consume.request.op.Consume? && consume.request.op.human.means == DeviceMethod(Local)
    ensures PlanOf(BOOT_CONFIG, Run(BOOT_CONFIG, INITIAL, before), consume.request).accepted
    ensures Run(BOOT_CONFIG, Run(BOOT_CONFIG, INITIAL, before), [consume, execute]) == BOOT_DONE
  {
    before := BootSteps();
    BootLocal();
    LaptopSigns(BOOT_LOCAL);
    QuietIsAccounted();
    consume, execute := DeviceRunCompletes(BOOT_CONFIG, BOOT_LOCAL, {"laptop"}, Ed25519, KeySign(), Local, "n", Binding(["/bin/x"], 1, ""), "digest",
                                           SpawnedChild(7, GoWritten, false, QUIET_WATCH), 0);
  }
}
