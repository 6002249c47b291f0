/** What each holder operation does, as the list of steps it takes in order. An
    operation that is cut short takes a prefix of its list. */
module HolderPlans {
  import opened Wrappers
  import opened ProcessTree
  import opened HolderRecords
  import opened HolderAuthorization

  datatype Plan = Plan(effects: seq<Effect>, accepted: bool)
  const REFUSED := Plan([], false)

  datatype Binding = Binding(launchArgv: Argv, keyGeneration: int, terms: string)

  /** How the gate to the paused child closed. `CloseFailed` is a go byte written
      and then an error from closing the descriptor. */
  datatype Gate = GoWritten | GoRefused | CloseFailed

  /** What happened from the spawn on. `reaped` is read when the spawn is aborted:
      the child was waited for and its pid is absent. */
  datatype Spawn = NoChild | SpawnedChild(pid: Pid, gate: Gate, reaped: bool, watch: Watch)

  /** A session key and its signature, with the challenge fields it names. */
  datatype Submission = Submission(key: PublicKey, signature: Signature, holderId: string, generation: int,
                                   expiry: int, nonce: Nonce, challenge: string)

  datatype Op =
    | Enroll(caller: CallerId, human: Human)
    | Pair(device: DeviceId, role: Role, key: Option<PublicKey>, algorithm: Algorithm, fingerprint: string, human: Human)
    | ReplaceKey(device: DeviceId, fingerprint: string, human: Human)
    | Revoke(device: DeviceId, human: Human)
    | Rotate(human: Human)
    | SetPolicy(human: Human)
    | Consume(nonce: Nonce, policy: Policy, human: Human, binding: Binding, snapshot: Option<Digest>)
    | Cancel(token: Nonce, human: Human)
    | NoteAbsent(token: Nonce, human: Human)
    | Execute(token: Nonce, human: Human, sealedArgv: Option<Argv>, spawn: Spawn)
    | IssueExactRun(peer: int, nonce: Nonce, policy: Policy, binding: Binding, snapshot: Option<Digest>)
    | AuthorizeExactRun(peer: int, namedNonce: Option<Nonce>, namedPolicy: Option<Policy>, signatures: map<string, Signature>)
    | ExecuteExactRun(nonce: Nonce, signatures: map<string, Signature>, sealedArgv: Option<Argv>, spawn: Spawn)
    | IssueDeviceChallenge(role: Role, peer: int, nonce: Nonce, challenge: string)
    | CancelDeviceChallenge(role: Role, peer: int)
    | SubmitDeviceSignature(role: Role, peer: int, submission: Submission)
    | PreparePhoneReceipt(challengeId: Nonce, macKey: Option<PublicKey>, claimed: Option<Message>)
    | SealPhoneReceipt(challengeId: Nonce, macKey: Option<PublicKey>, claimed: Option<Message>, signature: Signature)

  /** `admitted` is false when some guard outside this model refuses. */
  datatype Request = Request(op: Op, now: int, admitted: bool)

  predicate LoadHolds(s: State)
  {
    s.policy.Some? ==> s.policy.value.generation == s.generation
  }

  predicate LeaseHeld(s: State)
  {
    s.lease.Some? && s.lease.value.held
  }

  ghost predicate LiveDevices(s: State, policy: Policy, h: Human)
  {
    && (h.means == TestDouble ||
        forall r :: r in Factors(policy) ==> exists id :: id in s.devices && !s.devices[id].revoked && s.devices[id].role == r)
    && (forall id :: id in h.namedDevices ==> id in s.devices && !s.devices[id].revoked)
  }

  // Enrollment, devices and policy

  ghost function EnrollPlan(cfg: Config, s: State, caller: CallerId, h: Human, now: int, admitted: bool): Plan
  {
    if LoadHolds(s) && HumanHolds(cfg, s, h, ToEnroll, h.policy, caller, None, now)
       && caller != "" && caller != "bootstrap" && caller !in s.callers && admitted
    then Plan([WriteCallers(s.callers[caller := Caller(false, 1)]), WriteEnrollment(caller)], true)
    else REFUSED
  }

  /** A pairing is authorized under the policy in force, or before there is one under
      the document's own. It asks for any role under any name that is not live. */
  ghost predicate PairAdmits(cfg: Config, s: State, device: DeviceId, fingerprint: string, h: Human, now: int, admitted: bool)
  {
    && LoadHolds(s) && s.enrollment.Some?
    && HumanHolds(cfg, s, h, ToPair, if s.policy.Some? then Some(s.policy.value.name) else h.policy, device, None, now)
    && (device in s.devices ==> s.devices[device].revoked) && fingerprint != "" && admitted
  }

  ghost function PairPlan(cfg: Config, s: State, device: DeviceId, role: Role, key: Option<PublicKey>,
                          algorithm: Algorithm, fingerprint: string, h: Human, now: int, admitted: bool): Plan
  {
    if PairAdmits(cfg, s, device, fingerprint, h, now, admitted)
    then Plan([WriteDevices(s.devices[device := Device(role, false, key, algorithm, fingerprint, s.generation)])], true)
    else REFUSED
  }

  /** The recorded fingerprint is replaced; the key that verifies signatures is not. */
  ghost function ReplaceKeyPlan(cfg: Config, s: State, device: DeviceId, fingerprint: string, h: Human, now: int, admitted: bool): Plan
  {
    if LoadHolds(s) && s.enrollment.Some? && s.policy.Some?
       && HumanHolds(cfg, s, h, ToReplaceKey, Some(s.policy.value.name), device, None, now)
       && device in s.devices && !s.devices[device].revoked && fingerprint != "" && admitted
    then Plan([WriteDevices(s.devices[device := s.devices[device].(fingerprint := fingerprint)]), WriteReceipt(None)], true)
    else REFUSED
  }

  ghost function RevokePlan(cfg: Config, s: State, device: DeviceId, h: Human, now: int, admitted: bool): Plan
  {
    if LoadHolds(s) && s.enrollment.Some? && s.policy.Some?
       && HumanHolds(cfg, s, h, ToRevoke, Some(s.policy.value.name), device, None, now)
       && device in s.devices && admitted
    then Plan([WriteDevices(s.devices[device := s.devices[device].(revoked := true)]), WriteReceipt(None)], true)
    else REFUSED
  }

  ghost function RotatePlan(cfg: Config, s: State, h: Human, now: int, admitted: bool): Plan
  {
    if LoadHolds(s) && s.enrollment.Some? && HumanHolds(cfg, s, h, ToRotate, h.policy, s.enrollment.value, None, now)
       && s.enrollment.value in s.callers && !s.callers[s.enrollment.value].revoked && admitted
    then
      var next := s.callers[s.enrollment.value].keyGeneration + 1;
      Plan([WriteCallers(s.callers[s.enrollment.value := Caller(false, next)]), WriteMeta(s.generation, next), WriteReceipt(None)], true)
    else REFUSED
  }

  /** The policy that must authorize a change to `destination`: the current one
      when the change drops a factor, the destination otherwise. */
  function MutationPolicy(s: State, destination: Policy): Policy
  {
    if s.policy.None? then destination
    else if Factors(s.policy.value.name) <= Factors(destination) then destination
    else s.policy.value.name
  }

  function Destination(h: Human): Option<Policy>
  {
    if PolicyNamed(h.subject).Some? then PolicyNamed(h.subject) else h.policy
  }

  ghost function SetPolicyPlan(cfg: Config, s: State, h: Human, now: int, admitted: bool): Plan
  {
    if LoadHolds(s) && s.enrollment.Some? && Destination(h).Some?
       && HumanHolds(cfg, s, h, ToSetPolicy, Some(MutationPolicy(s, Destination(h).value)), PolicyName(Destination(h).value), None, now)
       && admitted
    then Plan([WritePolicy(PolicyRecord(Destination(h).value, s.generation + 1)), WriteMeta(s.generation + 1, s.keyGeneration),
               WriteReceipt(None)], true)
    else REFUSED
  }

  // Consume, cancel, note-absent

  ghost predicate ConsumeAdmits(cfg: Config, s: State, nonce: Nonce, policy: Policy, h: Human, binding: Binding,
                                snapshot: Option<Digest>, now: int, admitted: bool)
  {
    && LoadHolds(s)
    && h.means != Bootstrap
    && !LeaseHeld(s)
    && LiveDevices(s, policy, h)
    && s.policy.Some? && s.policy.value.name == policy
    && nonce != ""
    && RecordOf(s.spent, nonce).None?
    && binding.keyGeneration == s.keyGeneration
    && binding.launchArgv != []
    && snapshot.Some?
    && (h.means == ExactRunSession ==> snapshot.value == h.payloadDigest && binding.launchArgv == h.launchArgv)
    && snapshot.value != cfg.holderId
    && HumanHolds(cfg, s, h, ToConsume, Some(policy), nonce,
                  Some(Authorized(snapshot.value, binding.launchArgv, binding.terms)), now)
    && admitted
  }

  function ConsumedRecord(s: State, nonce: Nonce, policy: Policy, h: Human, binding: Binding, digest: Digest): SpentRecord
  {
    SpentRecord(nonce, digest, binding.launchArgv, binding.terms, policy, s.generation, s.keyGeneration,
                if h.means == ExactRunSession && h.bound.Some? then Some(Session(h.bound.value, h.expiresAt)) else None)
  }

  function UncertainLease(nonce: Nonce): Lease
  {
    Lease(true, nonce, Uncertain, None, false)
  }

  ghost function ConsumePlan(cfg: Config, s: State, nonce: Nonce, policy: Policy, h: Human, binding: Binding,
                             snapshot: Option<Digest>, now: int, admitted: bool): Plan
  {
    if ConsumeAdmits(cfg, s, nonce, policy, h, binding, snapshot, now, admitted)
    then Plan([WriteSpent(ConsumedRecord(s, nonce, policy, h, binding, snapshot.value)), WriteLease(UncertainLease(nonce))], true)
    else REFUSED
  }

  ghost function CancelPlan(cfg: Config, s: State, token: Nonce, h: Human, now: int, admitted: bool): Plan
  {
    if LoadHolds(s) && HumanHolds(cfg, s, h, ToCancel, h.policy, token, None, now)
       && s.lease.Some? && s.lease.value.token == token
       && s.lease.value.child == Uncertain && s.lease.value.pid.None?
       && !RunsExactly(s, token)
       && admitted
    then Plan([FreeLease(Lease(false, token, Cancelled, None, false), CancelledBeforeSpawn)], true)
    else REFUSED
  }

  /** What note-absent answers. Every answer is a refusal. */
  datatype NoteAnswer = Unloaded | Unauthorized | NoMatch | CancelInstead | NeedsTermination

  /** The nonce's spent record came through an exact run. */
  predicate RunsExactly(s: State, n: Nonce)
  {
    RecordOf(s.spent, n).Some? && RecordOf(s.spent, n).value.session.Some?
  }

  ghost function AnswerNote(cfg: Config, s: State, token: Nonce, h: Human, now: int): NoteAnswer
  {
    if !LoadHolds(s) then Unloaded
    else if !HumanHolds(cfg, s, h, ToNoteAbsent, h.policy, token, None, now) then Unauthorized
    else if s.lease.None? || s.lease.value.token != token then NoMatch
    else if s.lease.value.child == Uncertain && s.lease.value.pid.None? then CancelInstead
    else NeedsTermination
  }

  // Execute

  function Tables(w: Watch): seq<Option<Table>>
  {
    [w.first] + w.polls + [w.last]
  }

  predicate StillThere(present: set<Pid>, pid: Pid)
  {
    pid > 0 && pid in present
  }

  /** No process of the payload's tree, as any table taken showed it, is still
      there at this look, and neither is its process group. */
  ghost predicate TreeGone(pid: Pid, w: Watch, present: set<Pid>, groupAbsent: bool)
  {
    && groupAbsent
    && forall t, q :: Some(t) in Tables(w) && Descends(t, pid, q) && q != pid ==> !StillThere(present, q)
  }

  /** The watch accounts for everything the payload started. */
  ghost predicate Accounted(pid: Pid, w: Watch)
  {
    && w.stopped && !w.forkSeen && !w.reparented
    && None !in Tables(w)
    && (TreeGone(pid, w, w.present, w.groupAbsent) ||
        (!w.signalDenied && TreeGone(pid, w, w.presentAfter, w.groupAbsentAfter)))
  }

  function RunningLease(token: Nonce, pid: Option<Pid>): Lease
  {
    Lease(true, token, Running, pid, true)
  }

  function RetainedLease(token: Nonce, pid: Pid): Lease
  {
    Lease(true, token, SupervisionUncertain, Some(pid), true)
  }

  /** The end of a supervised payload: nothing is written when its exit was not
      observed; the lease is freed exactly when the watch accounts for the tree,
      and kept as uncertain otherwise. */
  ghost function VerdictPlan(token: Nonce, pid: Pid, w: Watch): Plan
  {
    if !w.stopped then REFUSED
    else if Accounted(pid, w) then
      Plan([FreeLease(Lease(false, token, if w.timedOut then TimedOut else Exited, Some(pid), true), ObservedExit(pid, w))], true)
    else Plan([WriteLease(RetainedLease(token, pid))], false)
  }

  function ReapPlan(token: Nonce, pid: Pid, reaped: bool, gateOpened: bool): Plan
  {
    if reaped
    then Plan([FreeLease(Lease(false, token, SpawnFailed, None, false), ReapedChild(pid, gateOpened))], false)
    else Plan([WriteLease(RetainedLease(token, pid))], false)
  }

  function LaunchOf(s: State, r: SpentRecord): Launch
  {
    Launch(r.nonce, r.payloadDigest, r.launchArgv, s.generation, s.keyGeneration)
  }

  ghost function SpawnPlan(s: State, r: SpentRecord, spawn: Spawn): Plan
  {
    match spawn
    case NoChild => Plan([WriteLease(UncertainLease(r.nonce))], false)
    case SpawnedChild(pid, gate, reaped, w) =>
      match gate
      case GoRefused => ReapPlan(r.nonce, pid, reaped, false)
      case CloseFailed =>
        Plan([OpenGate(LaunchOf(s, r))] + ReapPlan(r.nonce, pid, reaped, true).effects, false)
      case GoWritten =>
        var verdict := VerdictPlan(r.nonce, pid, w);
        Plan([OpenGate(LaunchOf(s, r)), WriteLease(RunningLease(r.nonce, Some(pid)))] + verdict.effects, verdict.accepted)
  }

  ghost predicate ExecuteAdmits(cfg: Config, s: State, token: Nonce, h: Human, sealedArgv: Option<Argv>, now: int, admitted: bool)
  {
    && LoadHolds(s)
    && s.lease.Some? && s.lease.value.token == token && s.lease.value.held
    && s.lease.value.child == Uncertain && !s.lease.value.launchStarted
    && h.means != Bootstrap
    && RecordOf(s.spent, token).Some?
    && var r := RecordOf(s.spent, token).value;
    && HumanHolds(cfg, s, h, ToExecute, h.policy, token, Some(Authorized(r.payloadDigest, r.launchArgv, r.terms)), now)
    && sealedArgv == Some(r.launchArgv)
    && admitted
  }

  ghost function ExecutePlan(cfg: Config, s: State, token: Nonce, h: Human, sealedArgv: Option<Argv>, spawn: Spawn,
                             now: int, admitted: bool): Plan
  {
    if ExecuteAdmits(cfg, s, token, h, sealedArgv, now, admitted)
    then
      var rest := SpawnPlan(s, RecordOf(s.spent, token).value, spawn);
      Plan([WriteLease(RunningLease(token, None))] + rest.effects, rest.accepted)
    else REFUSED
  }

  // Exact runs

  ghost function IssuePlan(cfg: Config, s: State, peer: int, nonce: Nonce, policy: Policy, binding: Binding,
                     snapshot: Option<Digest>, now: int, admitted: bool): Plan
  {
    if LoadHolds(s) && binding.keyGeneration == s.keyGeneration && binding.launchArgv != [] && snapshot.Some? && admitted
    then
      var expiry := now + 120;
      var bound := ExactRun(cfg.holderId, snapshot.value, binding.launchArgv, nonce, policy, s.generation, s.keyGeneration, expiry);
      Plan([Remember(Pending(peer, nonce, snapshot.value, binding.launchArgv, binding.terms, bound, policy,
                             s.generation, s.keyGeneration, expiry))], true)
    else REFUSED
  }

  /** The session authorization built from one run's own terms. */
  function SessionHuman(cfg: Config, purpose: Purpose, nonce: Nonce, policy: Policy, expiry: int, generation: int,
                        keyGeneration: int, digest: Digest, argv: Argv, bound: Message,
                        signatures: map<string, Signature>): Human
  {
    Human(ExactRunSession, false, purpose, Some(policy), nonce, Factors(policy), expiry, false, NoLabel, signatures, "", [],
          generation, keyGeneration, cfg.holderId, digest, argv, Some(bound))
  }

  /** The consume that an authorized pending run goes through. */
  ghost function PendingPlan(cfg: Config, s: State, p: Pending, signatures: map<string, Signature>, now: int): Plan
  {
    var h := SessionHuman(cfg, ToConsume, p.nonce, p.policy, p.expiry, p.generation, p.keyGeneration,
                          p.payloadDigest, p.launchArgv, p.bound, signatures);
    var consume := ConsumePlan(cfg, s, p.nonce, p.policy, h, Binding(p.launchArgv, p.keyGeneration, p.terms),
                               Some(p.payloadDigest), now, true);
    if consume.accepted then Plan(consume.effects + [Forget], true) else REFUSED
  }

  ghost function AuthorizePlan(cfg: Config, s: State, peer: int, nonce: Option<Nonce>, policy: Option<Policy>,
                               signatures: map<string, Signature>, now: int, admitted: bool): Plan
  {
    if !LoadHolds(s) || signatures.Keys == {} || s.pending.None? then REFUSED
    else
      var p := s.pending.value;
      if p.peer != peer || (nonce.Some? && nonce != Some(p.nonce)) || (policy.Some? && policy != Some(p.policy)) then REFUSED
      else if now > p.expiry || s.generation != p.generation || s.keyGeneration != p.keyGeneration then Plan([Forget], false)
      else if !SessionRolesHold(p.policy, signatures) || !admitted then REFUSED
      else PendingPlan(cfg, s, p, signatures, now)
  }

  function ExecuteHuman(cfg: Config, r: SpentRecord, signatures: map<string, Signature>): Human
    requires r.session.Some?
  {
    SessionHuman(cfg, ToExecute, r.nonce, r.policy, r.session.value.expiry, r.generation, r.keyGeneration,
                 r.payloadDigest, r.launchArgv, r.session.value.bound, signatures)
  }

  ghost function ExecuteExactPlan(cfg: Config, s: State, nonce: Nonce, signatures: map<string, Signature>,
                                  sealedArgv: Option<Argv>, spawn: Spawn, now: int, admitted: bool): Plan
  {
    var r := RecordOf(s.spent, nonce);
    if r.None? || r.value.session.None? || !SessionRolesHold(r.value.policy, signatures) then REFUSED
    else ExecutePlan(cfg, s, nonce, ExecuteHuman(cfg, r.value, signatures), sealedArgv, spawn, now, admitted)
  }

  // Session keys and the phone's receipt

  function IssueChallengePlan(s: State, role: Role, peer: int, nonce: Nonce, challenge: string, now: int, admitted: bool): Plan
  {
    if LoadHolds(s) && admitted
    then Plan([SetChallenges(s.challenges[role := SlotChallenge(peer, nonce, now + 120, s.generation, challenge)])], true)
    else REFUSED
  }

  function CancelChallengePlan(s: State, role: Role, peer: int, admitted: bool): Plan
  {
    if LoadHolds(s) && role in s.challenges && s.challenges[role].peer == peer && admitted
    then Plan([SetChallenges(s.challenges - {role})], true)
    else REFUSED
  }

  function OtherRole(r: Role): Role
  {
    if r == Mac then Phone else Mac
  }

  function SlotKey(s: State, r: Role): Option<PublicKey>
  {
    if SessionSlot(r) in s.devices then s.devices[SessionSlot(r)].publicKey else None
  }

  /** The submission answers the pending challenge of this peer, in time and in the
      same generation, and its own key signed the bound message. */
  predicate SubmissionHolds(cfg: Config, s: State, role: Role, peer: int, m: Submission, now: int)
  {
    && LoadHolds(s)
    && m.key != "" && m.signature != "" && m.nonce != ""
    && m.nonce !in s.deviceNonces
    && role in s.challenges
    && var c := s.challenges[role];
    && c.peer == peer && now <= c.expiry && m.challenge == c.challenge
    && SlotBinding(m.holderId, m.generation, role, m.expiry, m.nonce, m.challenge) ==
       SlotBinding(cfg.holderId, c.generation, role, c.expiry, c.nonce, c.challenge)
    && s.generation == c.generation
    && cfg.verify(P256, m.key, SlotBinding(cfg.holderId, c.generation, role, c.expiry, c.nonce, c.challenge), m.signature)
  }

  function SubmittedDevice(cfg: Config, s: State, role: Role, m: Submission): Device
  {
    Device(role, false, Some(m.key), P256, cfg.fingerprintOf(m.key), s.generation)
  }

  /** A verified submission uses up its challenge and its nonce. It is still refused
      for the other slot's key and under installed protection; otherwise the slot's
      record becomes the submitted key's, whatever it was. */
  function SubmitPlan(cfg: Config, s: State, role: Role, peer: int, m: Submission, now: int, admitted: bool): Plan
  {
    if !SubmissionHolds(cfg, s, role, peer, m, now) || !admitted then REFUSED
    else
      var used := [SetChallenges(s.challenges - {role}), SpendDeviceNonce(m.nonce)];
      if SlotKey(s, OtherRole(role)) == Some(m.key) || cfg.installed then Plan(used, false)
      else
        var receipt := if role == Mac then None
                       else Some(Receipt(m.nonce, m.challenge, s.generation, cfg.fingerprintOf(m.key), m.key, false));
        Plan(used + [WriteDevices(s.devices[SessionSlot(role) := SubmittedDevice(cfg, s, role, m)]), WriteReceipt(receipt)], true)
  }

  function ReceiptMessage(cfg: Config, r: Receipt, macKey: PublicKey): Message
  {
    PhoneReceipt(cfg.holderId, r.generation, r.challengeId, r.challenge, r.phoneFingerprint, macKey)
  }

  /** The receipt belongs to this generation and to the keys now in both slots. */
  predicate ReceiptHolds(cfg: Config, s: State, challengeId: Nonce, macKey: Option<PublicKey>, claimed: Option<Message>)
  {
    && LoadHolds(s)
    && s.receipt.Some?
    && var r := s.receipt.value;
    && r.challengeId == challengeId && r.generation == s.generation && r.challengeId in s.deviceNonces
    && SessionSlot(Mac) in s.devices && !s.devices[SessionSlot(Mac)].revoked && SlotKey(s, Mac).Some?
    && SessionSlot(Phone) in s.devices && !s.devices[SessionSlot(Phone)].revoked
    && s.devices[SessionSlot(Phone)].fingerprint == r.phoneFingerprint && SlotKey(s, Phone) == Some(r.phoneKey)
    && (macKey.Some? ==> macKey == SlotKey(s, Mac))
    && (claimed.Some? ==> claimed.value == ReceiptMessage(cfg, r, SlotKey(s, Mac).value))
  }

  function SealPlan(cfg: Config, s: State, challengeId: Nonce, macKey: Option<PublicKey>, claimed: Option<Message>,
                    signature: Signature, admitted: bool): Plan
  {
    if signature != "" && ReceiptHolds(cfg, s, challengeId, macKey, claimed) && !s.receipt.value.isSealed
       && cfg.verify(P256, SlotKey(s, Mac).value, ReceiptMessage(cfg, s.receipt.value, SlotKey(s, Mac).value), signature)
       && admitted
    then Plan([WriteReceipt(Some(s.receipt.value.(isSealed := true)))], true)
    else REFUSED
  }

  ghost function PlanOf(cfg: Config, s: State, q: Request): Plan
  {
    match q.op
    case Enroll(c, h) => EnrollPlan(cfg, s, c, h, q.now, q.admitted)
    case Pair(d, r, k, a, f, h) => PairPlan(cfg, s, d, r, k, a, f, h, q.now, q.admitted)
    case ReplaceKey(d, f, h) => ReplaceKeyPlan(cfg, s, d, f, h, q.now, q.admitted)
    case Revoke(d, h) => RevokePlan(cfg, s, d, h, q.now, q.admitted)
    case Rotate(h) => RotatePlan(cfg, s, h, q.now, q.admitted)
    case SetPolicy(h) => SetPolicyPlan(cfg, s, h, q.now, q.admitted)
    case Consume(n, p, h, b, d) => ConsumePlan(cfg, s, n, p, h, b, d, q.now, q.admitted)
    case Cancel(t, h) => CancelPlan(cfg, s, t, h, q.now, q.admitted)
    case NoteAbsent(t, h) => REFUSED
    case Execute(t, h, a, w) => ExecutePlan(cfg, s, t, h, a, w, q.now, q.admitted)
    case IssueExactRun(peer, n, p, b, d) => IssuePlan(cfg, s, peer, n, p, b, d, q.now, q.admitted)
    case AuthorizeExactRun(peer, n, p, sg) => AuthorizePlan(cfg, s, peer, n, p, sg, q.now, q.admitted)
    case ExecuteExactRun(n, sg, a, w) => ExecuteExactPlan(cfg, s, n, sg, a, w, q.now, q.admitted)
    case IssueDeviceChallenge(r, peer, n, c) => IssueChallengePlan(s, r, peer, n, c, q.now, q.admitted)
    case CancelDeviceChallenge(r, peer) => CancelChallengePlan(s, r, peer, q.admitted)
    case SubmitDeviceSignature(r, peer, m) => SubmitPlan(cfg, s, r, peer, m, q.now, q.admitted)
    case PreparePhoneReceipt(id, k, m) => Plan([], ReceiptHolds(cfg, s, id, k, m) && q.admitted)
    case SealPhoneReceipt(id, k, m, sg) => SealPlan(cfg, s, id, k, m, sg, q.admitted)
  }

  /** Where an operation stops: it may finish, or be cut after any number of its
      steps, by an error or by the death of the process, which also loses what
      the process remembered. */
  datatype Step = Step(request: Request, survives: nat, died: bool)

  ghost function Perform(cfg: Config, s: State, step: Step): State
  {
    var reached := ApplyAll(s, Prefix(PlanOf(cfg, s, step.request).effects, step.survives));
    if step.died then reached.(pending := None, challenges := map[]) else reached
  }

  ghost predicate Finishes(cfg: Config, s: State, step: Step)
  {
    |PlanOf(cfg, s, step.request).effects| <= step.survives
  }

  ghost function Run(cfg: Config, s: State, steps: seq<Step>): State
    decreases |steps|
  {
    if steps == [] then s else Run(cfg, Perform(cfg, s, steps[0]), steps[1..])
  }

  ghost predicate CrashFree(cfg: Config, s: State, steps: seq<Step>)
    decreases |steps|
  {
    steps != [] ==> Finishes(cfg, s, steps[0]) && CrashFree(cfg, Perform(cfg, s, steps[0]), steps[1..])
  }
}
