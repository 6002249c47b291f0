/** What the holder accepts as a human authorization. */
module HolderAuthorization {
  import opened Wrappers
  import opened HolderRecords

  datatype Method = TestDouble | Bootstrap | ExactRunSession | DeviceMethod(policy: Policy) | UnknownMethod

  /** The attestation label a document carries. */
  datatype Label = NoLabel | Ed25519Label | P256Label | DoubleLabel | OtherLabel

  /** The authorization document of a request. `phrase` says some field holds the
      typed phrase. The fields from `generation` on are read for session methods. */
  datatype Human = Human(
    means: Method, phrase: bool, purpose: Purpose, policy: Option<Policy>, subject: string,
    devices: set<Role>, expiresAt: int, hardware: bool, attestation: Label,
    signatures: map<string, Signature>, proof: Signature, namedDevices: seq<DeviceId>,
    generation: int, keyGeneration: int, holderId: string,
    payloadDigest: Digest, launchArgv: Argv, bound: Option<Message>)

  /** The named record exists, is not revoked, and its key signed the message. */
  predicate KeySigned(cfg: Config, devices: map<DeviceId, Device>, id: DeviceId, algorithm: Algorithm,
                      message: Message, signature: Signature)
  {
    && id in devices
    && !devices[id].revoked
    && devices[id].publicKey.Some?
    && cfg.verify(algorithm, devices[id].publicKey.value, message, signature)
  }

  /** The same, checked with the algorithm the record names. */
  predicate SignedBy(cfg: Config, devices: map<DeviceId, Device>, id: DeviceId, message: Message, signature: Signature)
  {
    id in devices && KeySigned(cfg, devices, id, devices[id].algorithm, message, signature)
  }

  /** The one algorithm of the signing records; none when they disagree. */
  function SignersAlgorithm(devices: map<DeviceId, Device>, signatures: map<string, Signature>): Option<Algorithm>
  {
    var found := set id | id in signatures.Keys && id in devices :: devices[id].algorithm;
    if found == {P256} then Some(P256) else if found <= {Ed25519} then Some(Ed25519) else None
  }

  function PairedOf(devices: map<DeviceId, Device>, signatures: map<string, Signature>): map<DeviceId, Paired>
  {
    map id | id in signatures.Keys && id in devices :: Paired(devices[id].role, devices[id].fingerprint, devices[id].generation)
  }

  /** The message the devices sign. Over P-256 keys it names the signing records. */
  function ChallengeFor(cfg: Config, s: State, h: Human, purpose: Purpose, policy: Policy,
                        subject: string, authorized: Option<Authorized>): Message
  {
    var p256 := SignersAlgorithm(s.devices, h.signatures) == Some(P256);
    DeviceChallenge(purpose, subject, policy, h.expiresAt, cfg.holderId, s.generation, authorized,
                    if p256 then P256 else Ed25519, if p256 then PairedOf(s.devices, h.signatures) else map[])
  }

  /** Every signature offered verifies, and the signing records cover exactly the
      roles the policy requires. */
  ghost predicate DeviceSignaturesHold(cfg: Config, devices: map<DeviceId, Device>, signatures: map<string, Signature>,
                                       policy: Policy, message: Message)
  {
    && signatures.Keys != {}
    && (forall id :: id in signatures ==> SignedBy(cfg, devices, id, message, signatures[id]))
    && (forall r :: r in Factors(policy) ==> exists id :: id in signatures && id in devices && devices[id].role == r)
  }

  /** The signing keys are of one algorithm, all of them signed this operation's
      challenge, and the document is labelled with that algorithm and no hardware. */
  ghost predicate DevicesAuthorize(cfg: Config, s: State, h: Human, purpose: Purpose, policy: Policy,
                                   subject: string, authorized: Option<Authorized>)
  {
    var algorithm := SignersAlgorithm(s.devices, h.signatures);
    && algorithm.Some?
    && DeviceSignaturesHold(cfg, s.devices, h.signatures, policy, ChallengeFor(cfg, s, h, purpose, policy, subject, authorized))
    && h.attestation == (if algorithm.value == P256 then P256Label else Ed25519Label)
    && !h.hardware
  }

  predicate SessionRolesHold(policy: Policy, signatures: map<string, Signature>)
  {
    match policy
    case Local => signatures.Keys == {"mac"}
    case Companion => signatures.Keys == {"phone"}
    case Dual => signatures.Keys == {"mac", "phone"}
  }

  function ExactRunMessage(h: Human, nonce: Nonce, policy: Policy): Message
  {
    ExactRun(h.holderId, h.payloadDigest, h.launchArgv, nonce, policy, h.generation, h.keyGeneration, h.expiresAt)
  }

  /** One role's session key signed the bound bytes. A local run refuses a key
      that is also the phone's. */
  predicate SessionKeySigned(cfg: Config, devices: map<DeviceId, Device>, policy: Policy, role: string,
                             bound: Message, signature: Signature)
  {
    var slot := role + "-human";
    && KeySigned(cfg, devices, slot, P256, bound, signature)
    && (policy == Local && "phone-human" in devices ==>
          devices["phone-human"].publicKey != devices[slot].publicKey)
  }

  predicate SessionHolds(cfg: Config, s: State, h: Human, policy: Policy, subject: string, authorized: Option<Authorized>)
  {
    && !h.hardware
    && h.generation == s.generation
    && h.keyGeneration == s.keyGeneration
    && SessionRolesHold(policy, h.signatures)
    && h.bound == Some(ExactRunMessage(h, subject, policy))
    && (authorized.Some? ==>
          authorized.value.payloadDigest == h.payloadDigest && authorized.value.launchArgv == h.launchArgv)
    && (forall role | role in h.signatures.Keys :: SessionKeySigned(cfg, s.devices, policy, role, h.bound.value, h.signatures[role]))
    && !cfg.installed
  }

  /** The checks every authorization passes, whatever its method. */
  predicate DocumentHolds(h: Human, purpose: Purpose, policy: Option<Policy>, subject: string, now: int)
  {
    && !h.phrase
    && h.means != UnknownMethod
    && h.purpose == purpose
    && h.subject == subject
    && policy.Some?
    && h.policy == policy
    && h.devices == Factors(policy.value)
    && 0 <= h.expiresAt
    && now < h.expiresAt
  }

  /** The whole authorization decision. */
  ghost predicate HumanHolds(cfg: Config, s: State, h: Human, purpose: Purpose, policy: Option<Policy>,
                             subject: string, authorized: Option<Authorized>, now: int)
  {
    && DocumentHolds(h, purpose, policy, subject, now)
    && match h.means
       case ExactRunSession => SessionHolds(cfg, s, h, policy.value, subject, authorized)
       case TestDouble => cfg.allowTestDouble && !h.hardware && (h.attestation == NoLabel || h.attestation == DoubleLabel)
       case Bootstrap =>
         && (purpose == ToEnroll || purpose == ToPair)
         && cfg.bootstrapMac(BootstrapChallenge(purpose, subject, policy.value, h.expiresAt), h.proof)
         && !h.hardware
       case DeviceMethod(p) =>
         p == policy.value && DevicesAuthorize(cfg, s, h, purpose, p, subject, authorized)
       case UnknownMethod => false
  }

  /** The session key in this role's slot signed the exact-run message of this very
      subject and policy, at the current generations. */
  ghost predicate SlotSigned(cfg: Config, s: State, h: Human, policy: Policy, subject: string, r: Role)
  {
    && h.generation == s.generation && h.keyGeneration == s.keyGeneration
    && RoleName(r) in h.signatures
    && KeySigned(cfg, s.devices, SessionSlot(r), P256, ExactRunMessage(h, subject, policy), h.signatures[RoleName(r)])
  }

  /** An unrevoked device paired in this role signed the message that authorizes
      this operation: the challenge, or for a session the exact-run message. */
  ghost predicate FactorSigned(cfg: Config, s: State, h: Human, purpose: Purpose, policy: Policy,
                               subject: string, authorized: Option<Authorized>, r: Role)
  {
    match h.means
    case DeviceMethod(_) =>
      var challenge := ChallengeFor(cfg, s, h, purpose, policy, subject, authorized);
      exists id :: id in h.signatures && SignedBy(cfg, s.devices, id, challenge, h.signatures[id]) && s.devices[id].role == r
    case ExactRunSession =>
      exists q :: q in Factors(policy) && SlotSigned(cfg, s, h, policy, subject, q) && s.devices[SessionSlot(q)].role == r
    case _ => false
  }

  /** Some slot the policy's sessions sign from holds a device paired in this role. */
  predicate SlotHolds(s: State, policy: Policy, r: Role)
  {
    exists q :: q in Factors(policy) && SessionSlot(q) in s.devices && s.devices[SessionSlot(q)].role == r
  }

  /** What every factor of the policy contributes, method by method: a device of its
      role signed the challenge, or its slot's session key signed the message. */
  ghost predicate FactorAuthorized(cfg: Config, s: State, h: Human, purpose: Purpose, policy: Policy,
                                   subject: string, authorized: Option<Authorized>, r: Role)
  {
    match h.means
    case DeviceMethod(_) => FactorSigned(cfg, s, h, purpose, policy, subject, authorized, r)
    case ExactRunSession => SlotSigned(cfg, s, h, policy, subject, r)
    case TestDouble => cfg.allowTestDouble
    case Bootstrap => purpose == ToEnroll || purpose == ToPair
    case UnknownMethod => false
  }

  lemma AuthorizedByEveryFactor(cfg: Config, s: State, h: Human, purpose: Purpose, policy: Policy,
                                subject: string, authorized: Option<Authorized>, now: int, r: Role)
    requires HumanHolds(cfg, s, h, purpose, Some(policy), subject, authorized, now)
    requires r in Factors(policy)
    ensures FactorAuthorized(cfg, s, h, purpose, policy, subject, authorized, r)
  {
    match h.means {
      case ExactRunSession =>
        assert RoleName(r) in h.signatures.Keys;
        assert SessionKeySigned(cfg, s.devices, policy, RoleName(r), h.bound.value, h.signatures[RoleName(r)]);
      case DeviceMethod(p) =>
        var id :| id in h.signatures && id in s.devices && s.devices[id].role == r;
      case _ =>
    }
  }

  /** When an accepted authorization was signed by a device of a required role:
      always with device signatures; with a session exactly when some slot it signs
      from holds a device of that role. Pairing lets a slot hold either role. */
  lemma FactorSignedExactly(cfg: Config, s: State, h: Human, purpose: Purpose, policy: Policy,
                            subject: string, authorized: Option<Authorized>, now: int, r: Role)
    requires HumanHolds(cfg, s, h, purpose, Some(policy), subject, authorized, now)
    requires h.means != TestDouble && h.means != Bootstrap
    requires r in Factors(policy)
    ensures FactorSigned(cfg, s, h, purpose, policy, subject, authorized, r) <==> h.means.DeviceMethod? || SlotHolds(s, policy, r)
  {
    AuthorizedByEveryFactor(cfg, s, h, purpose, policy, subject, authorized, now, r);
    if h.means.ExactRunSession? && SlotHolds(s, policy, r) {
      var q :| q in Factors(policy) && SessionSlot(q) in s.devices && s.devices[SessionSlot(q)].role == r;
      AuthorizedByEveryFactor(cfg, s, h, purpose, policy, subject, authorized, now, q);
      assert SlotSigned(cfg, s, h, policy, subject, q);
    }
  }

  /** The signature loop: refuse at the first bad signature, collect the roles
      that signed, and compare them with the roles the policy requires. */
  method VerifyDeviceSignatures(cfg: Config, devices: map<DeviceId, Device>, signatures: map<string, Signature>,
                                policy: Policy, message: Message) returns (ok: bool)
    ensures ok == DeviceSignaturesHold(cfg, devices, signatures, policy, message)
  {
    if signatures.Keys == {} {
      return false;
    }
    var covered: set<Role> := {};
    var rest := signatures.Keys;
    while rest != {}
      invariant rest <= signatures.Keys
      invariant forall id :: id in signatures && id !in rest ==> SignedBy(cfg, devices, id, message, signatures[id])
      invariant covered <= Factors(policy)
      invariant forall r :: r in covered <==>
                  r in Factors(policy) && exists id :: id in signatures && id !in rest && id in devices && devices[id].role == r
      decreases rest
    {
      var id := Pick(rest);
      rest := rest - {id};
      if !SignedBy(cfg, devices, id, message, signatures[id]) {
        return false;
      }
      if devices[id].role in Factors(policy) {
        covered := covered + {devices[id].role};
      }
    }
    assert covered <= Factors(policy);
    return covered == Factors(policy);
  }

  /** The algorithms of the signing records, one record at a time. */
  method SignerAlgorithms(devices: map<DeviceId, Device>, signatures: map<string, Signature>) returns (algorithms: set<Algorithm>)
    ensures algorithms == set id | id in signatures.Keys && id in devices :: devices[id].algorithm
  {
    algorithms := {};
    var rest := signatures.Keys;
    while rest != {}
      invariant rest <= signatures.Keys
      invariant algorithms == set id | id in signatures.Keys - rest && id in devices :: devices[id].algorithm
      decreases rest
    {
      var id := Pick(rest);
      assert signatures.Keys - (rest - {id}) == signatures.Keys - rest + {id};
      rest := rest - {id};
      if id in devices {
        algorithms := algorithms + {devices[id].algorithm};
      }
    }
  }

  /** The device-signature check: one algorithm, the challenge it calls for, every
      signature and role, and the label. */
  method CheckDevices(cfg: Config, s: State, h: Human, purpose: Purpose, policy: Policy,
                      subject: string, authorized: Option<Authorized>) returns (ok: bool)
    ensures ok == DevicesAuthorize(cfg, s, h, purpose, policy, subject, authorized)
  {
    var algorithms := SignerAlgorithms(s.devices, h.signatures);
    var p256 := algorithms == {P256};
    if !p256 && !(algorithms <= {Ed25519}) {
      return false;
    }
    var challenge := DeviceChallenge(purpose, subject, policy, h.expiresAt, cfg.holderId, s.generation, authorized,
                                     if p256 then P256 else Ed25519, if p256 then PairedOf(s.devices, h.signatures) else map[]);
    assert challenge == ChallengeFor(cfg, s, h, purpose, policy, subject, authorized);
    var signed := VerifyDeviceSignatures(cfg, s.devices, h.signatures, policy, challenge);
    return signed && h.attestation == (if p256 then P256Label else Ed25519Label) && !h.hardware;
  }

  /** The authorization method of the holder, dispatching on the method named. */
  method CheckHuman(cfg: Config, s: State, h: Human, purpose: Purpose, policy: Option<Policy>,
                    subject: string, authorized: Option<Authorized>, now: int) returns (ok: bool)
    ensures ok == HumanHolds(cfg, s, h, purpose, policy, subject, authorized, now)
  {
    if !DocumentHolds(h, purpose, policy, subject, now) {
      return false;
    }
    match h.means {
      case ExactRunSession =>
        return SessionHolds(cfg, s, h, policy.value, subject, authorized);
      case TestDouble =>
        return cfg.allowTestDouble && !h.hardware && (h.attestation == NoLabel || h.attestation == DoubleLabel);
      case Bootstrap =>
        return (purpose == ToEnroll || purpose == ToPair)
               && cfg.bootstrapMac(BootstrapChallenge(purpose, subject, policy.value, h.expiresAt), h.proof)
               && !h.hardware;
      case DeviceMethod(p) =>
        if p != policy.value {
          return false;
        }
        ok := CheckDevices(cfg, s, h, purpose, p, subject, authorized);
      case UnknownMethod =>
        return false;
    }
  }
}
