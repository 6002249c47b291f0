/** Authorization documents read field by field: exactly which are accepted, and that
    honestly signed ones are. */
module HolderDocuments {
  import opened Wrappers
  import opened HolderRecords
  import opened HolderAuthorization

  // Device signatures

  lemma OneAlgorithm(devices: map<DeviceId, Device>, signatures: map<string, Signature>, a: Algorithm)
    requires signatures.Keys != {} && forall id :: id in signatures ==> id in devices
    ensures SignersAlgorithm(devices, signatures) == Some(a) <==> forall id :: id in signatures ==> devices[id].algorithm == a
  {
    var found := set id | id in signatures.Keys && id in devices :: devices[id].algorithm;
    var some :| some in signatures.Keys;
    assert devices[some].algorithm in found;
    forall id | id in signatures ensures devices[id].algorithm in found { }
    if forall id :: id in signatures ==> devices[id].algorithm == a {
      assert found == {a};
    }
  }

  lemma RolesNeeded(policy: Policy)
    ensures Mac in Factors(policy) <==> policy != Companion
    ensures Phone in Factors(policy) <==> policy != Local
  {
  }

  /** With signing records of one algorithm, the whole check, clause by clause. */
  lemma DevicesOfOneAlgorithm(cfg: Config, s: State, h: Human, purpose: Purpose, policy: Policy,
                              subject: string, authorized: Option<Authorized>, a: Algorithm)
    requires h.signatures.Keys != {} && forall id :: id in h.signatures ==> id in s.devices && s.devices[id].algorithm == a
    ensures DevicesAuthorize(cfg, s, h, purpose, policy, subject, authorized) <==>
            && !h.hardware && h.attestation == (if a == P256 then P256Label else Ed25519Label)
            && DeviceSignaturesHold(cfg, s.devices, h.signatures, policy, ChallengeFor(cfg, s, h, purpose, policy, subject, authorized))
    ensures ChallengeFor(cfg, s, h, purpose, policy, subject, authorized) ==
            DeviceChallenge(purpose, subject, policy, h.expiresAt, cfg.holderId, s.generation, authorized, a,
                            if a == Ed25519 then map[]
                            else map i | i in h.signatures :: Paired(s.devices[i].role, s.devices[i].fingerprint, s.devices[i].generation))
  {
    OneAlgorithm(s.devices, h.signatures, a);
    OneAlgorithm(s.devices, h.signatures, P256);
    assert PairedOf(s.devices, h.signatures) ==
           map i | i in h.signatures :: Paired(s.devices[i].role, s.devices[i].fingerprint, s.devices[i].generation);
  }

  lemma SignersAgree(cfg: Config, s: State, h: Human, purpose: Purpose, policy: Policy, subject: string, authorized: Option<Authorized>)
    requires DevicesAuthorize(cfg, s, h, purpose, policy, subject, authorized)
    ensures h.signatures.Keys != {} && forall id :: id in h.signatures ==> id in s.devices
    ensures h.attestation == Ed25519Label || h.attestation == P256Label
    ensures forall id :: id in h.signatures ==> s.devices[id].algorithm == if h.attestation == P256Label then P256 else Ed25519
  {
    OneAlgorithm(s.devices, h.signatures, Ed25519);
    OneAlgorithm(s.devices, h.signatures, P256);
  }

  /** Every signing record is live with a key of the algorithm the document is
      labelled with, and each signed the message of this very operation, which over
      P-256 keys also names every signing record; every role the policy needs is
      among them. */
  lemma DevicesAuthorizeExactly(cfg: Config, s: State, h: Human, purpose: Purpose, policy: Policy,
                                subject: string, authorized: Option<Authorized>)
    ensures var a := if h.attestation == P256Label then P256 else Ed25519;
            DevicesAuthorize(cfg, s, h, purpose, policy, subject, authorized) <==>
            && h.signatures.Keys != {} && !h.hardware && (h.attestation == Ed25519Label || h.attestation == P256Label)
            && (forall id :: id in h.signatures ==>
                  && id in s.devices && !s.devices[id].revoked && s.devices[id].publicKey.Some? && s.devices[id].algorithm == a)
            && (policy != Companion ==> exists id :: id in h.signatures && s.devices[id].role == Mac)
            && (policy != Local ==> exists id :: id in h.signatures && s.devices[id].role == Phone)
            && var challenge :=
                 DeviceChallenge(purpose, subject, policy, h.expiresAt, cfg.holderId, s.generation, authorized, a,
                                 if a == Ed25519 then map[]
                                 else map i | i in h.signatures :: Paired(s.devices[i].role, s.devices[i].fingerprint, s.devices[i].generation));
               forall id :: id in h.signatures ==> cfg.verify(a, s.devices[id].publicKey.value, challenge, h.signatures[id])
  {
    var a := if h.attestation == P256Label then P256 else Ed25519;
    RolesNeeded(policy);
    if DevicesAuthorize(cfg, s, h, purpose, policy, subject, authorized) {
      SignersAgree(cfg, s, h, purpose, policy, subject, authorized);
    }
    if h.signatures.Keys != {} && forall id :: id in h.signatures ==> id in s.devices && s.devices[id].algorithm == a {
      DevicesOfOneAlgorithm(cfg, s, h, purpose, policy, subject, authorized, a);
      SignaturesHoldExactly(cfg, s.devices, h.signatures, policy, ChallengeFor(cfg, s, h, purpose, policy, subject, authorized), a);
    }
  }

  lemma SignaturesHoldExactly(cfg: Config, devices: map<DeviceId, Device>, signatures: map<string, Signature>, policy: Policy,
                              message: Message, a: Algorithm)
    requires signatures.Keys != {} && forall id :: id in signatures ==> id in devices && devices[id].algorithm == a
    ensures DeviceSignaturesHold(cfg, devices, signatures, policy, message) <==>
            && (forall id :: id in signatures ==>
                  && !devices[id].revoked && devices[id].publicKey.Some?
                  && cfg.verify(a, devices[id].publicKey.value, message, signatures[id]))
            && (policy != Companion ==> exists id :: id in signatures && devices[id].role == Mac)
            && (policy != Local ==> exists id :: id in signatures && devices[id].role == Phone)
  {
    RolesNeeded(policy);
  }

  // Session signatures

  /** One slot's live key signed this message over P-256. */
  predicate SlotKeySigned(cfg: Config, s: State, slot: DeviceId, message: Message, signature: Signature)
  {
    slot in s.devices && !s.devices[slot].revoked && s.devices[slot].publicKey.Some?
    && cfg.verify(P256, s.devices[slot].publicKey.value, message, signature)
  }

  lemma SlotWords()
    ensures "mac" + "-human" == "mac-human" && "phone" + "-human" == "phone-human" && "mac" != "phone" && "mac-human" != "phone-human"
  {
    assert "mac"[0] == 'm' && "phone"[0] == 'p' && "mac-human"[0] == 'm' && "phone-human"[0] == 'p';
  }

  /** The slots the policy names, and no others, signed the exact-run message of this
      subject and policy at the current generations; a local run refuses a key that is
      also the phone's; an installed holder accepts none. */
  lemma SessionHoldsExactly(cfg: Config, s: State, h: Human, policy: Policy, subject: string, authorized: Option<Authorized>)
    ensures var message := ExactRun(h.holderId, h.payloadDigest, h.launchArgv, subject, policy, h.generation, h.keyGeneration, h.expiresAt);
            SessionHolds(cfg, s, h, policy, subject, authorized) <==>
            && !cfg.installed && !h.hardware
            && h.generation == s.generation && h.keyGeneration == s.keyGeneration
            && h.bound == Some(message)
            && (authorized.Some? ==> authorized.value.payloadDigest == h.payloadDigest && authorized.value.launchArgv == h.launchArgv)
            && h.signatures.Keys == (match policy case Local => {"mac"} case Companion => {"phone"} case Dual => {"mac", "phone"})
            && (policy != Companion ==> SlotKeySigned(cfg, s, "mac-human", message, h.signatures["mac"]))
            && (policy != Local ==> SlotKeySigned(cfg, s, "phone-human", message, h.signatures["phone"]))
            && (policy == Local && "phone-human" in s.devices ==> s.devices["phone-human"].publicKey != s.devices["mac-human"].publicKey)
  {
    SlotWords();
    var message := ExactRun(h.holderId, h.payloadDigest, h.launchArgv, subject, policy, h.generation, h.keyGeneration, h.expiresAt);
    if SessionRolesHold(policy, h.signatures) && h.bound == Some(message) {
      forall role | role in h.signatures.Keys
        ensures SessionKeySigned(cfg, s.devices, policy, role, message, h.signatures[role]) <==>
                && SlotKeySigned(cfg, s, role + "-human", message, h.signatures[role])
                && (policy == Local && "phone-human" in s.devices ==> s.devices["phone-human"].publicKey != s.devices[role + "-human"].publicKey)
      {
      }
    }
  }

  // Whole documents

  /** Which documents are accepted for an operation: no typed phrase, this purpose,
      subject and policy, the policy's devices, unexpired, and by one of four methods. */
  lemma HumanHoldsExactly(cfg: Config, s: State, h: Human, purpose: Purpose, policy: Option<Policy>,
                          subject: string, authorized: Option<Authorized>, now: int)
    ensures HumanHolds(cfg, s, h, purpose, policy, subject, authorized, now) <==>
            && !h.phrase && h.purpose == purpose && h.subject == subject && policy.Some? && h.policy == policy
            && (Mac in h.devices <==> policy.value != Companion) && (Phone in h.devices <==> policy.value != Local)
            && 0 <= h.expiresAt && now < h.expiresAt
            && ((h.means == ExactRunSession && SessionHolds(cfg, s, h, policy.value, subject, authorized))
                || (h.means == TestDouble && cfg.allowTestDouble && !h.hardware && (h.attestation == NoLabel || h.attestation == DoubleLabel))
                || (h.means == Bootstrap && (purpose == ToEnroll || purpose == ToPair) && !h.hardware
                    && cfg.bootstrapMac(BootstrapChallenge(purpose, subject, policy.value, h.expiresAt), h.proof))
                || (h.means == DeviceMethod(policy.value) && DevicesAuthorize(cfg, s, h, purpose, policy.value, subject, authorized)))
  {
    if policy.Some? {
      RolesNeeded(policy.value);
      assert h.devices == Factors(policy.value) <==>
             (Mac in h.devices <==> policy.value != Companion) && (Phone in h.devices <==> policy.value != Local) by {
        if (Mac in h.devices <==> policy.value != Companion) && (Phone in h.devices <==> policy.value != Local) {
          forall r: Role ensures r in h.devices <==> r in Factors(policy.value) { assert r == Mac || r == Phone; }
        }
      }
    }
  }

  // Honest documents

  /** Signing and then verifying succeeds. */
  ghost predicate Honest(cfg: Config, a: Algorithm, sign: (PublicKey, Message) -> Signature)
  {
    forall k, m :: cfg.verify(a, k, m, sign(k, m))
  }

  function KeyOf(s: State, id: DeviceId): PublicKey
  {
    if id in s.devices && s.devices[id].publicKey.Some? then s.devices[id].publicKey.value else ""
  }

  /** The document the given devices make for an operation. */
  function DeviceDocument(cfg: Config, s: State, signers: set<DeviceId>, a: Algorithm, sign: (PublicKey, Message) -> Signature,
                          purpose: Purpose, policy: Policy, subject: string, authorized: Option<Authorized>, expiresAt: int): Human
  {
    var paired := map i | i in signers && i in s.devices :: Paired(s.devices[i].role, s.devices[i].fingerprint, s.devices[i].generation);
    var challenge := DeviceChallenge(purpose, subject, policy, expiresAt, cfg.holderId, s.generation, authorized, a,
                                     if a == Ed25519 then map[] else paired);
    Human(DeviceMethod(policy), false, purpose, Some(policy), subject, Factors(policy), expiresAt, false,
          if a == P256 then P256Label else Ed25519Label, map id | id in signers :: sign(KeyOf(s, id), challenge), "", [], 0, 0, "", "", [], None)
  }

  /** Live devices of one algorithm, a key each, and every role the policy needs. */
  ghost predicate CanSign(s: State, signers: set<DeviceId>, a: Algorithm, policy: Policy)
  {
    && signers != {}
    && (forall id :: id in signers ==> id in s.devices && !s.devices[id].revoked && s.devices[id].publicKey.Some? && s.devices[id].algorithm == a)
    && (policy != Companion ==> exists id :: id in signers && s.devices[id].role == Mac)
    && (policy != Local ==> exists id :: id in signers && s.devices[id].role == Phone)
  }

  /** What live devices of every needed role sign for an operation is accepted for it,
      whichever of the two algorithms they use. */
  lemma DeviceDocumentAccepted(cfg: Config, s: State, signers: set<DeviceId>, a: Algorithm, sign: (PublicKey, Message) -> Signature,
                               purpose: Purpose, policy: Policy, subject: string, authorized: Option<Authorized>, expiresAt: int, now: int)
    requires Honest(cfg, a, sign) && CanSign(s, signers, a, policy) && 0 <= expiresAt && now < expiresAt
    ensures HumanHolds(cfg, s, DeviceDocument(cfg, s, signers, a, sign, purpose, policy, subject, authorized, expiresAt),
                       purpose, Some(policy), subject, authorized, now)
  {
    var h := DeviceDocument(cfg, s, signers, a, sign, purpose, policy, subject, authorized, expiresAt);
    assert h.signatures.Keys == signers;
    DevicesOfOneAlgorithm(cfg, s, h, purpose, policy, subject, authorized, a);
    assert (map i | i in signers && i in s.devices :: Paired(s.devices[i].role, s.devices[i].fingerprint, s.devices[i].generation)) ==
           map i | i in h.signatures :: Paired(s.devices[i].role, s.devices[i].fingerprint, s.devices[i].generation);
    SignaturesHoldExactly(cfg, s.devices, h.signatures, policy, ChallengeFor(cfg, s, h, purpose, policy, subject, authorized), a);
  }

  /** The document the session slots make for an operation. */
  function SessionDocument(cfg: Config, s: State, sign: (PublicKey, Message) -> Signature, purpose: Purpose, policy: Policy,
                           subject: string, digest: Digest, argv: Argv, expiresAt: int): Human
  {
    var message := ExactRun(cfg.holderId, digest, argv, subject, policy, s.generation, s.keyGeneration, expiresAt);
    Human(ExactRunSession, false, purpose, Some(policy), subject, Factors(policy), expiresAt, false, NoLabel,
          SlotSignatures(s, sign, policy, message), "", [], s.generation, s.keyGeneration, cfg.holderId, digest, argv, Some(message))
  }

  function SlotSignatures(s: State, sign: (PublicKey, Message) -> Signature, policy: Policy, message: Message): map<string, Signature>
  {
    var mac, phone := sign(KeyOf(s, "mac-human"), message), sign(KeyOf(s, "phone-human"), message);
    match policy
    case Local => map["mac" := mac]
    case Companion => map["phone" := phone]
    case Dual => map["mac" := mac, "phone" := phone]
  }

  predicate SlotLive(s: State, slot: DeviceId)
  {
    slot in s.devices && !s.devices[slot].revoked && s.devices[slot].publicKey.Some?
  }

  /** The slots of the policy are live, and a local run's key is not the phone's. */
  predicate SlotsReady(s: State, policy: Policy)
  {
    && (policy != Companion ==> SlotLive(s, "mac-human"))
    && (policy != Local ==> SlotLive(s, "phone-human"))
    && (policy == Local && "phone-human" in s.devices ==> s.devices["phone-human"].publicKey != s.devices["mac-human"].publicKey)
  }

  lemma SlotSignaturesHold(cfg: Config, s: State, sign: (PublicKey, Message) -> Signature, policy: Policy, message: Message)
    requires Honest(cfg, P256, sign) && SlotsReady(s, policy)
    ensures var sg := SlotSignatures(s, sign, policy, message);
            && sg.Keys == (match policy case Local => {"mac"} case Companion => {"phone"} case Dual => {"mac", "phone"})
            && (policy != Companion ==> SlotKeySigned(cfg, s, "mac-human", message, sg["mac"]))
            && (policy != Local ==> SlotKeySigned(cfg, s, "phone-human", message, sg["phone"]))
  {
    SlotWords();
  }

  /** What the ready slots sign is accepted, unless the holder is installed. */
  lemma SessionDocumentAccepted(cfg: Config, s: State, sign: (PublicKey, Message) -> Signature, purpose: Purpose, policy: Policy,
                                subject: string, digest: Digest, argv: Argv, authorized: Option<Authorized>, expiresAt: int, now: int)
    requires Honest(cfg, P256, sign) && SlotsReady(s, policy) && !cfg.installed && 0 <= expiresAt && now < expiresAt
    requires authorized.Some? ==> authorized.value.payloadDigest == digest && authorized.value.launchArgv == argv
    ensures HumanHolds(cfg, s, SessionDocument(cfg, s, sign, purpose, policy, subject, digest, argv, expiresAt),
                       purpose, Some(policy), subject, authorized, now)
  {
    var h := SessionDocument(cfg, s, sign, purpose, policy, subject, digest, argv, expiresAt);
    SlotSignaturesHold(cfg, s, sign, policy, h.bound.value);
    SessionHoldsExactly(cfg, s, h, policy, subject, authorized);
  }
}
