/** What one step of an exact run, of a session key's submission or of a phone's
    receipt leaves, record by record, and that honest runs go through. */
module HolderSlotLaws {
  import opened Wrappers
  import opened HolderRecords
  import opened HolderAuthorization
  import opened HolderPlans
  import opened HolderInvariant
  import opened HolderTheorems
  import opened HolderExactRun
  import opened HolderDocuments
  import opened HolderLaws

  // Exact runs

  /** Issuing remembers the run for two minutes, with the message of its own terms. */
  lemma IssueLaw(cfg: Config, s: State, step: Step)
    requires step.request.op.IssueExactRun?
    ensures var op, expiry := step.request.op, step.request.now + 120;
            var can := && (s.policy.Some? ==> s.policy.value.generation == s.generation)
                       && op.binding.keyGeneration == s.keyGeneration && op.binding.launchArgv != [] && op.snapshot.Some? && step.request.admitted;
            Perform(cfg, s, step) ==
            Left(step,
                 if !can || step.survives == 0 then s
                 else
                   var bound := ExactRun(cfg.holderId, op.snapshot.value, op.binding.launchArgv, op.nonce, op.policy, s.generation, s.keyGeneration, expiry);
                   s.(pending := Some(Pending(op.peer, op.nonce, op.snapshot.value, op.binding.launchArgv, op.binding.terms, bound, op.policy,
                                              s.generation, s.keyGeneration, expiry)),
                      history := s.history + [Issued(bound)]))
  {
    var plan := PlanOf(cfg, s, step.request);
    if plan.accepted {
      CutOne(s, plan.effects[0], step.survives);
    }
  }

  /** An authorization of another peer, nonce or policy, or without a pending run, does
      nothing; a stale one forgets the run. */
  lemma StaleAuthorizationLaw(cfg: Config, s: State, step: Step)
    requires step.request.op.AuthorizeExactRun?
    requires var op := step.request.op;
             !(&& (s.policy.Some? ==> s.policy.value.generation == s.generation) && op.signatures.Keys != {} && s.pending.Some?
               && s.pending.value.peer == op.peer
               && (op.namedNonce.None? || op.namedNonce == Some(s.pending.value.nonce))
               && (op.namedPolicy.None? || op.namedPolicy == Some(s.pending.value.policy))
               && step.request.now <= s.pending.value.expiry
               && s.pending.value.generation == s.generation && s.pending.value.keyGeneration == s.keyGeneration)
    ensures !PlanOf(cfg, s, step.request).accepted
    ensures var op := step.request.op;
            var stale := && (s.policy.Some? ==> s.policy.value.generation == s.generation) && op.signatures.Keys != {} && s.pending.Some?
                         && s.pending.value.peer == op.peer
                         && (op.namedNonce.None? || op.namedNonce == Some(s.pending.value.nonce))
                         && (op.namedPolicy.None? || op.namedPolicy == Some(s.pending.value.policy));
            Perform(cfg, s, step) == Left(step, if stale && 0 < step.survives then s.(pending := None) else s)
  {
    CutOne(s, Forget, step.survives);
  }

  /** A timely one is accepted exactly when the consume its pending run stands for is:
      that run's nonce, payload, vector and terms, with the session document of its
      message. */
  lemma AuthorizationIsConsume(cfg: Config, s: State, q: Request)
    requires q.op.AuthorizeExactRun?
    requires && (s.policy.Some? ==> s.policy.value.generation == s.generation) && q.op.signatures.Keys != {} && s.pending.Some?
             && s.pending.value.peer == q.op.peer
             && (q.op.namedNonce.None? || q.op.namedNonce == Some(s.pending.value.nonce))
             && (q.op.namedPolicy.None? || q.op.namedPolicy == Some(s.pending.value.policy))
             && q.now <= s.pending.value.expiry
             && s.pending.value.generation == s.generation && s.pending.value.keyGeneration == s.keyGeneration
    ensures var p := s.pending.value;
            var h := Human(ExactRunSession, false, ToConsume, Some(p.policy), p.nonce, Factors(p.policy), p.expiry, false, NoLabel, q.op.signatures, "", [],
                           s.generation, s.keyGeneration, cfg.holderId, p.payloadDigest, p.launchArgv, Some(p.bound));
            var consume := Request(Consume(p.nonce, p.policy, h, Binding(p.launchArgv, s.keyGeneration, p.terms), Some(p.payloadDigest)), q.now, true);
            && (PlanOf(cfg, s, q).accepted <==> q.admitted && PlanOf(cfg, s, consume).accepted)
            && PlanOf(cfg, s, q).effects == if PlanOf(cfg, s, q).accepted then PlanOf(cfg, s, consume).effects + [Forget] else []
  {
    var p := s.pending.value;
    var h := SessionHuman(cfg, ToConsume, p.nonce, p.policy, p.expiry, p.generation, p.keyGeneration, p.payloadDigest, p.launchArgv, p.bound, q.op.signatures);
    var binding := Binding(p.launchArgv, p.keyGeneration, p.terms);
    if ConsumePlan(cfg, s, p.nonce, p.policy, h, binding, Some(p.payloadDigest), q.now, true).accepted {
      HumanHoldsExactly(cfg, s, h, ToConsume, Some(p.policy), p.nonce, Some(Authorized(p.payloadDigest, p.launchArgv, p.terms)), q.now);
      assert SessionHolds(cfg, s, h, p.policy, p.nonce, Some(Authorized(p.payloadDigest, p.launchArgv, p.terms)));
    }
  }

  // Session keys

  /** A challenge replaces the one pending for its role, for two minutes. */
  lemma IssueChallengeLaw(cfg: Config, s: State, step: Step)
    requires step.request.op.IssueDeviceChallenge?
    ensures var op := step.request.op;
            var can := (s.policy.Some? ==> s.policy.value.generation == s.generation) && step.request.admitted;
            Perform(cfg, s, step) ==
            Left(step, if !can || step.survives == 0 then s
                       else s.(challenges := s.challenges[op.role := SlotChallenge(op.peer, op.nonce, step.request.now + 120, s.generation, op.challenge)]))
  {
    var plan := PlanOf(cfg, s, step.request);
    if plan.accepted {
      CutOne(s, plan.effects[0], step.survives);
    }
  }

  lemma CancelChallengeLaw(cfg: Config, s: State, step: Step)
    requires step.request.op.CancelDeviceChallenge?
    ensures var op := step.request.op;
            var can := && (s.policy.Some? ==> s.policy.value.generation == s.generation)
                       && op.role in s.challenges && s.challenges[op.role].peer == op.peer && step.request.admitted;
            Perform(cfg, s, step) == Left(step, if !can || step.survives == 0 then s else s.(challenges := s.challenges - {op.role}))
  {
    var plan := PlanOf(cfg, s, step.request);
    if plan.accepted {
      CutOne(s, plan.effects[0], step.survives);
    }
  }

  /** A submission is verified when it repeats the pending challenge of its role and
      peer, in time and generation, with an unspent nonce and the key's own signature. */
  lemma SubmissionHoldsExactly(cfg: Config, s: State, role: Role, peer: int, m: Submission, now: int)
    ensures SubmissionHolds(cfg, s, role, peer, m, now) <==>
            && (s.policy.Some? ==> s.policy.value.generation == s.generation)
            && m.key != "" && m.signature != "" && m.nonce != "" && m.nonce !in s.deviceNonces
            && role in s.challenges && s.challenges[role] == SlotChallenge(peer, m.nonce, m.expiry, s.generation, m.challenge)
            && now <= m.expiry && m.generation == s.generation && m.holderId == cfg.holderId
            && cfg.verify(P256, m.key, SlotBinding(cfg.holderId, s.generation, role, m.expiry, m.nonce, m.challenge), m.signature)
  {
    if role in s.challenges {
      var c := s.challenges[role];
      assert SlotBinding(m.holderId, m.generation, role, m.expiry, m.nonce, m.challenge) ==
             SlotBinding(cfg.holderId, c.generation, role, c.expiry, c.nonce, c.challenge) <==>
             m.holderId == cfg.holderId && m.generation == c.generation && m.expiry == c.expiry && m.nonce == c.nonce && m.challenge == c.challenge;
    }
  }

  /** A verified submission uses up its challenge and then its nonce; unless the other
      slot has that key or the holder is installed, it then puts the key into its slot,
      and then leaves the phone's receipt waiting, or drops it for the Mac's key. */
  lemma SubmitLaw(cfg: Config, s: State, step: Step)
    requires step.request.op.SubmitDeviceSignature?
    ensures var op, n := step.request.op, step.survives;
            var m, slot, other := op.submission, if op.role == Mac then "mac-human" else "phone-human", if op.role == Mac then "phone-human" else "mac-human";
            var refused := cfg.installed || (other in s.devices && s.devices[other].publicKey == Some(m.key));
            var used := s.(challenges := s.challenges - {op.role});
            var spent := used.(deviceNonces := s.deviceNonces + {m.nonce});
            var stored := spent.(devices := s.devices[slot := Device(op.role, false, Some(m.key), P256, cfg.fingerprintOf(m.key), s.generation)]);
            Perform(cfg, s, step) ==
            Left(step,
                 if !SubmissionHolds(cfg, s, op.role, op.peer, m, step.request.now) || !step.request.admitted || n == 0 then s
                 else if n == 1 then used
                 else if n == 2 || refused then spent
                 else if n == 3 then stored
                 else stored.(receipt := if op.role == Mac then None
                                         else Some(Receipt(m.nonce, m.challenge, s.generation, cfg.fingerprintOf(m.key), m.key, false))))
  {
    SlotWords();
    var op := step.request.op;
    var m := op.submission;
    if SubmissionHolds(cfg, s, op.role, op.peer, m, step.request.now) && step.request.admitted {
      var slot := if op.role == Mac then "mac-human" else "phone-human";
      var device := Device(op.role, false, Some(m.key), P256, cfg.fingerprintOf(m.key), s.generation);
      var waiting := if op.role == Mac then None else Some(Receipt(m.nonce, m.challenge, s.generation, cfg.fingerprintOf(m.key), m.key, false));
      SubmitEffectsAre(cfg, s, step.request);
      UsedState(s, s.challenges - {op.role}, m.nonce, step.survives);
      StoredState(s, s.challenges - {op.role}, m.nonce, s.devices[slot := device], waiting, step.survives);
    }
  }

  lemma UsedState(s: State, challenges: map<Role, SlotChallenge>, nonce: Nonce, n: nat)
    ensures var used := s.(challenges := challenges);
            ApplyAll(s, Prefix([SetChallenges(challenges), SpendDeviceNonce(nonce)], n)) ==
            if n == 0 then s else if n == 1 then used else used.(deviceNonces := s.deviceNonces + {nonce})
  {
    CutTwo(s, SetChallenges(challenges), SpendDeviceNonce(nonce), n);
  }

  lemma StoredState(s: State, challenges: map<Role, SlotChallenge>, nonce: Nonce, devices: map<DeviceId, Device>, waiting: Option<Receipt>, n: nat)
    ensures var used := s.(challenges := challenges);
            var spent := used.(deviceNonces := s.deviceNonces + {nonce});
            ApplyAll(s, Prefix([SetChallenges(challenges), SpendDeviceNonce(nonce), WriteDevices(devices), WriteReceipt(waiting)], n)) ==
            if n == 0 then s else if n == 1 then used else if n == 2 then spent else if n == 3 then spent.(devices := devices)
            else spent.(devices := devices, receipt := waiting)
  {
    var a, b, c, d := SetChallenges(challenges), SpendDeviceNonce(nonce), WriteDevices(devices), WriteReceipt(waiting);
    UsedState(s, challenges, nonce, n);
    if n < 2 {
      assert Prefix([a, b, c, d], n) == Prefix([a, b], n);
    } else {
      var middle := s.(challenges := challenges, deviceNonces := s.deviceNonces + {nonce});
      assert Apply(Apply(s, a), b) == middle;
      CutRest(s, a, b, c, d, n);
      KeyState(middle, devices, waiting, n - 2);
    }
  }

  lemma KeyState(s: State, devices: map<DeviceId, Device>, waiting: Option<Receipt>, n: nat)
    ensures ApplyAll(s, Prefix([WriteDevices(devices), WriteReceipt(waiting)], n)) ==
            if n == 0 then s else if n == 1 then s.(devices := devices) else s.(devices := devices, receipt := waiting)
  {
    CutTwo(s, WriteDevices(devices), WriteReceipt(waiting), n);
  }

  lemma CutRest(s: State, a: Effect, b: Effect, c: Effect, d: Effect, n: nat)
    requires 2 <= n
    ensures ApplyAll(s, Prefix([a, b, c, d], n)) == ApplyAll(Apply(Apply(s, a), b), Prefix([c, d], n - 2))
  {
    var kept := Prefix([a, b, c, d], n);
    assert kept[1..][1..] == Prefix([c, d], n - 2) && kept[1..][0] == b;
    assert ApplyAll(s, kept) == ApplyAll(Apply(s, a), kept[1..]);
  }

  lemma SubmitEffectsAre(cfg: Config, s: State, q: Request)
    requires q.op.SubmitDeviceSignature? && SubmissionHolds(cfg, s, q.op.role, q.op.peer, q.op.submission, q.now) && q.admitted
    ensures var m, slot := q.op.submission, if q.op.role == Mac then "mac-human" else "phone-human";
            var other := if q.op.role == Mac then "phone-human" else "mac-human";
            var a, b := SetChallenges(s.challenges - {q.op.role}), SpendDeviceNonce(m.nonce);
            var c := WriteDevices(s.devices[slot := Device(q.op.role, false, Some(m.key), P256, cfg.fingerprintOf(m.key), s.generation)]);
            var d := WriteReceipt(if q.op.role == Mac then None else Some(Receipt(m.nonce, m.challenge, s.generation, cfg.fingerprintOf(m.key), m.key, false)));
            PlanOf(cfg, s, q).effects ==
            if cfg.installed || (other in s.devices && s.devices[other].publicKey == Some(m.key)) then [a, b] else [a, b, c, d]
  {
    SlotWords();
  }

  // The phone's receipt

  /** A receipt can be prepared when it is of this generation and a spent challenge and
      both slots are live, the phone's with the receipt's own key and fingerprint. */
  lemma PrepareAcceptedExactly(cfg: Config, s: State, q: Request)
    requires q.op.PreparePhoneReceipt?
    ensures PlanOf(cfg, s, q).accepted <==>
            && (s.policy.Some? ==> s.policy.value.generation == s.generation) && s.receipt.Some? && q.admitted
            && var r := s.receipt.value;
            && r.challengeId == q.op.challengeId && r.generation == s.generation && r.challengeId in s.deviceNonces
            && "mac-human" in s.devices && !s.devices["mac-human"].revoked && s.devices["mac-human"].publicKey.Some?
            && "phone-human" in s.devices && !s.devices["phone-human"].revoked
            && s.devices["phone-human"].fingerprint == r.phoneFingerprint && s.devices["phone-human"].publicKey == Some(r.phoneKey)
            && (q.op.macKey.Some? ==> q.op.macKey == s.devices["mac-human"].publicKey)
            && var key := s.devices["mac-human"].publicKey.value;
               q.op.claimed == None || q.op.claimed == Some(PhoneReceipt(cfg.holderId, s.generation, r.challengeId, r.challenge, r.phoneFingerprint, key))
  {
    SlotWords();
  }

  /** Preparing changes nothing. A seal is accepted exactly when a prepare of the same
      receipt is, the receipt is not sealed, and the Mac slot's key signed it. */
  lemma SealLaw(cfg: Config, s: State, step: Step)
    requires step.request.op.SealPhoneReceipt?
    ensures var op := step.request.op;
            var can := && PlanOf(cfg, s, Request(PreparePhoneReceipt(op.challengeId, op.macKey, op.claimed), step.request.now, step.request.admitted)).accepted
                       && s.receipt.Some? && !s.receipt.value.isSealed && op.signature != ""
                       && var r := s.receipt.value;
                       "mac-human" in s.devices && s.devices["mac-human"].publicKey.Some? &&
                       var key := s.devices["mac-human"].publicKey.value;
                       cfg.verify(P256, key, PhoneReceipt(cfg.holderId, s.generation, r.challengeId, r.challenge, r.phoneFingerprint, key), op.signature);
            Perform(cfg, s, step) ==
            Left(step, if can && 0 < step.survives then s.(receipt := Some(s.receipt.value.(isSealed := true))) else s)
  {
    SlotWords();
    var plan := PlanOf(cfg, s, step.request);
    if plan.accepted {
      CutOne(s, plan.effects[0], step.survives);
    }
  }
}
