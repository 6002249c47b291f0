/** What runs do to device records, to the keys in the two session slots and the
    phone's receipt, and to the callers' keys. */
module HolderDevices {
  import opened Wrappers
  import opened HolderRecords
  import opened HolderAuthorization
  import opened HolderPlans
  import opened HolderInvariant
  import opened HolderTheorems

  /** The steps of an execute touch neither devices, callers nor receipts. */
  lemma ExecuteKeepsKeys(cfg: Config, s: State, token: Nonce, h: Human, sealedArgv: Option<Argv>, spawn: Spawn,
                         now: int, admitted: bool, e: Effect)
    requires e in ExecutePlan(cfg, s, token, h, sealedArgv, spawn, now, admitted).effects
    ensures !Harmless(e)
  {
    if e != WriteLease(RunningLease(token, None)) {
      SpawnStepFits(s, RecordOf(s.spent, token).value, spawn, e);
    }
  }

  lemma OtherKeepsKeys(cfg: Config, s: State, q: Request, e: Effect)
    requires !KeysOnly(q.op) && !q.op.Rotate? && !q.op.Execute? && !q.op.ExecuteExactRun?
    requires e in PlanOf(cfg, s, q).effects
    ensures !e.WriteDevices? && !e.WriteCallers? && (e.WriteReceipt? ==> e.receipt.None?)
  {
  }

  /** The operations that write device records. */
  predicate WritesDevices(op: Op)
  {
    op.Pair? || op.ReplaceKey? || op.Revoke? || op.SubmitDeviceSignature?
  }

  lemma KeyWriters(cfg: Config, s: State, q: Request, e: Effect)
    requires e in PlanOf(cfg, s, q).effects
    ensures e.WriteDevices? ==> WritesDevices(q.op)
    ensures e.WriteReceipt? && e.receipt.Some? ==> q.op.SubmitDeviceSignature? || q.op.SealPhoneReceipt?
    ensures e.WriteCallers? ==> q.op.Enroll? || q.op.Rotate?
  {
    match q.op {
      case Execute(t, h, a, w) => ExecuteKeepsKeys(cfg, s, t, h, a, w, q.now, q.admitted, e);
      case ExecuteExactRun(n, sg, a, w) =>
        ExecuteKeepsKeys(cfg, s, n, ExecuteHuman(cfg, RecordOf(s.spent, n).value, sg), a, w, q.now, q.admitted, e);
      case _ => if !KeysOnly(q.op) && !q.op.Rotate? { OtherKeepsKeys(cfg, s, q, e); }
    }
  }

  lemma {:induction false} KeysKept(s: State, effects: seq<Effect>)
    ensures (forall e :: e in effects ==> !e.WriteDevices?) ==> ApplyAll(s, effects).devices == s.devices
    ensures (forall e :: e in effects ==> !e.WriteCallers?) ==> ApplyAll(s, effects).callers == s.callers
    decreases |effects|
  {
    if effects != [] {
      KeysKept(Apply(s, effects[0]), effects[1..]);
    }
  }

  lemma {:induction false} NoncesKept(s: State, effects: seq<Effect>)
    ensures s.deviceNonces <= ApplyAll(s, effects).deviceNonces
    ensures (forall e :: e in effects ==> !e.SetChallenges?) ==> ApplyAll(s, effects).challenges == s.challenges
    decreases |effects|
  {
    if effects != [] {
      NoncesKept(Apply(s, effects[0]), effects[1..]);
    }
  }

  // Devices

  predicate Live(s: State, id: DeviceId)
  {
    id in s.devices && !s.devices[id].revoked
  }

  /** The record an accepted, uncut-so-far step puts under one name, if any. */
  ghost function Written(cfg: Config, s: State, step: Step): Option<(DeviceId, Device)>
  {
    var op := step.request.op;
    if !PlanOf(cfg, s, step.request).accepted then None
    else match op
      case Pair(d, r, k, a, f, _) => if 1 <= step.survives then Some((d, Device(r, false, k, a, f, s.generation))) else None
      case ReplaceKey(d, f, _) => if 1 <= step.survives then Some((d, s.devices[d].(fingerprint := f))) else None
      case Revoke(d, _) => if 1 <= step.survives then Some((d, s.devices[d].(revoked := true))) else None
      case SubmitDeviceSignature(r, _, m) => if 3 <= step.survives then Some((SessionSlot(r), SubmittedDevice(cfg, s, r, m))) else None
      case _ => None
  }

  lemma {:induction false} DevicesFromWrite(s: State, effects: seq<Effect>, k: nat)
    requires k < |effects| && effects[k].WriteDevices?
    requires forall i :: 0 <= i < |effects| && effects[i].WriteDevices? ==> i == k
    ensures ApplyAll(s, effects).devices == effects[k].devices
    decreases |effects|
  {
    var s' := Apply(s, effects[0]);
    if k == 0 {
      forall e | e in effects[1..] ensures !e.WriteDevices? {
        var i :| 0 <= i < |effects| - 1 && effects[1..][i] == e;
        assert effects[i + 1] == e;
      }
      KeysKept(s', effects[1..]);
    } else {
      forall i | 0 <= i < |effects| - 1 && effects[1..][i].WriteDevices? ensures i == k - 1 { assert effects[i + 1].WriteDevices?; }
      DevicesFromWrite(s', effects[1..], k - 1);
    }
  }

  lemma DeviceWriteAt(cfg: Config, s: State, q: Request, k: nat)
    requires k < |PlanOf(cfg, s, q).effects| && PlanOf(cfg, s, q).effects[k].WriteDevices?
    ensures WritesDevices(q.op) && PlanOf(cfg, s, q).accepted
    ensures k == if q.op.SubmitDeviceSignature? then 2 else 0
  {
    KeyWriters(cfg, s, q, PlanOf(cfg, s, q).effects[k]);
  }

  /** Where that record is written, and what the write is. */
  lemma WrittenAt(cfg: Config, s: State, step: Step)
    ensures var w, k := Written(cfg, s, step), if step.request.op.SubmitDeviceSignature? then 2 else 0;
            var kept := Prefix(PlanOf(cfg, s, step.request).effects, step.survives);
            && (w.Some? <==> k < |kept| && kept[k].WriteDevices?)
            && (w.Some? ==> kept[k] == WriteDevices(s.devices[w.value.0 := w.value.1]))
  {
    var effects := PlanOf(cfg, s, step.request).effects;
    var k := if step.request.op.SubmitDeviceSignature? then 2 else 0;
    if k < |effects| && effects[k].WriteDevices? {
      DeviceWriteAt(cfg, s, step.request, k);
    }
  }

  /** The devices after one step of any operation: all as they were, but for the one
      record an accepted pairing, replacement, revocation or submission wrote. */
  lemma DevicesAfter(cfg: Config, s: State, step: Step)
    ensures var w := Written(cfg, s, step);
            Perform(cfg, s, step).devices == if w.Some? then s.devices[w.value.0 := w.value.1] else s.devices
  {
    var kept := Prefix(PlanOf(cfg, s, step.request).effects, step.survives);
    var k := if step.request.op.SubmitDeviceSignature? then 2 else 0;
    WrittenAt(cfg, s, step);
    forall i | 0 <= i < |kept| && kept[i].WriteDevices? ensures i == k {
      assert kept[i] == PlanOf(cfg, s, step.request).effects[i];
      DeviceWriteAt(cfg, s, step.request, i);
    }
    if Written(cfg, s, step).Some? {
      DevicesFromWrite(s, kept, k);
    } else {
      KeysKept(s, kept);
    }
  }

  /** A device is live after the step with a role or key it was not live with before. */
  predicate NewlyKeyed(s: State, t: State, id: DeviceId)
  {
    Live(t, id) && !(Live(s, id) && t.devices[id].role == s.devices[id].role && t.devices[id].publicKey == s.devices[id].publicKey)
  }

  /** This request pairs the device, or submits a session key for its slot. */
  predicate Installs(op: Op, id: DeviceId)
  {
    (op.Pair? && op.device == id) || (op.SubmitDeviceSignature? && SessionSlot(op.role) == id)
  }

  /** When one step re-keys or un-revokes a device: exactly when it is an accepted
      pairing of it, or an accepted submission for its slot, not cut before the
      record was written, and brings a role or key the device did not have live.
      A pairing needs it not live; a submission asks nothing of the old record. */
  lemma NewlyKeyedExactly(cfg: Config, s: State, step: Step, id: DeviceId)
    ensures var w := Written(cfg, s, step);
            NewlyKeyed(s, Perform(cfg, s, step), id) <==>
              && Installs(step.request.op, id) && w.Some?
              && !(Live(s, id) && w.value.1.role == s.devices[id].role && w.value.1.publicKey == s.devices[id].publicKey)
    ensures Written(cfg, s, step).Some? && step.request.op.Pair? ==> !Live(s, step.request.op.device)
  {
    DevicesAfter(cfg, s, step);
  }

  /** When one step ends a live device: exactly when it is an accepted revocation of it. */
  lemma RevokedExactly(cfg: Config, s: State, step: Step, id: DeviceId)
    requires Live(s, id)
    ensures !Live(Perform(cfg, s, step), id) <==>
            step.request.op.Revoke? && step.request.op.device == id && Written(cfg, s, step).Some?
    ensures id in Perform(cfg, s, step).devices
  {
    DevicesAfter(cfg, s, step);
  }

  /** No request of the run submits a key for this slot, or none could be accepted. */
  predicate NoSubmission(cfg: Config, steps: seq<Step>, id: DeviceId)
  {
    cfg.installed || forall step :: step in steps ==>
      !(step.request.op.SubmitDeviceSignature? && SessionSlot(step.request.op.role) == id)
  }

  lemma NoSubmissionAfter(cfg: Config, steps: seq<Step>, id: DeviceId)
    requires steps != [] && NoSubmission(cfg, steps, id)
    ensures NoSubmission(cfg, steps[1..], id)
    ensures cfg.installed || !(steps[0].request.op.SubmitDeviceSignature? && SessionSlot(steps[0].request.op.role) == id)
  {
    assert steps[0] in steps;
  }

  /** Until it is revoked, and unless a session key is submitted for its slot, a
      paired device keeps its role and the key its signatures are checked with: a
      second pairing is refused, and replace-key replaces the recorded fingerprint. */
  lemma {:induction false} LiveDeviceKept(cfg: Config, s: State, steps: seq<Step>, id: DeviceId)
    requires Live(s, id) && NoSubmission(cfg, steps, id)
    requires forall step :: step in steps ==> !(step.request.op.Revoke? && step.request.op.device == id)
    ensures var t := Run(cfg, s, steps); Live(t, id) && t.devices[id] == s.devices[id].(fingerprint := t.devices[id].fingerprint)
    decreases |steps|
  {
    if steps != [] {
      assert !(steps[0].request.op.Revoke? && steps[0].request.op.device == id);
      NoSubmissionAfter(cfg, steps, id);
      DevicesAfter(cfg, s, steps[0]);
      LiveDeviceKept(cfg, Perform(cfg, s, steps[0]), steps[1..], id);
    }
  }

  /** So a signature accepted of such a device before is accepted of it after, and
      one refused before is refused after. */
  lemma KeyOutlivesReplacement(cfg: Config, s: State, steps: seq<Step>, id: DeviceId, message: Message, signature: Signature)
    requires Live(s, id) && NoSubmission(cfg, steps, id)
    requires forall step :: step in steps ==> !(step.request.op.Revoke? && step.request.op.device == id)
    ensures SignedBy(cfg, Run(cfg, s, steps).devices, id, message, signature) <==> SignedBy(cfg, s.devices, id, message, signature)
  {
    LiveDeviceKept(cfg, s, steps, id);
  }

  lemma {:induction false} RevokedStaysRevoked(cfg: Config, s: State, steps: seq<Step>, id: DeviceId)
    requires id in s.devices && s.devices[id].revoked && NoSubmission(cfg, steps, id)
    requires forall step :: step in steps ==> !(step.request.op.Pair? && step.request.op.device == id)
    ensures var t := Run(cfg, s, steps); id in t.devices && t.devices[id].revoked
    decreases |steps|
  {
    if steps != [] {
      assert !(steps[0].request.op.Pair? && steps[0].request.op.device == id);
      NoSubmissionAfter(cfg, steps, id);
      DevicesAfter(cfg, s, steps[0]);
      RevokedStaysRevoked(cfg, Perform(cfg, s, steps[0]), steps[1..], id);
    }
  }

  /** Until it is paired again or a session key is submitted for its slot, a revoked
      device authorizes nothing: a document that carries its signature, or its
      session key's, is refused after any run. */
  lemma RevokedAuthorizesNothing(cfg: Config, s: State, steps: seq<Step>, id: DeviceId, h: Human, purpose: Purpose,
                                 policy: Option<Policy>, subject: string, authorized: Option<Authorized>, now: int)
    requires id in s.devices && s.devices[id].revoked && NoSubmission(cfg, steps, id)
    requires forall step :: step in steps ==> !(step.request.op.Pair? && step.request.op.device == id)
    requires (h.means.DeviceMethod? && id in h.signatures) ||
             (h.means.ExactRunSession? && exists role :: role in h.signatures && id == role + "-human")
    ensures !HumanHolds(cfg, Run(cfg, s, steps), h, purpose, policy, subject, authorized, now)
  {
    RevokedStaysRevoked(cfg, s, steps, id);
  }

  // Session keys

  lemma SubmitEffects(cfg: Config, s: State, q: Request)
    requires q.op.SubmitDeviceSignature? && PlanOf(cfg, s, q).accepted
    ensures SubmissionHolds(cfg, s, q.op.role, q.op.peer, q.op.submission, q.now) && !cfg.installed
    ensures exists receipt ::
              PlanOf(cfg, s, q).effects ==
              [SetChallenges(s.challenges - {q.op.role}), SpendDeviceNonce(q.op.submission.nonce)] +
              [WriteDevices(s.devices[SessionSlot(q.op.role) := SubmittedDevice(cfg, s, q.op.role, q.op.submission)]), WriteReceipt(receipt)]
  {
  }

  lemma AfterTwo(s: State, a: Effect, b: Effect, rest: seq<Effect>)
    requires forall e :: e in rest ==> !e.SetChallenges?
    ensures var s2, t := Apply(Apply(s, a), b), ApplyAll(s, [a, b] + rest);
            t.challenges == s2.challenges && s2.deviceNonces <= t.deviceNonces
  {
    assert ([a, b] + rest)[1..] == [b] + rest && ([b] + rest)[1..] == rest;
    NoncesKept(Apply(Apply(s, a), b), rest);
  }

  /** An accepted submission answers the challenge the holder remembered for that
      role and peer: its own key signed the holder's message, in time, in the same
      generation; and it spends a nonce that was not spent. */
  lemma SubmissionAnswersChallenge(cfg: Config, s: State, step: Step)
    requires step.request.op.SubmitDeviceSignature? && PlanOf(cfg, s, step.request).accepted && 2 <= step.survives
    ensures var op := step.request.op;
            && op.role in s.challenges
            && var c := s.challenges[op.role];
            && c.peer == op.peer && step.request.now <= c.expiry && c.generation == s.generation
            && cfg.verify(P256, op.submission.key, SlotBinding(cfg.holderId, s.generation, op.role, c.expiry, c.nonce, c.challenge),
                          op.submission.signature)
            && c.nonce == op.submission.nonce && c.nonce !in s.deviceNonces && c.nonce in Perform(cfg, s, step).deviceNonces
            && op.role !in Perform(cfg, s, step).challenges
            && !cfg.installed
  {
    SubmitEffects(cfg, s, step.request);
    var effects := PlanOf(cfg, s, step.request).effects;
    var kept := Prefix(effects, step.survives);
    assert kept == [effects[0], effects[1]] + kept[2..];
    AfterTwo(s, effects[0], effects[1], kept[2..]);
  }

  lemma {:induction false} DeviceNoncesGrow(cfg: Config, s: State, steps: seq<Step>)
    ensures s.deviceNonces <= Run(cfg, s, steps).deviceNonces
    decreases |steps|
  {
    if steps != [] {
      NoncesKept(s, Prefix(PlanOf(cfg, s, steps[0].request).effects, steps[0].survives));
      DeviceNoncesGrow(cfg, Perform(cfg, s, steps[0]), steps[1..]);
    }
  }

  /** Each device nonce is submitted with success at most once, restarts included. */
  lemma SubmittedAtMostOnce(cfg: Config, s: State, first: Step, steps: seq<Step>, second: Step)
    requires first.request.op.SubmitDeviceSignature? && PlanOf(cfg, s, first.request).accepted && 2 <= first.survives
    requires second.request.op.SubmitDeviceSignature?
    requires second.request.op.submission.nonce == first.request.op.submission.nonce
    ensures PlanOf(cfg, Run(cfg, Perform(cfg, s, first), steps), second.request) == REFUSED
  {
    SubmissionAnswersChallenge(cfg, s, first);
    DeviceNoncesGrow(cfg, Perform(cfg, s, first), steps);
  }

  // The phone's receipt

  lemma {:induction false} ReceiptFromWrite(s: State, effects: seq<Effect>)
    ensures ApplyAll(s, effects).receipt == s.receipt || WriteReceipt(ApplyAll(s, effects).receipt) in effects
    decreases |effects|
  {
    if effects != [] {
      ReceiptFromWrite(Apply(s, effects[0]), effects[1..]);
    }
  }

  /** A receipt is only ever written unsealed by a submission of the phone's key, or
      sealed by a seal of the one in place. */
  lemma ReceiptWriters(cfg: Config, s: State, q: Request, e: Effect)
    requires e in PlanOf(cfg, s, q).effects && e.WriteReceipt? && e.receipt.Some?
    ensures e.receipt.value.isSealed ==>
            && q.op.SealPhoneReceipt? && PlanOf(cfg, s, q).accepted && s.receipt.Some?
            && !s.receipt.value.isSealed && e.receipt.value == s.receipt.value.(isSealed := true)
    ensures !e.receipt.value.isSealed ==>
            && q.op.SubmitDeviceSignature? && PlanOf(cfg, s, q).accepted && q.op.role == Phone
            && e.receipt.value.challengeId !in s.deviceNonces && e.receipt.value.phoneKey == q.op.submission.key
  {
    KeyWriters(cfg, s, q, e);
  }

  /** A receipt becomes sealed in one step only by a signature of the key now live in
      the Mac slot, over a message naming this holder, generation and challenge and
      the fingerprint of the key now live in the phone slot. */
  lemma SealIsSignedByMac(cfg: Config, s: State, step: Step)
    requires var t := Perform(cfg, s, step);
             t.receipt.Some? && t.receipt.value.isSealed && (s.receipt.None? || s.receipt.value != t.receipt.value)
    ensures var op := step.request.op;
            && op.SealPhoneReceipt? && Live(s, SessionSlot(Mac)) && Live(s, SessionSlot(Phone))
            && var r := Perform(cfg, s, step).receipt.value;
            && SlotKey(s, Mac).Some? && SlotKey(s, Phone) == Some(r.phoneKey)
            && r.phoneFingerprint == s.devices[SessionSlot(Phone)].fingerprint
            && cfg.verify(P256, SlotKey(s, Mac).value,
                          PhoneReceipt(cfg.holderId, s.generation, r.challengeId, r.challenge, r.phoneFingerprint, SlotKey(s, Mac).value),
                          op.signature)
  {
    var kept := Prefix(PlanOf(cfg, s, step.request).effects, step.survives);
    ReceiptFromWrite(s, kept);
    ReceiptWriters(cfg, s, step.request, WriteReceipt(Perform(cfg, s, step).receipt));
  }

  /** No later receipt of this challenge is unsealed. */
  predicate Closed(s: State, id: Nonce)
  {
    id in s.deviceNonces && (s.receipt.Some? && s.receipt.value.challengeId == id ==> s.receipt.value.isSealed)
  }

  lemma ClosedStep(cfg: Config, s: State, step: Step, id: Nonce)
    requires Closed(s, id)
    ensures Closed(Perform(cfg, s, step), id)
  {
    var t := Perform(cfg, s, step);
    var kept := Prefix(PlanOf(cfg, s, step.request).effects, step.survives);
    NoncesKept(s, kept);
    ReceiptFromWrite(s, kept);
    if t.receipt != s.receipt && t.receipt.Some? {
      ReceiptWriters(cfg, s, step.request, WriteReceipt(t.receipt));
    }
  }

  /** Each challenge's receipt is sealed at most once: once one is, no continuation
      seals that challenge again. */
  lemma {:induction false} SealedAtMostOnce(cfg: Config, s: State, steps: seq<Step>, q: Request)
    requires q.op.SealPhoneReceipt? && Closed(s, q.op.challengeId)
    ensures PlanOf(cfg, Run(cfg, s, steps), q) == REFUSED
    decreases |steps|
  {
    if steps != [] {
      ClosedStep(cfg, s, steps[0], q.op.challengeId);
      SealedAtMostOnce(cfg, Perform(cfg, s, steps[0]), steps[1..], q);
    }
  }

  lemma SealCloses(cfg: Config, s: State, step: Step)
    requires step.request.op.SealPhoneReceipt? && PlanOf(cfg, s, step.request).accepted && Finishes(cfg, s, step)
    ensures Closed(Perform(cfg, s, step), step.request.op.challengeId)
  {
    var w := PlanOf(cfg, s, step.request).effects[0];
    assert Prefix(PlanOf(cfg, s, step.request).effects, step.survives) == [w];
    assert ApplyAll(s, [w]) == ApplyAll(Apply(s, w), []);
  }

  // Which factor a slot stands for

  /** Each session slot holds a device paired in the slot's own role. */
  predicate SlotsMatch(s: State)
  {
    forall r :: SessionSlot(r) in s.devices ==> s.devices[SessionSlot(r)].role == r
  }

  /** This step would pair a session slot in the other role. */
  predicate Mispairs(step: Step)
  {
    step.request.op.Pair? && exists r :: step.request.op.device == SessionSlot(r) && step.request.op.role != r
  }

  lemma SlotsDiffer()
    ensures SessionSlot(Mac) != SessionSlot(Phone)
  {
    assert SessionSlot(Mac)[0] == 'm' && SessionSlot(Phone)[0] == 'p';
  }

  lemma MatchStep(cfg: Config, s: State, step: Step)
    requires SlotsMatch(s) && !Mispairs(step)
    ensures SlotsMatch(Perform(cfg, s, step))
  {
    DevicesAfter(cfg, s, step);
    SlotsDiffer();
    var t, w := Perform(cfg, s, step), Written(cfg, s, step);
    forall r | SessionSlot(r) in t.devices ensures t.devices[SessionSlot(r)].role == r {
      if w.Some? && w.value.0 == SessionSlot(r) && step.request.op.Pair? {
        assert step.request.op.device == SessionSlot(r);
      }
    }
  }

  lemma {:induction false} SlotsStayMatched(cfg: Config, s: State, steps: seq<Step>)
    requires SlotsMatch(s) && forall step :: step in steps ==> !Mispairs(step)
    ensures SlotsMatch(Run(cfg, s, steps))
    decreases |steps|
  {
    if steps != [] {
      MatchStep(cfg, s, steps[0]);
      SlotsStayMatched(cfg, Perform(cfg, s, steps[0]), steps[1..]);
    }
  }

  /** Over any run that pairs no slot in the other role and accepts no software
      double, a dropped factor was signed away by a device paired in its role. */
  lemma DroppedFactorSigned(cfg: Config, s: State, steps: seq<Step>, r: Role) returns (i: nat)
    requires s.policy.Some? && r in Factors(s.policy.value.name)
    requires Run(cfg, s, steps).policy.Some? ==> r !in Factors(Run(cfg, s, steps).policy.value.name)
    requires !cfg.allowTestDouble && SlotsMatch(s) && forall step :: step in steps ==> !Mispairs(step)
    ensures i < |steps| && SetPolicySignedBy(cfg, Run(cfg, s, steps[..i]), steps[i], r)
  {
    i := DroppedFactorAuthorized(cfg, s, steps, r);
    SlotsStayMatched(cfg, s, steps[..i]);
    var t := Run(cfg, s, steps[..i]);
    var h := steps[i].request.op.human;
    PolicyChangeAuthorizedByOldFactors(cfg, t, steps[i], r);
    if h.means.ExactRunSession? {
      assert SessionSlot(r) in t.devices && t.devices[SessionSlot(r)].role == r;
    }
    PolicyChangeSignedExactly(cfg, t, steps[i], r);
  }

  // Callers

  lemma CallerStep(cfg: Config, s: State, step: Step, c: CallerId)
    requires c in s.callers
    ensures var t := Perform(cfg, s, step);
            && c in t.callers
            && (t.callers[c] != s.callers[c] ==>
                  && step.request.op.Rotate? && s.enrollment == Some(c)
                  && t.callers[c] == Caller(false, s.callers[c].keyGeneration + 1))
  {
    var effects := PlanOf(cfg, s, step.request).effects;
    var kept := Prefix(effects, step.survives);
    if (step.request.op.Enroll? || step.request.op.Rotate?) && kept != [] {
      assert forall i :: 1 <= i < |effects| ==> !effects[i].WriteCallers?;
      assert kept[0] == effects[0];
      KeysKept(Apply(s, kept[0]), kept[1..]);
    } else {
      forall e | e in kept ensures !e.WriteCallers? {
        KeyWriters(cfg, s, step.request, e);
      }
      KeysKept(s, kept);
    }
  }

  /** Over every run, enrollments and cuts included, no caller disappears and no
      caller's own key generation decreases. */
  lemma {:induction false} CallerKeysNeverDecrease(cfg: Config, s: State, steps: seq<Step>, c: CallerId)
    requires c in s.callers
    ensures var t := Run(cfg, s, steps);
            c in t.callers && s.callers[c].keyGeneration <= t.callers[c].keyGeneration
    decreases |steps|
  {
    if steps != [] {
      CallerStep(cfg, s, steps[0], c);
      CallerKeysNeverDecrease(cfg, Perform(cfg, s, steps[0]), steps[1..], c);
    }
  }
}
