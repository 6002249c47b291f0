/** What one step of each operation leaves, record by record, and exactly when it does
    anything. A step may be cut after any of its writes. */
module HolderLaws {
  import opened Wrappers
  import opened ProcessTree
  import opened HolderRecords
  import opened HolderAuthorization
  import opened HolderPlans
  import opened HolderInvariant
  import opened HolderTheorems

  /** What a step leaves of the state it reached: the process may have died. */
  function Left(step: Step, t: State): State
  {
    if step.died then t.(pending := None, challenges := map[]) else t
  }

  lemma CutOne(s: State, a: Effect, n: nat)
    ensures ApplyAll(s, Prefix([a], n)) == if n == 0 then s else Apply(s, a)
  {
    assert ApplyAll(s, [a]) == ApplyAll(Apply(s, a), []);
  }

  lemma CutTwo(s: State, a: Effect, b: Effect, n: nat)
    ensures ApplyAll(s, Prefix([a, b], n)) == if n == 0 then s else if n == 1 then Apply(s, a) else Apply(Apply(s, a), b)
  {
    if n == 1 {
      assert Prefix([a, b], 1) == [a];
      CutOne(s, a, 1);
    } else if 1 < n {
      ApplyTwo(s, a, b);
    }
  }

  lemma CutThree(s: State, a: Effect, b: Effect, c: Effect, n: nat)
    ensures ApplyAll(s, Prefix([a, b, c], n)) ==
            if n == 0 then s else if n == 1 then Apply(s, a) else if n == 2 then Apply(Apply(s, a), b) else Apply(Apply(Apply(s, a), b), c)
  {
    if n <= 2 {
      assert Prefix([a, b, c], n) == Prefix([a, b], n);
      CutTwo(s, a, b, n);
    } else {
      ApplyThree(s, a, b, c);
    }
  }

  // Enrollment and rotation

  lemma EnrollLaw(cfg: Config, s: State, step: Step)
    requires step.request.op.Enroll?
    ensures var op, n := step.request.op, step.survives;
            var can := && (s.policy.Some? ==> s.policy.value.generation == s.generation)
                       && HumanHolds(cfg, s, op.human, ToEnroll, op.human.policy, op.caller, None, step.request.now)
                       && op.caller != "" && op.caller != "bootstrap" && op.caller !in s.callers && step.request.admitted;
            var added := s.callers[op.caller := Caller(false, 1)];
            Perform(cfg, s, step) ==
            Left(step, if !can || n == 0 then s else if n == 1 then s.(callers := added) else s.(callers := added, enrollment := Some(op.caller)))
  {
    var op := step.request.op;
    CutTwo(s, WriteCallers(s.callers[op.caller := Caller(false, 1)]), WriteEnrollment(op.caller), step.survives);
  }

  lemma RotateState(s: State, callers: map<CallerId, Caller>, next: int, n: nat)
    ensures var raised := s.(callers := callers);
            ApplyAll(s, Prefix([WriteCallers(callers), WriteMeta(s.generation, next), WriteReceipt(None)], n)) ==
            if n == 0 then s else if n == 1 then raised else if n == 2 then raised.(keyGeneration := next)
            else raised.(keyGeneration := next, receipt := None)
  {
    CutThree(s, WriteCallers(callers), WriteMeta(s.generation, next), WriteReceipt(None), n);
  }

  /** A rotation is authorized under the document's own policy. */
  lemma RotateLaw(cfg: Config, s: State, step: Step)
    requires step.request.op.Rotate?
    ensures var op, n := step.request.op, step.survives;
            var can := && (s.policy.Some? ==> s.policy.value.generation == s.generation) && s.enrollment.Some?
                       && HumanHolds(cfg, s, op.human, ToRotate, op.human.policy, s.enrollment.value, None, step.request.now)
                       && s.enrollment.value in s.callers && !s.callers[s.enrollment.value].revoked && step.request.admitted;
            Perform(cfg, s, step) ==
            Left(step,
                 if !can || n == 0 then s
                 else
                   var next := s.callers[s.enrollment.value].keyGeneration + 1;
                   var raised := s.(callers := s.callers[s.enrollment.value := Caller(false, next)]);
                   if n == 1 then raised else if n == 2 then raised.(keyGeneration := next) else raised.(keyGeneration := next, receipt := None))
  {
    if PlanOf(cfg, s, step.request).accepted {
      var c := s.enrollment.value;
      var next := s.callers[c].keyGeneration + 1;
      RotateState(s, s.callers[c := Caller(false, next)], next, step.survives);
    }
  }

  // Devices

  /** A pairing is authorized under the policy in force; before there is one, under
      the document's own. */
  lemma PairLaw(cfg: Config, s: State, step: Step)
    requires step.request.op.Pair?
    ensures var op := step.request.op;
            var can := && (s.policy.Some? ==> s.policy.value.generation == s.generation) && s.enrollment.Some?
                       && HumanHolds(cfg, s, op.human, ToPair, if s.policy.None? then op.human.policy else Some(s.policy.value.name),
                                     op.device, None, step.request.now)
                       && (op.device in s.devices ==> s.devices[op.device].revoked) && op.fingerprint != "" && step.request.admitted;
            Perform(cfg, s, step) ==
            Left(step, if !can || step.survives == 0 then s
                       else s.(devices := s.devices[op.device := Device(op.role, false, op.key, op.algorithm, op.fingerprint, s.generation)]))
  {
    var op := step.request.op;
    CutOne(s, WriteDevices(s.devices[op.device := Device(op.role, false, op.key, op.algorithm, op.fingerprint, s.generation)]), step.survives);
  }

  /** A revocation is authorized under the policy in force. */
  lemma RevokeLaw(cfg: Config, s: State, step: Step)
    requires step.request.op.Revoke?
    ensures var op, n := step.request.op, step.survives;
            var can := && s.enrollment.Some? && s.policy.Some? && s.policy.value.generation == s.generation
                       && HumanHolds(cfg, s, op.human, ToRevoke, Some(s.policy.value.name), op.device, None, step.request.now)
                       && op.device in s.devices && step.request.admitted;
            Perform(cfg, s, step) ==
            Left(step,
                 if !can || n == 0 then s
                 else
                   var revoked := s.devices[op.device := s.devices[op.device].(revoked := true)];
                   if n == 1 then s.(devices := revoked) else s.(devices := revoked, receipt := None))
  {
    var op := step.request.op;
    if PlanOf(cfg, s, step.request).accepted {
      CutTwo(s, WriteDevices(s.devices[op.device := s.devices[op.device].(revoked := true)]), WriteReceipt(None), step.survives);
    }
  }

  /** So is a replace-key, of a live device. */
  lemma ReplaceKeyLaw(cfg: Config, s: State, step: Step)
    requires step.request.op.ReplaceKey?
    ensures var op, n := step.request.op, step.survives;
            var can := && s.enrollment.Some? && s.policy.Some? && s.policy.value.generation == s.generation
                       && HumanHolds(cfg, s, op.human, ToReplaceKey, Some(s.policy.value.name), op.device, None, step.request.now)
                       && op.device in s.devices && !s.devices[op.device].revoked && op.fingerprint != "" && step.request.admitted;
            Perform(cfg, s, step) ==
            Left(step,
                 if !can || n == 0 then s
                 else
                   var replaced := s.devices[op.device := s.devices[op.device].(fingerprint := op.fingerprint)];
                   if n == 1 then s.(devices := replaced) else s.(devices := replaced, receipt := None))
  {
    var op := step.request.op;
    if PlanOf(cfg, s, step.request).accepted {
      CutTwo(s, WriteDevices(s.devices[op.device := s.devices[op.device].(fingerprint := op.fingerprint)]), WriteReceipt(None), step.survives);
    }
  }

  // The policy

  /** A set-policy goes to the policy its subject names, or else the document's own.
      Keeping every factor, or setting the first policy, is authorized under the new
      one; dropping a factor under the old one. */
  lemma SetPolicyAcceptedExactly(cfg: Config, s: State, q: Request)
    requires q.op.SetPolicy?
    ensures var h := q.op.human;
            var to := if h.subject == "local" then Some(Local) else if h.subject == "companion" then Some(Companion)
                      else if h.subject == "dual" then Some(Dual) else h.policy;
            PlanOf(cfg, s, q).accepted <==>
              && (s.policy.Some? ==> s.policy.value.generation == s.generation) && s.enrollment.Some? && to.Some?
              && HumanHolds(cfg, s, h, ToSetPolicy,
                            if s.policy.None? || s.policy.value.name == to.value || to.value == Dual then to else Some(s.policy.value.name),
                            match to.value case Local => "local" case Companion => "companion" case Dual => "dual", None, q.now)
              && q.admitted
  {
    if Destination(q.op.human).Some? {
      RaisesOrKeeps(s, Destination(q.op.human).value);
    }
  }

  lemma RaisesOrKeeps(s: State, to: Policy)
    ensures MutationPolicy(s, to) == if s.policy.None? || s.policy.value.name == to || to == Dual then to else s.policy.value.name
  {
    assert Mac in Factors(Local) && Mac !in Factors(Companion) && Phone in Factors(Companion) && Phone !in Factors(Local);
    assert Mac in Factors(Dual) && Phone in Factors(Dual);
    forall r: Role ensures r in Factors(Dual) { assert r == Mac || r == Phone; }
  }

  lemma SetPolicyState(s: State, to: Policy, n: nat)
    ensures var moved := s.(policy := Some(PolicyRecord(to, s.generation + 1)));
            ApplyAll(s, Prefix([WritePolicy(PolicyRecord(to, s.generation + 1)), WriteMeta(s.generation + 1, s.keyGeneration), WriteReceipt(None)], n)) ==
            if n == 0 then s else if n == 1 then moved else if n == 2 then moved.(generation := s.generation + 1)
            else moved.(generation := s.generation + 1, receipt := None)
  {
    CutThree(s, WritePolicy(PolicyRecord(to, s.generation + 1)), WriteMeta(s.generation + 1, s.keyGeneration), WriteReceipt(None), n);
  }

  /** It raises both generations by one, the policy's first. */
  lemma SetPolicyLeaves(cfg: Config, s: State, step: Step)
    requires step.request.op.SetPolicy?
    ensures var h, n := step.request.op.human, step.survives;
            var to := if h.subject == "local" then Some(Local) else if h.subject == "companion" then Some(Companion)
                      else if h.subject == "dual" then Some(Dual) else h.policy;
            Perform(cfg, s, step) ==
            Left(step,
                 if !PlanOf(cfg, s, step.request).accepted || n == 0 || to.None? then s
                 else
                   var moved := s.(policy := Some(PolicyRecord(to.value, s.generation + 1)));
                   if n == 1 then moved else if n == 2 then moved.(generation := s.generation + 1)
                   else moved.(generation := s.generation + 1, receipt := None))
  {
    if PlanOf(cfg, s, step.request).accepted {
      SetPolicyState(s, Destination(step.request.op.human).value, step.survives);
    }
  }

  /** Whoever's factors a change asks for contributed: all of the new policy's when it
      keeps the old ones or is the first, all of the old policy's otherwise. */
  lemma ChangeAuthorizedByItsFactors(cfg: Config, s: State, step: Step, r: Role)
    requires step.request.op.SetPolicy? && PlanOf(cfg, s, step.request).accepted
    requires var to := Destination(step.request.op.human);
             to.Some? ==> r in Factors(if s.policy.None? || Factors(s.policy.value.name) <= Factors(to.value) then to.value else s.policy.value.name)
    ensures var h := step.request.op.human;
            && Destination(h).Some?
            && var to := Destination(h).value;
            FactorAuthorized(cfg, s, h, ToSetPolicy,
                             if s.policy.None? || Factors(s.policy.value.name) <= Factors(to) then to else s.policy.value.name,
                             PolicyName(to), None, r)
  {
    var h := step.request.op.human;
    var to := Destination(h).value;
    AuthorizedByEveryFactor(cfg, s, h, ToSetPolicy, MutationPolicy(s, to), PolicyName(to), None, step.request.now, r);
  }

  // Consume

  /** A consume asks for a free lease, a nonce never spent, the policy in force with a
      live device for each of its roles, the current key generation, a payload that is
      not the holder, and a document accepted for this very payload, launch vector and
      terms. */
  lemma ConsumeAcceptedExactly(cfg: Config, s: State, q: Request)
    requires q.op.Consume?
    ensures var op := q.op;
            PlanOf(cfg, s, q).accepted <==>
              && s.policy == Some(PolicyRecord(op.policy, s.generation))
              && (s.lease.Some? ==> !s.lease.value.held)
              && op.nonce != "" && (forall r :: r in s.spent ==> r.nonce != op.nonce)
              && op.binding.keyGeneration == s.keyGeneration && op.binding.launchArgv != []
              && op.snapshot.Some? && op.snapshot.value != cfg.holderId
              && (op.human.means == TestDouble ||
                  ((op.policy != Companion ==> exists id :: id in s.devices && !s.devices[id].revoked && s.devices[id].role == Mac) &&
                   (op.policy != Local ==> exists id :: id in s.devices && !s.devices[id].revoked && s.devices[id].role == Phone)))
              && (forall id :: id in op.human.namedDevices ==> id in s.devices && !s.devices[id].revoked)
              && op.human.means != Bootstrap
              && (op.human.means == ExactRunSession ==>
                    op.human.payloadDigest == op.snapshot.value && op.human.launchArgv == op.binding.launchArgv)
              && HumanHolds(cfg, s, op.human, ToConsume, Some(op.policy), op.nonce,
                            Some(Authorized(op.snapshot.value, op.binding.launchArgv, op.binding.terms)), q.now)
              && q.admitted
  {
    LiveDevicesAre(s, q.op.policy, q.op.human);
    RecordIsFirst(s.spent, q.op.nonce);
  }

  lemma LiveDevicesAre(s: State, policy: Policy, h: Human)
    ensures LiveDevices(s, policy, h) <==>
            && (h.means == TestDouble ||
                ((policy != Companion ==> exists id :: id in s.devices && !s.devices[id].revoked && s.devices[id].role == Mac) &&
                 (policy != Local ==> exists id :: id in s.devices && !s.devices[id].revoked && s.devices[id].role == Phone)))
            && (forall id :: id in h.namedDevices ==> id in s.devices && !s.devices[id].revoked)
  {
    assert Mac in Factors(policy) <==> policy != Companion;
    assert Phone in Factors(policy) <==> policy != Local;
  }

  /** It spends a record of exactly what was authorized, and then holds the lease. */
  lemma ConsumeLeaves(cfg: Config, s: State, step: Step)
    requires step.request.op.Consume?
    ensures var op, n := step.request.op, step.survives;
            Perform(cfg, s, step) ==
            Left(step,
                 if !PlanOf(cfg, s, step.request).accepted || n == 0 || op.snapshot.None? then s
                 else
                   var session := if op.human.means == ExactRunSession && op.human.bound.Some?
                                  then Some(Session(op.human.bound.value, op.human.expiresAt)) else None;
                   var spent := s.spent + [SpentRecord(op.nonce, op.snapshot.value, op.binding.launchArgv, op.binding.terms, op.policy,
                                                       s.generation, s.keyGeneration, session)];
                   if n == 1 then s.(spent := spent) else s.(spent := spent, lease := Some(Lease(true, op.nonce, Uncertain, None, false))))
  {
    var op := step.request.op;
    if PlanOf(cfg, s, step.request).accepted {
      CutTwo(s, WriteSpent(ConsumedRecord(s, op.nonce, op.policy, op.human, op.binding, op.snapshot.value)),
             WriteLease(UncertainLease(op.nonce)), step.survives);
    }
  }

  /** Whenever a consume grows the spent list, every factor of the policy in force
      contributed to this nonce with the payload, launch vector and terms that were
      spent. */
  lemma SpentAsAuthorized(cfg: Config, s: State, step: Step, factor: Role)
    requires step.request.op.Consume? && Perform(cfg, s, step).spent != s.spent
    requires s.policy.Some? ==> factor in Factors(s.policy.value.name)
    ensures var t, op := Perform(cfg, s, step), step.request.op;
            && s.policy.Some? && |t.spent| == |s.spent| + 1
            && var r := t.spent[|s.spent|];
            && r.nonce == op.nonce && r.policy == s.policy.value.name
            && FactorAuthorized(cfg, s, op.human, ToConsume, s.policy.value.name, r.nonce,
                                Some(Authorized(r.payloadDigest, r.launchArgv, r.terms)), factor)
  {
    var op := step.request.op;
    ConsumeLeaves(cfg, s, step);
    ConsumeAcceptedExactly(cfg, s, step.request);
    AuthorizedByEveryFactor(cfg, s, op.human, ToConsume, op.policy, op.nonce,
                            Some(Authorized(op.snapshot.value, op.binding.launchArgv, op.binding.terms)), step.request.now, factor);
  }

  // Cancel

  /** A cancel is of an uncertain lease without a pid, not of an exact run, under the
      document's own policy, and leaves the lease free and cancelled. */
  lemma CancelLaw(cfg: Config, s: State, step: Step)
    requires step.request.op.Cancel?
    ensures var op := step.request.op;
            var can := && (s.policy.Some? ==> s.policy.value.generation == s.generation)
                       && HumanHolds(cfg, s, op.human, ToCancel, op.human.policy, op.token, None, step.request.now)
                       && s.lease.Some? && s.lease.value.token == op.token && s.lease.value.child == Uncertain && s.lease.value.pid.None?
                       && (RecordOf(s.spent, op.token).Some? ==> RecordOf(s.spent, op.token).value.session.None?)
                       && step.request.admitted;
            Perform(cfg, s, step) ==
            Left(step, if !can || step.survives == 0 then s
                       else s.(lease := Some(Lease(false, op.token, Cancelled, None, false)),
                               history := s.history + [Freed(op.token, CancelledBeforeSpawn)]))
  {
    var token := step.request.op.token;
    CutOne(s, FreeLease(Lease(false, token, Cancelled, None, false), CancelledBeforeSpawn), step.survives);
  }

  /** Why note-absent refuses, guard by guard. */
  lemma NoteAnswersExactly(cfg: Config, s: State, token: Nonce, h: Human, now: int)
    ensures var consistent := s.policy.Some? ==> s.policy.value.generation == s.generation;
            var human := HumanHolds(cfg, s, h, ToNoteAbsent, h.policy, token, None, now);
            var matching := s.lease.Some? && s.lease.value.token == token;
            var untouched := matching && s.lease.value.child == Uncertain && s.lease.value.pid.None?;
            var answer := AnswerNote(cfg, s, token, h, now);
            && (answer == Unloaded <==> !consistent)
            && (answer == Unauthorized <==> consistent && !human)
            && (answer == NoMatch <==> consistent && human && !matching)
            && (answer == CancelInstead <==> consistent && human && untouched)
            && (answer == NeedsTermination <==> consistent && human && matching && !untouched)
  {
  }

  // Execute

  /** An execute asks for the held, uncertain lease of its token and a document accepted
      for the recorded payload, launch vector and terms. */
  lemma ExecuteAdmittedExactly(cfg: Config, s: State, q: Request)
    requires q.op.Execute?
    ensures var op, found := q.op, RecordOf(s.spent, q.op.token);
            AdmittedBy(cfg, s, q, op.token) <==>
              && (s.policy.Some? ==> s.policy.value.generation == s.generation)
              && s.lease == Some(Lease(true, op.token, Uncertain, if s.lease.Some? then s.lease.value.pid else None, false))
              && op.human.means != Bootstrap && found.Some?
              && HumanHolds(cfg, s, op.human, ToExecute, op.human.policy, op.token,
                            Some(Authorized(found.value.payloadDigest, found.value.launchArgv, found.value.terms)), q.now)
              && op.sealedArgv == Some(found.value.launchArgv) && q.admitted
  {
  }

  /** An exact-run execute asks for the same, with the session document its own record
      makes. */
  lemma ExecuteExactAdmittedExactly(cfg: Config, s: State, q: Request)
    requires q.op.ExecuteExactRun?
    ensures var op, found := q.op, RecordOf(s.spent, q.op.nonce);
            AdmittedBy(cfg, s, q, op.nonce) <==>
              && (s.policy.Some? ==> s.policy.value.generation == s.generation)
              && s.lease == Some(Lease(true, op.nonce, Uncertain, if s.lease.Some? then s.lease.value.pid else None, false))
              && found.Some? && found.value.session.Some?
              && var r := found.value;
              && HumanHolds(cfg, s, Human(ExactRunSession, false, ToExecute, Some(r.policy), op.nonce, Factors(r.policy), r.session.value.expiry,
                                          false, NoLabel, op.signatures, "", [], r.generation, r.keyGeneration, cfg.holderId,
                                          r.payloadDigest, r.launchArgv, Some(r.session.value.bound)),
                            ToExecute, Some(r.policy), op.nonce, Some(Authorized(r.payloadDigest, r.launchArgv, r.terms)), q.now)
              && op.sealedArgv == Some(r.launchArgv) && q.admitted
  {
  }

  /** The nonce an execute is for. */
  function Target(op: Op): Option<Nonce>
  {
    match op
    case Execute(t, _, _, _) => Some(t)
    case ExecuteExactRun(n, _, _, _) => Some(n)
    case _ => None
  }

  /** An execute that is not admitted does nothing. */
  lemma UnadmittedExecuteDoesNothing(cfg: Config, s: State, step: Step)
    requires Target(step.request.op).Some? && !AdmittedBy(cfg, s, step.request, Target(step.request.op).value)
    ensures Perform(cfg, s, step) == Left(step, s)
  {
  }

  lemma ExecutePlanIs(cfg: Config, s: State, q: Request, n: Nonce)
    requires AdmittedBy(cfg, s, q, n)
    ensures RecordOf(s.spent, n).Some? && RecordOf(s.spent, n).value.nonce == n
    ensures PlanOf(cfg, s, q).effects == [WriteLease(RunningLease(n, None))] + SpawnPlan(s, RecordOf(s.spent, n).value, q.op.spawn).effects
  {
  }

  /** The records after a start, perhaps a gate, and one last lease write. */
  lemma AfterStart(s: State, start: Lease, last: Lease)
    ensures ApplyAll(s, [WriteLease(start), WriteLease(last)]) == s.(lease := Some(last))
  {
    ApplyTwo(s, WriteLease(start), WriteLease(last));
  }

  lemma AfterStartFreed(s: State, start: Lease, last: Lease, v: Evidence)
    ensures ApplyAll(s, [WriteLease(start), FreeLease(last, v)]) == s.(lease := Some(last), history := s.history + [Freed(last.token, v)])
  {
    ApplyTwo(s, WriteLease(start), FreeLease(last, v));
  }

  lemma AfterGate(s: State, start: Lease, l: Launch, last: Lease)
    ensures ApplyAll(s, [WriteLease(start), OpenGate(l), WriteLease(last)]) ==
            s.(lease := Some(last), history := s.history + [Launched(l)])
  {
    ApplyThree(s, WriteLease(start), OpenGate(l), WriteLease(last));
  }

  lemma AfterGateFreed(s: State, start: Lease, l: Launch, last: Lease, v: Evidence)
    ensures ApplyAll(s, [WriteLease(start), OpenGate(l), FreeLease(last, v)]) ==
            s.(lease := Some(last), history := s.history + [Launched(l)] + [Freed(last.token, v)])
  {
    ApplyThree(s, WriteLease(start), OpenGate(l), FreeLease(last, v));
  }

  lemma AfterVerdict(s: State, start: Lease, l: Launch, running: Lease, e: Effect)
    ensures ApplyAll(s, [WriteLease(start), OpenGate(l), WriteLease(running)] + [e]) ==
            Apply(s.(lease := Some(running), history := s.history + [Launched(l)]), e)
  {
    ApplyAllAppend(s, [WriteLease(start), OpenGate(l), WriteLease(running)], e);
    AfterGate(s, start, l, running);
  }

  lemma FinishedIs(cfg: Config, s: State, step: Step)
    requires Finishes(cfg, s, step)
    ensures Perform(cfg, s, step) == Left(step, ApplyAll(s, PlanOf(cfg, s, step.request).effects))
  {
  }

  lemma ReapedEffects(cfg: Config, s: State, q: Request, n: Nonce)
    requires AdmittedBy(cfg, s, q, n) && q.op.spawn.SpawnedChild? && q.op.spawn.gate != GoWritten
    ensures RecordOf(s.spent, n).Some?
    ensures var w, open := q.op.spawn, OpenGate(LaunchOf(s, RecordOf(s.spent, n).value));
            var last := if w.reaped then FreeLease(Lease(false, n, SpawnFailed, None, false), ReapedChild(w.pid, w.gate == CloseFailed))
                        else WriteLease(Lease(true, n, SupervisionUncertain, Some(w.pid), true));
            PlanOf(cfg, s, q).effects ==
            if w.gate == GoRefused then [WriteLease(Lease(true, n, Running, None, true)), last]
            else [WriteLease(Lease(true, n, Running, None, true)), open, last]
  {
    ExecutePlanIs(cfg, s, q, n);
  }

  lemma SupervisedEffects(cfg: Config, s: State, q: Request, n: Nonce)
    requires AdmittedBy(cfg, s, q, n) && q.op.spawn.SpawnedChild? && q.op.spawn.gate == GoWritten
    ensures RecordOf(s.spent, n).Some?
    ensures var w, open := q.op.spawn, OpenGate(LaunchOf(s, RecordOf(s.spent, n).value));
            var shown := [WriteLease(Lease(true, n, Running, None, true)), open, WriteLease(Lease(true, n, Running, Some(w.pid), true))];
            PlanOf(cfg, s, q).effects ==
            if !w.watch.stopped then shown
            else if Accounted(w.pid, w.watch) then
              shown + [FreeLease(Lease(false, n, if w.watch.timedOut then TimedOut else Exited, Some(w.pid), true), ObservedExit(w.pid, w.watch))]
            else shown + [WriteLease(Lease(true, n, SupervisionUncertain, Some(w.pid), true))]
  {
    ExecutePlanIs(cfg, s, q, n);
  }

  /** No child was spawned: the lease is as it was before. */
  lemma NoChildLaw(cfg: Config, s: State, step: Step, n: Nonce)
    requires AdmittedBy(cfg, s, step.request, n) && Finishes(cfg, s, step) && step.request.op.spawn.NoChild?
    ensures Perform(cfg, s, step) == Left(step, s.(lease := Some(Lease(true, n, Uncertain, None, false))))
  {
    ExecutePlanIs(cfg, s, step.request, n);
    FinishedIs(cfg, s, step);
    AfterStart(s, RunningLease(n, None), UncertainLease(n));
    assert PlanOf(cfg, s, step.request).effects == [WriteLease(RunningLease(n, None)), WriteLease(UncertainLease(n))];
  }

  /** The gate refused before the go byte: nothing was launched, and the lease is free
      as spawn-failed if and only if the child was reaped. */
  lemma GateRefusedLaw(cfg: Config, s: State, step: Step, n: Nonce)
    requires AdmittedBy(cfg, s, step.request, n) && Finishes(cfg, s, step)
    requires var w := step.request.op.spawn; w.SpawnedChild? && w.gate == GoRefused
    ensures var w := step.request.op.spawn;
            Perform(cfg, s, step) ==
            Left(step, if w.reaped then s.(lease := Some(Lease(false, n, SpawnFailed, None, false)), history := s.history + [Freed(n, ReapedChild(w.pid, false))])
                       else s.(lease := Some(Lease(true, n, SupervisionUncertain, Some(w.pid), true))))
  {
    var w := step.request.op.spawn;
    ReapedEffects(cfg, s, step.request, n);
    FinishedIs(cfg, s, step);
    var start := Lease(true, n, Running, None, true);
    AfterStart(s, start, Lease(true, n, SupervisionUncertain, Some(w.pid), true));
    AfterStartFreed(s, start, Lease(false, n, SpawnFailed, None, false), ReapedChild(w.pid, false));
  }

  /** What is launched is the recorded payload, at the current generations. */
  lemma LaunchIs(s: State, n: Nonce)
    requires RecordOf(s.spent, n).Some?
    ensures var r := RecordOf(s.spent, n).value;
            LaunchOf(s, r) == Launch(n, r.payloadDigest, r.launchArgv, s.generation, s.keyGeneration)
  {
  }

  /** The go byte was written and the gate failed to close: the payload was launched,
      and the lease is free as spawn-failed all the same if and only if the child was
      reaped. */
  lemma CloseFailedLaw(cfg: Config, s: State, step: Step, n: Nonce)
    requires AdmittedBy(cfg, s, step.request, n) && Finishes(cfg, s, step)
    requires var w := step.request.op.spawn; w.SpawnedChild? && w.gate == CloseFailed
    ensures RecordOf(s.spent, n).Some?
    ensures var w, r := step.request.op.spawn, RecordOf(s.spent, n).value;
            var launched := s.history + [Launched(Launch(n, r.payloadDigest, r.launchArgv, s.generation, s.keyGeneration))];
            Perform(cfg, s, step) ==
            Left(step, if w.reaped then s.(lease := Some(Lease(false, n, SpawnFailed, None, false)), history := launched + [Freed(n, ReapedChild(w.pid, true))])
                       else s.(lease := Some(Lease(true, n, SupervisionUncertain, Some(w.pid), true)), history := launched))
  {
    var w := step.request.op.spawn;
    ReapedEffects(cfg, s, step.request, n);
    LaunchIs(s, n);
    FinishedIs(cfg, s, step);
    var start, l := Lease(true, n, Running, None, true), LaunchOf(s, RecordOf(s.spent, n).value);
    AfterGate(s, start, l, Lease(true, n, SupervisionUncertain, Some(w.pid), true));
    AfterGateFreed(s, start, l, Lease(false, n, SpawnFailed, None, false), ReapedChild(w.pid, true));
  }

  /** When a watch accounts for a payload, spelled out: its exit was seen, no fork and no
      reparented child was, every look at the process table succeeded, and at one of the
      two last looks the process group was absent and so was every process that any
      table shows below the child; the second look counts unless a signal was denied. */
  lemma AccountedExactly(pid: Pid, w: Watch)
    ensures Accounted(pid, w) <==>
            && w.stopped && !w.forkSeen && !w.reparented
            && w.first.Some? && w.last.Some? && (forall i :: 0 <= i < |w.polls| ==> w.polls[i].Some?)
            && ((w.groupAbsent &&
                 forall t, q :: (w.first == Some(t) || Some(t) in w.polls || w.last == Some(t)) && Descends(t, pid, q) && q != pid && q > 0 ==>
                   q !in w.present) ||
                (!w.signalDenied && w.groupAbsentAfter &&
                 forall t, q :: (w.first == Some(t) || Some(t) in w.polls || w.last == Some(t)) && Descends(t, pid, q) && q != pid && q > 0 ==>
                   q !in w.presentAfter))
  {
    TablesAre(w);
    LookIs(pid, w, w.present, w.groupAbsent);
    LookIs(pid, w, w.presentAfter, w.groupAbsentAfter);
  }

  lemma TablesAre(w: Watch)
    ensures forall t :: t in Tables(w) <==> t == w.first || t in w.polls || t == w.last
    ensures None in Tables(w) <==> w.first.None? || w.last.None? || exists i :: 0 <= i < |w.polls| && w.polls[i].None?
  {
    forall t ensures t in Tables(w) <==> t == w.first || t in w.polls || t == w.last { }
  }

  lemma LookIs(pid: Pid, w: Watch, present: set<Pid>, groupAbsent: bool)
    ensures TreeGone(pid, w, present, groupAbsent) <==>
            groupAbsent &&
            forall t, q :: (w.first == Some(t) || Some(t) in w.polls || w.last == Some(t)) && Descends(t, pid, q) && q != pid && q > 0 ==> q !in present
  {
    TablesAre(w);
  }

  lemma ShownState(cfg: Config, s: State, step: Step, n: Nonce, l: Launch, pid: Pid)
    requires Finishes(cfg, s, step)
    requires PlanOf(cfg, s, step.request).effects ==
             [WriteLease(Lease(true, n, Running, None, true)), OpenGate(l), WriteLease(Lease(true, n, Running, Some(pid), true))]
    ensures Perform(cfg, s, step) == Left(step, s.(lease := Some(Lease(true, n, Running, Some(pid), true)), history := s.history + [Launched(l)]))
  {
    FinishedIs(cfg, s, step);
    AfterGate(s, Lease(true, n, Running, None, true), l, Lease(true, n, Running, Some(pid), true));
  }

  lemma KeptState(cfg: Config, s: State, step: Step, n: Nonce, l: Launch, pid: Pid, last: Lease)
    requires Finishes(cfg, s, step)
    requires PlanOf(cfg, s, step.request).effects ==
             [WriteLease(Lease(true, n, Running, None, true)), OpenGate(l), WriteLease(Lease(true, n, Running, Some(pid), true))] + [WriteLease(last)]
    ensures Perform(cfg, s, step) == Left(step, s.(lease := Some(last), history := s.history + [Launched(l)]))
  {
    FinishedIs(cfg, s, step);
    AfterVerdict(s, Lease(true, n, Running, None, true), l, Lease(true, n, Running, Some(pid), true), WriteLease(last));
  }

  lemma FreedState(cfg: Config, s: State, step: Step, n: Nonce, l: Launch, pid: Pid, last: Lease, v: Evidence)
    requires Finishes(cfg, s, step) && last.token == n
    requires PlanOf(cfg, s, step.request).effects ==
             [WriteLease(Lease(true, n, Running, None, true)), OpenGate(l), WriteLease(Lease(true, n, Running, Some(pid), true))] + [FreeLease(last, v)]
    ensures Perform(cfg, s, step) == Left(step, s.(lease := Some(last), history := s.history + [Launched(l)] + [Freed(n, v)]))
  {
    FinishedIs(cfg, s, step);
    AfterVerdict(s, Lease(true, n, Running, None, true), l, Lease(true, n, Running, Some(pid), true), FreeLease(last, v));
  }

  /** The go byte was written and the exit was not seen: the payload was launched, and
      the lease stays running under its pid. */
  lemma ExitUnseenLaw(cfg: Config, s: State, step: Step, n: Nonce)
    requires AdmittedBy(cfg, s, step.request, n) && Finishes(cfg, s, step)
    requires var w := step.request.op.spawn; w.SpawnedChild? && w.gate == GoWritten && !w.watch.stopped
    ensures RecordOf(s.spent, n).Some?
    ensures var pid, r := step.request.op.spawn.pid, RecordOf(s.spent, n).value;
            Perform(cfg, s, step) ==
            Left(step, s.(lease := Some(Lease(true, n, Running, Some(pid), true)),
                          history := s.history + [Launched(Launch(n, r.payloadDigest, r.launchArgv, s.generation, s.keyGeneration))]))
  {
    SupervisedEffects(cfg, s, step.request, n);
    LaunchIs(s, n);
    ShownState(cfg, s, step, n, LaunchOf(s, RecordOf(s.spent, n).value), step.request.op.spawn.pid);
  }

  /** The exit was seen and the watch accounts for the payload: the lease is free, as
      timed out if and only if the payload ran out of time, and as exited otherwise. */
  lemma AccountedLaw(cfg: Config, s: State, step: Step, n: Nonce)
    requires AdmittedBy(cfg, s, step.request, n) && Finishes(cfg, s, step)
    requires var w := step.request.op.spawn; w.SpawnedChild? && w.gate == GoWritten && Accounted(w.pid, w.watch)
    ensures RecordOf(s.spent, n).Some?
    ensures var w, r := step.request.op.spawn, RecordOf(s.spent, n).value;
            Perform(cfg, s, step) ==
            Left(step, s.(lease := Some(Lease(false, n, if w.watch.timedOut then TimedOut else Exited, Some(w.pid), true)),
                          history := s.history + [Launched(Launch(n, r.payloadDigest, r.launchArgv, s.generation, s.keyGeneration))] +
                                     [Freed(n, ObservedExit(w.pid, w.watch))]))
  {
    var w := step.request.op.spawn;
    SupervisedEffects(cfg, s, step.request, n);
    LaunchIs(s, n);
    FreedState(cfg, s, step, n, LaunchOf(s, RecordOf(s.spent, n).value), w.pid,
               Lease(false, n, if w.watch.timedOut then TimedOut else Exited, Some(w.pid), true), ObservedExit(w.pid, w.watch));
  }

  /** The exit was seen and the watch does not account for the payload: the lease is
      kept, as uncertain, under its pid. */
  lemma UnaccountedLaw(cfg: Config, s: State, step: Step, n: Nonce)
    requires AdmittedBy(cfg, s, step.request, n) && Finishes(cfg, s, step)
    requires var w := step.request.op.spawn; w.SpawnedChild? && w.gate == GoWritten && w.watch.stopped && !Accounted(w.pid, w.watch)
    ensures RecordOf(s.spent, n).Some?
    ensures var w, r := step.request.op.spawn, RecordOf(s.spent, n).value;
            Perform(cfg, s, step) ==
            Left(step, s.(lease := Some(Lease(true, n, SupervisionUncertain, Some(w.pid), true)),
                          history := s.history + [Launched(Launch(n, r.payloadDigest, r.launchArgv, s.generation, s.keyGeneration))]))
  {
    var w := step.request.op.spawn;
    SupervisedEffects(cfg, s, step.request, n);
    LaunchIs(s, n);
    KeptState(cfg, s, step, n, LaunchOf(s, RecordOf(s.spent, n).value), w.pid, Lease(true, n, SupervisionUncertain, Some(w.pid), true));
  }

  /** An execute that is cut leaves the lease held: untouched, started without a pid, or
      started with one. */
  lemma CutExecuteLaw(cfg: Config, s: State, step: Step, n: Nonce)
    requires AdmittedBy(cfg, s, step.request, n) && !Finishes(cfg, s, step)
    ensures Perform(cfg, s, step).lease ==
            if step.survives == 0 then s.lease
            else Some(Lease(true, n, Running, if step.survives <= 2 then None else Some(step.request.op.spawn.pid), true))
    ensures step.survives <= 1 ==> Perform(cfg, s, step).history == s.history
  {
    var w, k := step.request.op.spawn, step.survives;
    if w.NoChild? {
      ExecutePlanIs(cfg, s, step.request, n);
    } else if w.gate == GoWritten {
      SupervisedEffects(cfg, s, step.request, n);
    } else {
      ReapedEffects(cfg, s, step.request, n);
    }
    CutLease(s, PlanOf(cfg, s, step.request).effects, n, if w.NoChild? then None else Some(w.pid), k);
  }

  lemma CutLease(s: State, effects: seq<Effect>, n: Nonce, pid: Option<Pid>, k: nat)
    requires k < |effects| <= 4
    requires effects[0] == WriteLease(Lease(true, n, Running, None, true))
    requires 2 <= k ==> effects[1].OpenGate?
    requires 3 <= k ==> effects[2] == WriteLease(Lease(true, n, Running, pid, true))
    ensures var t := ApplyAll(s, Prefix(effects, k));
            && t.lease == (if k == 0 then s.lease else Some(Lease(true, n, Running, if k <= 2 then None else pid, true)))
            && (k <= 1 ==> t.history == s.history)
  {
    if k == 1 {
      assert Prefix(effects, k) == [effects[0]];
      CutOne(s, effects[0], 1);
    } else if k == 2 {
      assert Prefix(effects, k) == [effects[0], effects[1]];
      ApplyTwo(s, effects[0], effects[1]);
    } else if k == 3 {
      assert Prefix(effects, k) == [effects[0], effects[1], effects[2]];
      ApplyThree(s, effects[0], effects[1], effects[2]);
    }
  }

  /** Whenever an execute launches a payload, every factor of the document's policy
      contributed to this nonce with the recorded payload, launch vector and terms. */
  lemma LaunchedAsAuthorized(cfg: Config, s: State, step: Step, n: Nonce, factor: Role)
    requires step.request.op.Execute? && HasLaunched(Perform(cfg, s, step).history, n) && !HasLaunched(s.history, n)
    requires var p := step.request.op.human.policy; p.Some? ==> factor in Factors(p.value)
    ensures var h, found := step.request.op.human, RecordOf(s.spent, n);
            && step.request.op.token == n && found.Some? && h.policy.Some?
            && FactorAuthorized(cfg, s, h, ToExecute, h.policy.value, n,
                                Some(Authorized(found.value.payloadDigest, found.value.launchArgv, found.value.terms)), factor)
  {
    var e := LaunchCameFromGate(s, Prefix(PlanOf(cfg, s, step.request).effects, step.survives), n);
    StepFits(cfg, s, step.request, e);
    var h, r := step.request.op.human, RecordOf(s.spent, n).value;
    AuthorizedByEveryFactor(cfg, s, h, ToExecute, h.policy.value, n, Some(Authorized(r.payloadDigest, r.launchArgv, r.terms)), step.request.now, factor);
  }
}
