/** The inductive invariant of the holder, kept by every single step an
    operation takes, so it also holds wherever an operation is cut short. */
module HolderInvariant {
  import opened Wrappers
  import opened ProcessTree
  import opened HolderRecords
  import opened HolderAuthorization
  import opened HolderPlans

  /** The payload of this nonce was released. */
  ghost predicate HasLaunched(h: seq<Event>, n: Nonce)
  {
    exists e :: e in h && e.Launched? && e.launch.nonce == n
  }

  ghost predicate HasFreed(h: seq<Event>, n: Nonce)
  {
    exists e :: e in h && e.Freed? && e.token == n
  }

  /** The lease of this released payload was freed with its whole tree accounted for. */
  ghost predicate Discharged(h: seq<Event>, n: Nonce)
  {
    exists e :: e in h && e.Freed? && e.token == n && e.evidence.ObservedExit? && Accounted(e.evidence.pid, e.evidence.watch)
  }

  /** The lease of this released payload was freed by reaping its first process
      only, after the gate was opened and then failed to close. */
  ghost predicate ReapedAfterOpen(h: seq<Event>, n: Nonce)
  {
    exists e :: e in h && e.Freed? && e.token == n && e.evidence.ReapedChild? && e.evidence.gateOpened
  }

  ghost predicate SpentKnown(s: State, n: Nonce)
  {
    RecordOf(s.spent, n).Some?
  }

  ghost predicate Distinct(spent: seq<SpentRecord>)
  {
    forall i, j :: 0 <= i < j < |spent| ==> spent[i].nonce != spent[j].nonce
  }

  /** A session record carries the message of its own terms. */
  predicate SessionShape(r: SpentRecord)
  {
    r.session.Some? ==>
      && r.session.value.bound.ExactRun?
      && r.session.value.bound ==
         ExactRun(r.session.value.bound.holderId, r.payloadDigest, r.launchArgv, r.nonce, r.policy, r.generation,
                  r.keyGeneration, r.session.value.expiry)
  }

  ghost predicate RecordHolds(s: State, r: SpentRecord)
  {
    && s.policy.Some?
    && r.generation <= s.generation
    && (r.generation == s.policy.value.generation ==> r.policy == s.policy.value.name)
    && SessionShape(r)
  }

  ghost predicate SpentInv(s: State)
  {
    && Distinct(s.spent)
    && (forall r :: r in s.spent ==> RecordHolds(s, r))
    && (s.policy.Some? ==> s.generation <= s.policy.value.generation <= s.generation + 1)
  }

  ghost predicate LeaseInv(s: State)
  {
    s.lease.Some? ==>
      && SpentKnown(s, s.lease.value.token)
      && (s.lease.value.child == Uncertain ==>
            s.lease.value.held && s.lease.value.pid.None? && !HasLaunched(s.history, s.lease.value.token))
      && (s.lease.value.held ==> !HasFreed(s.history, s.lease.value.token))
  }

  ghost predicate LaunchHolds(s: State, l: Launch)
  {
    && (exists r :: RecordOf(s.spent, l.nonce) == Some(r) && r.payloadDigest == l.payloadDigest && r.launchArgv == l.launchArgv)
    && ((LeaseHeld(s) && s.lease.value.token == l.nonce) || Discharged(s.history, l.nonce) || ReapedAfterOpen(s.history, l.nonce))
  }

  /** A lease was freed for one of three reasons, each with its evidence. */
  ghost predicate EvidenceHolds(h: seq<Event>, n: Nonce, v: Evidence)
  {
    match v
    case CancelledBeforeSpawn => !HasLaunched(h, n)
    case ReapedChild(_, wasOpen) => wasOpen == HasLaunched(h, n)
    case ObservedExit(pid, w) => HasLaunched(h, n) && Accounted(pid, w)
  }

  ghost predicate HistoryInv(s: State)
  {
    && (forall i, j :: 0 <= i < j < |s.history| && s.history[i].Launched? && s.history[j].Launched? ==>
          s.history[i].launch.nonce != s.history[j].launch.nonce)
    && (forall e :: e in s.history && e.Launched? ==> LaunchHolds(s, e.launch))
    && (forall e :: e in s.history && e.Freed? ==> SpentKnown(s, e.token) && EvidenceHolds(s.history, e.token, e.evidence))
  }

  ghost predicate PendingInv(cfg: Config, s: State)
  {
    s.pending.Some? ==>
      var p := s.pending.value;
      && p.bound == ExactRun(cfg.holderId, p.payloadDigest, p.launchArgv, p.nonce, p.policy, p.generation, p.keyGeneration, p.expiry)
      && Issued(p.bound) in s.history
  }

  ghost predicate Inv(cfg: Config, s: State)
  {
    SpentInv(s) && LeaseInv(s) && HistoryInv(s) && PendingInv(cfg, s)
  }

  /** When a single step is in order. */
  ghost predicate Safe(cfg: Config, s: State, e: Effect)
  {
    match e
    case WriteCallers(_) => true
    case WriteEnrollment(_) => true
    case WriteDevices(_) => true
    case Forget => true
    case SetChallenges(_) => true
    case SpendDeviceNonce(_) => true
    case WriteReceipt(_) => true
    case WritePolicy(p) => LoadHolds(s) && p.generation == s.generation + 1
    case WriteMeta(g, _) => g == s.generation || (s.policy.Some? && g == s.policy.value.generation)
    case WriteSpent(r) =>
      && LoadHolds(s) && s.policy.Some? && s.policy.value.name == r.policy
      && r.generation == s.generation && !LeaseHeld(s) && RecordOf(s.spent, r.nonce).None? && SessionShape(r)
    case WriteLease(l) =>
      && l.held && SpentKnown(s, l.token) && !HasFreed(s.history, l.token)
      && (l.child == Uncertain ==> l.pid.None? && !HasLaunched(s.history, l.token))
      && (LeaseHeld(s) ==> s.lease.value.token == l.token)
    case FreeLease(l, v) =>
      && LeaseHeld(s) && s.lease.value.token == l.token && !l.held && l.child != Uncertain
      && EvidenceHolds(s.history, l.token, v)
    case Remember(p) =>
      p.bound == ExactRun(cfg.holderId, p.payloadDigest, p.launchArgv, p.nonce, p.policy, p.generation, p.keyGeneration, p.expiry)
    case OpenGate(l) =>
      && LeaseHeld(s) && s.lease.value.token == l.nonce && s.lease.value.child != Uncertain
      && !HasLaunched(s.history, l.nonce)
      && (exists r :: RecordOf(s.spent, l.nonce) == Some(r) && r.payloadDigest == l.payloadDigest && r.launchArgv == l.launchArgv)
  }

  lemma HistoryGrows(h: seq<Event>, e: Event, n: Nonce)
    ensures HasLaunched(h + [e], n) <==> HasLaunched(h, n) || (e.Launched? && e.launch.nonce == n)
    ensures HasFreed(h + [e], n) <==> HasFreed(h, n) || (e.Freed? && e.token == n)
    ensures Discharged(h, n) ==> Discharged(h + [e], n)
    ensures ReapedAfterOpen(h, n) ==> ReapedAfterOpen(h + [e], n)
  {
    assert forall x :: x in h + [e] <==> x in h || x == e;
  }

  lemma {:induction false} RecordOfAppend(spent: seq<SpentRecord>, r: SpentRecord, n: Nonce)
    ensures RecordOf(spent + [r], n) ==
            if RecordOf(spent, n).Some? then RecordOf(spent, n) else if r.nonce == n then Some(r) else None
  {
    if spent == [] {
      assert RecordOf([r], n) == if r.nonce == n then Some(r) else RecordOf([r][1..], n);
    } else {
      assert (spent + [r])[1..] == spent[1..] + [r];
      RecordOfAppend(spent[1..], r, n);
    }
  }

  lemma StepKeepsSpent(cfg: Config, s: State, e: Effect)
    requires Inv(cfg, s) && Safe(cfg, s, e)
    ensures SpentInv(Apply(s, e))
  {
  }

  lemma StepKeepsLease(cfg: Config, s: State, e: Effect)
    requires Inv(cfg, s) && Safe(cfg, s, e)
    ensures LeaseInv(Apply(s, e))
  {
    if s.lease.Some? {
      var n := s.lease.value.token;
      match e {
        case WriteSpent(r) => RecordOfAppend(s.spent, r, n);
        case OpenGate(l) => HistoryGrows(s.history, Launched(l), n);
        case FreeLease(l, v) => HistoryGrows(s.history, Freed(l.token, v), n);
        case Remember(p) => HistoryGrows(s.history, Issued(p.bound), n);
        case _ =>
      }
    } else {
      match e { case OpenGate(l) => case _ => }
    }
  }

  lemma SpentEventKept(cfg: Config, s: State, r: SpentRecord)
    requires Inv(cfg, s) && Safe(cfg, s, WriteSpent(r))
    ensures HistoryInv(Apply(s, WriteSpent(r)))
  {
    var s' := Apply(s, WriteSpent(r));
    forall x | x in s'.history && x.Launched? ensures LaunchHolds(s', x.launch) {
      RecordOfAppend(s.spent, r, x.launch.nonce);
      assert LaunchHolds(s, x.launch);
    }
    forall x | x in s'.history && x.Freed? ensures SpentKnown(s', x.token) {
      RecordOfAppend(s.spent, r, x.token);
      assert SpentKnown(s, x.token);
    }
  }

  /** Growing the history by one event keeps what it says about the older ones,
      as long as a launch or a release is of a lease not freed before. */
  lemma EventKept(cfg: Config, s: State, s': State, x: Event)
    requires HistoryInv(s)
    requires s'.history == s.history + [x] && s'.spent == s.spent
    requires forall y :: y in s.history && y.Launched? ==> LaunchHolds(s', y.launch)
    requires x.Launched? ==> !HasLaunched(s.history, x.launch.nonce) && !HasFreed(s.history, x.launch.nonce) && LaunchHolds(s', x.launch)
    requires x.Freed? ==> SpentKnown(s, x.token) && EvidenceHolds(s.history, x.token, x.evidence)
    ensures HistoryInv(s')
  {
    assert forall y :: y in s'.history <==> y in s.history || y == x;
    forall y | y in s'.history && y.Freed? ensures SpentKnown(s', y.token) && EvidenceHolds(s'.history, y.token, y.evidence) {
      HistoryGrows(s.history, x, y.token);
    }
  }

  lemma StepKeepsHistory(cfg: Config, s: State, e: Effect)
    requires Inv(cfg, s) && Safe(cfg, s, e)
    ensures HistoryInv(Apply(s, e))
  {
    var s' := Apply(s, e);
    match e {
      case WriteSpent(r) => SpentEventKept(cfg, s, r);
      case WriteLease(l) =>
        forall x | x in s.history && x.Launched? ensures LaunchHolds(s', x.launch) {
          assert LaunchHolds(s, x.launch);
        }
      case FreeLease(l, v) =>
        forall x | x in s.history && x.Launched? ensures LaunchHolds(s', x.launch) {
          assert LaunchHolds(s, x.launch);
          HistoryGrows(s.history, Freed(l.token, v), x.launch.nonce);
          assert Freed(l.token, v) in s'.history;
        }
        EventKept(cfg, s, s', Freed(l.token, v));
      case Remember(p) =>
        forall x | x in s.history && x.Launched? ensures LaunchHolds(s', x.launch) {
          assert LaunchHolds(s, x.launch);
          HistoryGrows(s.history, Issued(p.bound), x.launch.nonce);
        }
        EventKept(cfg, s, s', Issued(p.bound));
      case OpenGate(l) =>
        forall x | x in s.history && x.Launched? ensures LaunchHolds(s', x.launch) {
          assert LaunchHolds(s, x.launch);
          HistoryGrows(s.history, Launched(l), x.launch.nonce);
        }
        EventKept(cfg, s, s', Launched(l));
      case _ =>
        forall x | x in s.history && x.Launched? ensures LaunchHolds(s', x.launch) {
          assert LaunchHolds(s, x.launch);
        }
    }
  }

  lemma StepKeepsInv(cfg: Config, s: State, e: Effect)
    requires Inv(cfg, s) && Safe(cfg, s, e)
    ensures Inv(cfg, Apply(s, e))
  {
    StepKeepsSpent(cfg, s, e);
    StepKeepsLease(cfg, s, e);
    StepKeepsHistory(cfg, s, e);
  }

  /** Each step of the list is in order where it happens. */
  ghost predicate AllSafe(cfg: Config, s: State, effects: seq<Effect>)
    decreases |effects|
  {
    effects != [] ==> Safe(cfg, s, effects[0]) && AllSafe(cfg, Apply(s, effects[0]), effects[1..])
  }

  lemma {:induction false} PrefixKeepsInv(cfg: Config, s: State, effects: seq<Effect>, n: nat)
    requires Inv(cfg, s) && AllSafe(cfg, s, effects)
    ensures Inv(cfg, ApplyAll(s, Prefix(effects, n)))
    decreases |effects|
  {
    if effects != [] && n > 0 {
      StepKeepsInv(cfg, s, effects[0]);
      PrefixKeepsInv(cfg, Apply(s, effects[0]), effects[1..], n - 1);
      assert Prefix(effects, n)[1..] == Prefix(effects[1..], n - 1);
    }
  }

  // Every operation only takes steps that are in order.

  lemma FreedNonceIsSpent(cfg: Config, s: State, n: Nonce)
    requires Inv(cfg, s) && RecordOf(s.spent, n).None?
    ensures !HasFreed(s.history, n) && !HasLaunched(s.history, n)
  {
  }

  lemma ConsumeIsSafe(cfg: Config, s: State, nonce: Nonce, policy: Policy, h: Human, binding: Binding,
                      snapshot: Option<Digest>, now: int, admitted: bool)
    requires Inv(cfg, s)
    ensures AllSafe(cfg, s, ConsumePlan(cfg, s, nonce, policy, h, binding, snapshot, now, admitted).effects)
  {
    var p := ConsumePlan(cfg, s, nonce, policy, h, binding, snapshot, now, admitted);
    if p.accepted {
      var r := ConsumedRecord(s, nonce, policy, h, binding, snapshot.value);
      var s1 := Apply(s, WriteSpent(r));
      RecordOfAppend(s.spent, r, nonce);
      FreedNonceIsSpent(cfg, s, nonce);
      assert Safe(cfg, s, WriteSpent(r));
      assert Safe(cfg, s1, WriteLease(UncertainLease(nonce)));
      assert p.effects[1..] == [WriteLease(UncertainLease(nonce))];
      assert p.effects[1..][1..] == [];
    }
  }

  lemma ReapIsSafe(cfg: Config, s: State, token: Nonce, pid: Pid, reaped: bool, wasOpen: bool)
    requires Inv(cfg, s) && LeaseHeld(s) && s.lease.value.token == token
    requires wasOpen == HasLaunched(s.history, token)
    ensures AllSafe(cfg, s, ReapPlan(token, pid, reaped, wasOpen).effects)
  {
  }

  lemma VerdictIsSafe(cfg: Config, s: State, token: Nonce, pid: Pid, w: Watch)
    requires Inv(cfg, s) && LeaseHeld(s) && s.lease.value.token == token
    requires HasLaunched(s.history, token)
    ensures AllSafe(cfg, s, VerdictPlan(token, pid, w).effects)
  {
  }

  lemma SpawnIsSafe(cfg: Config, s: State, r: SpentRecord, spawn: Spawn)
    requires Inv(cfg, s) && s.lease == Some(RunningLease(r.nonce, None))
    requires RecordOf(s.spent, r.nonce) == Some(r) && !HasLaunched(s.history, r.nonce)
    ensures AllSafe(cfg, s, SpawnPlan(s, r, spawn).effects)
  {
    var effects := SpawnPlan(s, r, spawn).effects;
    if spawn.SpawnedChild? {
      if spawn.gate == GoRefused {
        ReapIsSafe(cfg, s, r.nonce, spawn.pid, spawn.reaped, false);
      } else {
        var open := OpenGate(LaunchOf(s, r));
        assert Safe(cfg, s, open);
        StepKeepsInv(cfg, s, open);
        var s1 := Apply(s, open);
        HistoryGrows(s.history, Launched(LaunchOf(s, r)), r.nonce);
        if spawn.gate == CloseFailed {
          assert effects[1..] == ReapPlan(r.nonce, spawn.pid, spawn.reaped, true).effects;
          ReapIsSafe(cfg, s1, r.nonce, spawn.pid, spawn.reaped, true);
        } else {
          var running := WriteLease(RunningLease(r.nonce, Some(spawn.pid)));
          assert Safe(cfg, s1, running);
          StepKeepsInv(cfg, s1, running);
          assert effects[1..] == [running] + VerdictPlan(r.nonce, spawn.pid, spawn.watch).effects;
          assert effects[1..][1..] == VerdictPlan(r.nonce, spawn.pid, spawn.watch).effects;
          VerdictIsSafe(cfg, Apply(s1, running), r.nonce, spawn.pid, spawn.watch);
        }
      }
    }
  }

  lemma ExecuteIsSafe(cfg: Config, s: State, token: Nonce, h: Human, sealedArgv: Option<Argv>, spawn: Spawn, now: int, admitted: bool)
    requires Inv(cfg, s)
    ensures AllSafe(cfg, s, ExecutePlan(cfg, s, token, h, sealedArgv, spawn, now, admitted).effects)
  {
    if ExecuteAdmits(cfg, s, token, h, sealedArgv, now, admitted) {
      var r := RecordOf(s.spent, token).value;
      var start := WriteLease(RunningLease(token, None));
      assert Safe(cfg, s, start);
      StepKeepsInv(cfg, s, start);
      var s1 := Apply(s, start);
      SpawnIsSafe(cfg, s1, r, spawn);
      assert SpawnPlan(s1, r, spawn) == SpawnPlan(s, r, spawn);
      assert ExecutePlan(cfg, s, token, h, sealedArgv, spawn, now, admitted).effects[1..] == SpawnPlan(s, r, spawn).effects;
    }
  }

  lemma AuthorizeIsSafe(cfg: Config, s: State, peer: int, nonce: Option<Nonce>, policy: Option<Policy>,
                        signatures: map<string, Signature>, now: int, admitted: bool)
    requires Inv(cfg, s)
    ensures AllSafe(cfg, s, AuthorizePlan(cfg, s, peer, nonce, policy, signatures, now, admitted).effects)
  {
    var plan := AuthorizePlan(cfg, s, peer, nonce, policy, signatures, now, admitted);
    if plan.accepted {
      var p := s.pending.value;
      var h := SessionHuman(cfg, ToConsume, p.nonce, p.policy, p.expiry, p.generation, p.keyGeneration,
                            p.payloadDigest, p.launchArgv, p.bound, signatures);
      var binding := Binding(p.launchArgv, p.keyGeneration, p.terms);
      ConsumeIsSafe(cfg, s, p.nonce, p.policy, h, binding, Some(p.payloadDigest), now, true);
      var consume := ConsumePlan(cfg, s, p.nonce, p.policy, h, binding, Some(p.payloadDigest), now, true).effects;
      assert plan.effects == consume + [Forget];
      AppendForgetIsSafe(cfg, s, consume);
    }
  }

  lemma {:induction false} AppendForgetIsSafe(cfg: Config, s: State, effects: seq<Effect>)
    requires AllSafe(cfg, s, effects)
    ensures AllSafe(cfg, s, effects + [Forget])
    decreases |effects|
  {
    if effects != [] {
      assert (effects + [Forget])[1..] == effects[1..] + [Forget];
      AppendForgetIsSafe(cfg, Apply(s, effects[0]), effects[1..]);
    }
  }

  /** Steps that are in order in every state. */
  predicate Harmless(e: Effect)
  {
    e.WriteCallers? || e.WriteEnrollment? || e.WriteDevices? || e.Forget? || e.SetChallenges? || e.SpendDeviceNonce? || e.WriteReceipt?
  }

  lemma {:induction false} HarmlessIsSafe(cfg: Config, s: State, effects: seq<Effect>)
    requires forall e :: e in effects ==> Harmless(e)
    ensures AllSafe(cfg, s, effects)
    decreases |effects|
  {
    if effects != [] {
      assert Harmless(effects[0]);
      HarmlessIsSafe(cfg, Apply(s, effects[0]), effects[1..]);
    }
  }

  /** Enrollment, devices, session keys and receipts. */
  predicate KeysOnly(op: Op)
  {
    || op.Enroll? || op.Pair? || op.ReplaceKey? || op.Revoke?
    || op.IssueDeviceChallenge? || op.CancelDeviceChallenge? || op.SubmitDeviceSignature?
    || op.PreparePhoneReceipt? || op.SealPhoneReceipt?
  }

  lemma KeyPlanIsHarmless(cfg: Config, s: State, q: Request, e: Effect)
    requires KeysOnly(q.op) && e in PlanOf(cfg, s, q).effects
    ensures Harmless(e)
  {
  }

  /** Generations, and what only frees or remembers. */
  lemma RecordPlanIsSafe(cfg: Config, s: State, q: Request)
    requires Inv(cfg, s)
    requires q.op.Rotate? || q.op.SetPolicy? || q.op.Cancel? || q.op.NoteAbsent? || q.op.IssueExactRun?
    ensures AllSafe(cfg, s, PlanOf(cfg, s, q).effects)
  {
    var effects := PlanOf(cfg, s, q).effects;
    if |effects| == 3 {
      var s1 := Apply(s, effects[0]);
      assert Safe(cfg, s, effects[0]) && Safe(cfg, s1, effects[1]);
      assert effects[1..] == [effects[1], effects[2]] && effects[1..][1..] == [effects[2]];
      HarmlessIsSafe(cfg, Apply(s1, effects[1]), [effects[2]]);
      assert AllSafe(cfg, s1, effects[1..]);
    }
  }

  lemma PlanIsSafe(cfg: Config, s: State, q: Request)
    requires Inv(cfg, s)
    ensures AllSafe(cfg, s, PlanOf(cfg, s, q).effects)
  {
    match q.op {
      case Consume(n, p, h, b, d) => ConsumeIsSafe(cfg, s, n, p, h, b, d, q.now, q.admitted);
      case Execute(t, h, a, w) => ExecuteIsSafe(cfg, s, t, h, a, w, q.now, q.admitted);
      case AuthorizeExactRun(peer, n, p, sg) => AuthorizeIsSafe(cfg, s, peer, n, p, sg, q.now, q.admitted);
      case ExecuteExactRun(n, sg, a, w) =>
        var r := RecordOf(s.spent, n);
        if r.Some? && r.value.session.Some? {
          ExecuteIsSafe(cfg, s, n, ExecuteHuman(cfg, r.value, sg), a, w, q.now, q.admitted);
        }
      case _ =>
        if KeysOnly(q.op) {
          forall e | e in PlanOf(cfg, s, q).effects ensures Harmless(e) { KeyPlanIsHarmless(cfg, s, q, e); }
          HarmlessIsSafe(cfg, s, PlanOf(cfg, s, q).effects);
        } else {
          RecordPlanIsSafe(cfg, s, q);
        }
    }
  }

  lemma PerformKeepsInv(cfg: Config, s: State, step: Step)
    requires Inv(cfg, s)
    ensures Inv(cfg, Perform(cfg, s, step))
  {
    PlanIsSafe(cfg, s, step.request);
    PrefixKeepsInv(cfg, s, PlanOf(cfg, s, step.request).effects, step.survives);
    var reached := ApplyAll(s, Prefix(PlanOf(cfg, s, step.request).effects, step.survives));
    assert Inv(cfg, reached);
    ForgetKeepsInv(cfg, reached);
  }

  lemma ForgetKeepsInv(cfg: Config, s: State)
    requires Inv(cfg, s)
    ensures Inv(cfg, s.(pending := None, challenges := map[]))
  {
    StepKeepsInv(cfg, s, Forget);
    StepKeepsInv(cfg, s.(pending := None), SetChallenges(map[]));
  }

  /** The invariant holds after every run, whatever operations were tried, in any
      order, and wherever each was cut. */
  lemma {:induction false} RunKeepsInv(cfg: Config, s: State, steps: seq<Step>)
    requires Inv(cfg, s)
    ensures Inv(cfg, Run(cfg, s, steps))
    decreases |steps|
  {
    if steps != [] {
      PerformKeepsInv(cfg, s, steps[0]);
      RunKeepsInv(cfg, Perform(cfg, s, steps[0]), steps[1..]);
    }
  }
}
