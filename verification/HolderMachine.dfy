/** The execution holder itself: an object whose records are written one by one.
    `fuse` counts the writes the process still gets to make; when it runs out the
    operation in progress stops where it is. */
module HolderMachine {
  import opened Wrappers
  import opened ProcessTree
  import opened HolderRecords
  import opened HolderAuthorization
  import opened HolderPlans
  import opened HolderInvariant

  class ExecutionHolder {
    const cfg: Config
    var generation: int
    var keyGeneration: int
    var callers: map<CallerId, Caller>
    var enrollment: Option<CallerId>
    var policy: Option<PolicyRecord>
    var devices: map<DeviceId, Device>
    var spent: seq<SpentRecord>
    var lease: Option<Lease>
    var pending: Option<Pending>
    var challenges: map<Role, SlotChallenge>
    var deviceNonces: set<Nonce>
    var receipt: Option<Receipt>
    var fuse: nat

    ghost var history: seq<Event>
    ghost var start: State        // the records when the current operation began
    ghost var trail: seq<Effect>  // the steps it has taken since

    /** The records the holder can read. */
    function Records(): State
      reads this
    {
      State(generation, keyGeneration, callers, enrollment, policy, devices, spent, lease, pending,
            challenges, deviceNonces, receipt, [])
    }

    ghost function View(): State
      reads this
    {
      Records().(history := history)
    }

    ghost predicate Valid()
      reads this
    {
      View() == ApplyAll(start, trail)
    }

    constructor (cfg: Config)
      ensures Valid() && View() == INITIAL && this.cfg == cfg
    {
      this.cfg := cfg;
      generation, keyGeneration := 1, 1;
      callers, devices := map[], map[];
      enrollment, policy, lease, pending, receipt := None, None, None, None, None;
      challenges, deviceNonces := map[], {};
      spent := [];
      fuse := 0;
      history, start, trail := [], INITIAL, [];
    }

    /** The process starts again: the records stay, its memory does not. */
    method Restart(writes: nat)
      modifies this
      ensures Valid() && View() == old(View()).(pending := None, challenges := map[]) && fuse == writes
    {
      pending, challenges := None, map[];
      fuse := writes;
      start, trail := View(), [];
    }

    ghost method Begin()
      modifies this`start, this`trail
      ensures Valid() && start == old(View()) && trail == [] && View() == old(View())
    {
      start, trail := View(), [];
    }

    /** The records after one effect. */
    method Put(e: Effect)
      modifies this
      ensures View() == Apply(old(View()), e)
      ensures fuse == old(fuse) && start == old(start) && trail == old(trail)
    {
      if Harmless(e) {
        PutKeys(e);
      } else {
        PutRun(e);
      }
    }

    method PutKeys(e: Effect)
      requires Harmless(e)
      modifies this`callers, this`enrollment, this`devices, this`pending, this`challenges, this`deviceNonces, this`receipt
      ensures View() == Apply(old(View()), e)
    {
      match e {
        case WriteCallers(c) => callers := c;
        case WriteEnrollment(c) => enrollment := Some(c);
        case WriteDevices(d) => devices := d;
        case Forget => pending := None;
        case SetChallenges(c) => challenges := c;
        case SpendDeviceNonce(n) => deviceNonces := deviceNonces + {n};
        case WriteReceipt(r) => receipt := r;
      }
    }

    method PutRun(e: Effect)
      requires !Harmless(e)
      modifies this`policy, this`generation, this`keyGeneration, this`spent, this`lease, this`pending, this`history
      ensures View() == Apply(old(View()), e)
    {
      match e {
        case WritePolicy(p) => policy := Some(p);
        case WriteMeta(g, k) => generation, keyGeneration := g, k;
        case WriteSpent(r) => spent := spent + [r];
        case WriteLease(l) => lease := Some(l);
        case FreeLease(l, v) => lease := Some(l); history := history + [Freed(l.token, v)];
        case Remember(p) => pending := Some(p); history := history + [Issued(p.bound)];
        case OpenGate(l) => history := history + [Launched(l)];
      }
    }

    /** One record write, memory change or gate byte. */
    method Write(e: Effect) returns (alive: bool)
      requires Valid()
      modifies this
      ensures Valid() && start == old(start)
      ensures alive == (0 < old(fuse))
      ensures alive ==> fuse == old(fuse) - 1 && trail == old(trail) + [e] && View() == Apply(old(View()), e)
      ensures !alive ==> fuse == 0 && trail == old(trail) && View() == old(View())
    {
      if fuse == 0 {
        return false;
      }
      ApplyAllAppend(start, trail, e);
      Put(e);
      fuse, trail := fuse - 1, trail + [e];
      return true;
    }

    /** The operation so far took the plan's steps, up to where it was cut. */
    twostate predicate Took(plan: Plan, ok: bool)
      reads this
    {
      && Valid()
      && start == old(View())
      && trail == Prefix(plan.effects, old(fuse))
      && ok == (plan.accepted && |plan.effects| <= old(fuse))
    }

    method EnrollCaller(caller: CallerId, h: Human, now: int, admitted: bool) returns (ok: bool)
      modifies this
      ensures Took(EnrollPlan(cfg, old(View()), caller, h, now, admitted), ok)
    {
      Begin();
      if !LoadHolds(Records()) { return false; }
      var human := CheckHuman(cfg, Records(), h, ToEnroll, h.policy, caller, None, now);
      if !human { return false; }
      if caller == "" || caller == "bootstrap" || caller in callers || !admitted { return false; }
      var alive := Write(WriteCallers(callers[caller := Caller(false, 1)]));
      if !alive { return false; }
      ok := Write(WriteEnrollment(caller));
    }

    method PairGuards(device: DeviceId, fingerprint: string, h: Human, now: int, admitted: bool) returns (ok: bool)
      ensures ok == PairAdmits(cfg, View(), device, fingerprint, h, now, admitted)
    {
      if !LoadHolds(Records()) || enrollment.None? { return false; }
      var authPolicy := if policy.Some? then Some(policy.value.name) else h.policy;
      AuthorizationIgnoresHistory(cfg, Records(), history, h, ToPair, authPolicy, device, None, now);
      var human := CheckHuman(cfg, Records(), h, ToPair, authPolicy, device, None, now);
      if !human { return false; }
      return (device in devices ==> devices[device].revoked) && fingerprint != "" && admitted;
    }

    method PairDevice(device: DeviceId, role: Role, key: Option<PublicKey>, algorithm: Algorithm, fingerprint: string,
                      h: Human, now: int, admitted: bool) returns (ok: bool)
      modifies this
      ensures Took(PairPlan(cfg, old(View()), device, role, key, algorithm, fingerprint, h, now, admitted), ok)
    {
      Begin();
      var admits := PairGuards(device, fingerprint, h, now, admitted);
      if !admits { return false; }
      ok := Write(WriteDevices(devices[device := Device(role, false, key, algorithm, fingerprint, generation)]));
    }

    /** A device record, and then the phone receipt that waited under the old ones. */
    method WriteDevicesAndDrop(changed: map<DeviceId, Device>) returns (ok: bool)
      requires Valid() && trail == []
      modifies this
      ensures Valid() && start == old(start)
      ensures trail == Prefix([WriteDevices(changed), WriteReceipt(None)], old(fuse)) && ok == (2 <= old(fuse))
    {
      var alive := Write(WriteDevices(changed));
      if !alive { return false; }
      ok := Write(WriteReceipt(None));
    }

    method ReplaceDeviceKey(device: DeviceId, fingerprint: string, h: Human, now: int, admitted: bool) returns (ok: bool)
      modifies this
      ensures Took(ReplaceKeyPlan(cfg, old(View()), device, fingerprint, h, now, admitted), ok)
    {
      Begin();
      if !LoadHolds(Records()) || enrollment.None? || policy.None? { return false; }
      var human := CheckHuman(cfg, Records(), h, ToReplaceKey, Some(policy.value.name), device, None, now);
      if !human || device !in devices || devices[device].revoked || fingerprint == "" || !admitted { return false; }
      ok := WriteDevicesAndDrop(devices[device := devices[device].(fingerprint := fingerprint)]);
    }

    method RevokeDevice(device: DeviceId, h: Human, now: int, admitted: bool) returns (ok: bool)
      modifies this
      ensures Took(RevokePlan(cfg, old(View()), device, h, now, admitted), ok)
    {
      Begin();
      if !LoadHolds(Records()) || enrollment.None? || policy.None? { return false; }
      var human := CheckHuman(cfg, Records(), h, ToRevoke, Some(policy.value.name), device, None, now);
      if !human || device !in devices || !admitted { return false; }
      ok := WriteDevicesAndDrop(devices[device := devices[device].(revoked := true)]);
    }

    /** Two records, and then the phone receipt that waited under the old ones. */
    method WriteTwoAndDrop(a: Effect, b: Effect) returns (ok: bool)
      requires Valid() && trail == []
      modifies this
      ensures Valid() && start == old(start)
      ensures trail == Prefix([a, b, WriteReceipt(None)], old(fuse)) && ok == (3 <= old(fuse))
    {
      var alive := Write(a);
      if !alive { return false; }
      alive := Write(b);
      if !alive { return false; }
      ok := Write(WriteReceipt(None));
    }

    method RotateCaller(h: Human, now: int, admitted: bool) returns (ok: bool)
      modifies this
      ensures Took(RotatePlan(cfg, old(View()), h, now, admitted), ok)
    {
      Begin();
      if !LoadHolds(Records()) || enrollment.None? { return false; }
      var caller := enrollment.value;
      var human := CheckHuman(cfg, Records(), h, ToRotate, h.policy, caller, None, now);
      if !human || caller !in callers || callers[caller].revoked || !admitted { return false; }
      var next := callers[caller].keyGeneration + 1;
      ok := WriteTwoAndDrop(WriteCallers(callers[caller := Caller(false, next)]), WriteMeta(generation, next));
    }

    /** The destination a set-policy is admitted for. */
    method PolicyDestination(h: Human, now: int, admitted: bool) returns (to: Option<Policy>)
      ensures to.Some? <==> SetPolicyPlan(cfg, View(), h, now, admitted).accepted
      ensures to.Some? ==> to == Destination(h)
    {
      if !LoadHolds(Records()) || enrollment.None? { return None; }
      var destination := PolicyNamed(h.subject);
      if destination.None? {
        destination := h.policy;
      }
      if destination.None? { return None; }
      var authPolicy := MutationPolicy(Records(), destination.value);
      AuthorizationIgnoresHistory(cfg, Records(), history, h, ToSetPolicy, Some(authPolicy), PolicyName(destination.value), None, now);
      var human := CheckHuman(cfg, Records(), h, ToSetPolicy, Some(authPolicy), PolicyName(destination.value), None, now);
      return if human && admitted then destination else None;
    }

    method SetPolicyTo(h: Human, now: int, admitted: bool) returns (ok: bool)
      modifies this
      ensures Took(SetPolicyPlan(cfg, old(View()), h, now, admitted), ok)
    {
      Begin();
      var destination := PolicyDestination(h, now, admitted);
      if destination.None? { return false; }
      var next := generation + 1;
      ok := WriteTwoAndDrop(WritePolicy(PolicyRecord(destination.value, next)), WriteMeta(next, keyGeneration));
    }

    /** Collects the roles of the unrevoked devices. */
    method LiveRoles() returns (roles: set<Role>)
      ensures forall r :: r in roles <==> exists id :: id in devices && !devices[id].revoked && devices[id].role == r
    {
      roles := {};
      var rest := devices.Keys;
      while rest != {}
        invariant rest <= devices.Keys
        invariant forall r :: r in roles <==>
                    exists id :: id in devices && id !in rest && !devices[id].revoked && devices[id].role == r
        decreases rest
      {
        var id := Pick(rest);
        rest := rest - {id};
        if !devices[id].revoked {
          roles := roles + {devices[id].role};
        }
      }
    }

    method RequireLiveDevices(wanted: Policy, h: Human) returns (live: bool)
      ensures live == LiveDevices(View(), wanted, h)
    {
      var roles := LiveRoles();
      if !(Factors(wanted) <= roles) && h.means != TestDouble {
        assert exists r :: r in Factors(wanted) && r !in roles;
        return false;
      }
      for i := 0 to |h.namedDevices|
        invariant forall k :: 0 <= k < i ==> h.namedDevices[k] in devices && !devices[h.namedDevices[k]].revoked
      {
        if h.namedDevices[i] !in devices || devices[h.namedDevices[i]].revoked {
          return false;
        }
      }
      return true;
    }

    method ConsumeGuards(nonce: Nonce, wanted: Policy, h: Human, binding: Binding, snapshot: Option<Digest>,
                         now: int, admitted: bool) returns (ok: bool)
      ensures ok == ConsumeAdmits(cfg, View(), nonce, wanted, h, binding, snapshot, now, admitted)
    {
      if !LoadHolds(Records()) || h.means == Bootstrap || LeaseHeld(Records()) { return false; }
      var live := RequireLiveDevices(wanted, h);
      if !live { return false; }
      if policy.None? || policy.value.name != wanted || nonce == "" || RecordOf(spent, nonce).Some? { return false; }
      if binding.keyGeneration != keyGeneration || binding.launchArgv == [] || snapshot.None? { return false; }
      if h.means == ExactRunSession && (snapshot.value != h.payloadDigest || binding.launchArgv != h.launchArgv) { return false; }
      if snapshot.value == cfg.holderId { return false; }
      var authorized := Some(Authorized(snapshot.value, binding.launchArgv, binding.terms));
      AuthorizationIgnoresHistory(cfg, Records(), history, h, ToConsume, Some(wanted), nonce, authorized, now);
      var human := CheckHuman(cfg, Records(), h, ToConsume, Some(wanted), nonce, authorized, now);
      return human && admitted;
    }

    /** The consume body, shared with the exact-run authorization. */
    method ConsumeLocked(nonce: Nonce, wanted: Policy, h: Human, binding: Binding, snapshot: Option<Digest>,
                         now: int, admitted: bool) returns (ok: bool)
      requires Valid() && trail == []
      modifies this
      ensures Valid() && start == old(start)
      ensures var plan := ConsumePlan(cfg, old(View()), nonce, wanted, h, binding, snapshot, now, admitted);
              && trail == Prefix(plan.effects, old(fuse))
              && ok == (plan.accepted && |plan.effects| <= old(fuse))
              && fuse == (if |plan.effects| <= old(fuse) then old(fuse) - |plan.effects| else 0)
              && pending == old(pending)
    {
      var admits := ConsumeGuards(nonce, wanted, h, binding, snapshot, now, admitted);
      if !admits { return false; }
      var record := ConsumedRecord(Records(), nonce, wanted, h, binding, snapshot.value);
      var alive := Write(WriteSpent(record));
      if !alive { return false; }
      ok := Write(WriteLease(UncertainLease(nonce)));
    }

    method ConsumeNonce(nonce: Nonce, wanted: Policy, h: Human, binding: Binding, snapshot: Option<Digest>,
                        now: int, admitted: bool) returns (ok: bool)
      modifies this
      ensures Took(ConsumePlan(cfg, old(View()), nonce, wanted, h, binding, snapshot, now, admitted), ok)
    {
      Begin();
      ok := ConsumeLocked(nonce, wanted, h, binding, snapshot, now, admitted);
    }

    method CancelUncertain(token: Nonce, h: Human, now: int, admitted: bool) returns (ok: bool)
      modifies this
      ensures Took(CancelPlan(cfg, old(View()), token, h, now, admitted), ok)
    {
      Begin();
      if !LoadHolds(Records()) { return false; }
      var human := CheckHuman(cfg, Records(), h, ToCancel, h.policy, token, None, now);
      if !human || lease.None? || lease.value.token != token { return false; }
      if lease.value.child != Uncertain || lease.value.pid.Some? { return false; }
      if RunsExactly(Records(), token) || !admitted { return false; }
      ok := Write(FreeLease(Lease(false, token, Cancelled, None, false), CancelledBeforeSpawn));
    }

    /** Answers why nothing is released; nothing is written. */
    method NoteChildAbsent(token: Nonce, h: Human, now: int) returns (answer: NoteAnswer)
      modifies this`start, this`trail
      ensures answer == AnswerNote(cfg, View(), token, h, now)
      ensures Took(REFUSED, false) && View() == old(View())
    {
      Begin();
      if !LoadHolds(Records()) { return Unloaded; }
      AuthorizationIgnoresHistory(cfg, Records(), history, h, ToNoteAbsent, h.policy, token, None, now);
      var human := CheckHuman(cfg, Records(), h, ToNoteAbsent, h.policy, token, None, now);
      if !human { return Unauthorized; }
      if lease.None? || lease.value.token != token { return NoMatch; }
      return if lease.value.child == Uncertain && lease.value.pid.None? then CancelInstead else NeedsTermination;
    }

    method ReapUnreleasedChild(token: Nonce, pid: Pid, reaped: bool, gateOpened: bool)
      requires Valid()
      modifies this
      ensures Valid() && start == old(start)
      ensures trail == old(trail) + Prefix(ReapPlan(token, pid, reaped, gateOpened).effects, old(fuse))
    {
      if !reaped {
        var kept := Write(WriteLease(RetainedLease(token, pid)));
      } else {
        var freed := Write(FreeLease(Lease(false, token, SpawnFailed, None, false), ReapedChild(pid, gateOpened)));
      }
    }

    /** The processes every table taken shows under the child, and whether any
        look at the process table failed. */
    method ObservePids(pid: Pid, tables: seq<Option<Table>>) returns (observed: set<Pid>, uncertain: bool)
      ensures uncertain <==> None in tables
      ensures forall q :: q in observed <==> q == pid || exists t :: Some(t) in tables && Descends(t, pid, q)
    {
      observed, uncertain := {pid}, false;
      for i := 0 to |tables|
        invariant uncertain <==> None in tables[..i]
        invariant forall q :: q in observed <==> q == pid || exists t :: Some(t) in tables[..i] && Descends(t, pid, q)
      {
        assert tables[..i + 1] == tables[..i] + [tables[i]];
        match tables[i] {
          case None => uncertain := true;
          case Some(table) =>
            var tree := DescendantsOf(table, pid);
            ghost var before := observed;
            observed := observed + tree;
            forall q ensures q in observed <==> q == pid || exists t :: Some(t) in tables[..i + 1] && Descends(t, pid, q) {
              if q in tree { assert Some(table) in tables[..i + 1]; }
              if q in before && q != pid {
                var t :| Some(t) in tables[..i] && Descends(t, pid, q);
                assert Some(t) in tables[..i + 1];
              }
            }
        }
      }
      assert tables[..|tables|] == tables;
    }

    /** Follows the released child to its end and decides the lease. */
    method Supervise(token: Nonce, pid: Pid, w: Watch) returns (ok: bool)
      requires Valid()
      modifies this
      ensures Valid() && start == old(start)
      ensures trail == old(trail) + Prefix(VerdictPlan(token, pid, w).effects, old(fuse))
      ensures ok == (VerdictPlan(token, pid, w).accepted && 1 <= old(fuse))
    {
      var tables := [w.first] + w.polls;
      var observed, uncertain := ObservePids(pid, tables);
      if !w.stopped { return false; }
      var accounted := false;
      if !w.forkSeen && !w.reparented && !uncertain && w.last.Some? {
        var final, _ := ObservePids(pid, [w.last]);
        var tracked := observed + final;
        forall q ensures q in tracked <==> q == pid || exists t :: Some(t) in Tables(w) && Descends(t, pid, q) {
          SeenInTables(pid, w, q);
        }
        var lingering := set q | q in tracked && q != pid && StillThere(w.present, q);
        if lingering == {} && w.groupAbsent {
          accounted := true;
        } else if !w.signalDenied {
          var still := set q | q in tracked && q != pid && StillThere(w.presentAfter, q);
          accounted := still == {} && w.groupAbsentAfter;
        }
        TreeGoneBySet(pid, w, tracked, w.present, w.groupAbsent);
        TreeGoneBySet(pid, w, tracked, w.presentAfter, w.groupAbsentAfter);
      }
      assert None in Tables(w) <==> uncertain || w.last.None?;
      assert accounted == Accounted(pid, w);
      if !accounted {
        var kept := Write(WriteLease(RetainedLease(token, pid)));
        return false;
      }
      ok := Write(FreeLease(Lease(false, token, if w.timedOut then TimedOut else Exited, Some(pid), true), ObservedExit(pid, w)));
    }

    method ExecuteGuards(token: Nonce, h: Human, sealedArgv: Option<Argv>, now: int, admitted: bool) returns (ok: bool)
      ensures ok == ExecuteAdmits(cfg, View(), token, h, sealedArgv, now, admitted)
    {
      if !LoadHolds(Records()) || lease.None? { return false; }
      if lease.value.token != token || !lease.value.held || lease.value.child != Uncertain || lease.value.launchStarted { return false; }
      if h.means == Bootstrap { return false; }
      var found := RecordOf(spent, token);
      if found.None? { return false; }
      var r := found.value;
      var authorized := Some(Authorized(r.payloadDigest, r.launchArgv, r.terms));
      AuthorizationIgnoresHistory(cfg, Records(), history, h, ToExecute, h.policy, token, authorized, now);
      var human := CheckHuman(cfg, Records(), h, ToExecute, h.policy, token, authorized, now);
      return human && sealedArgv == Some(r.launchArgv) && admitted;
    }

    /** Records the launched child and follows it. */
    method FollowChild(token: Nonce, pid: Pid, w: Watch) returns (ok: bool)
      requires Valid()
      modifies this
      ensures Valid() && start == old(start)
      ensures var plan := VerdictPlan(token, pid, w);
              && trail == old(trail) + Prefix([WriteLease(RunningLease(token, Some(pid)))] + plan.effects, old(fuse))
              && ok == (plan.accepted && 1 + |plan.effects| <= old(fuse))
    {
      var tracked := WriteLease(RunningLease(token, Some(pid)));
      ghost var n := fuse;
      var alive := Write(tracked);
      if !alive { return false; }
      CutAfter(tracked, VerdictPlan(token, pid, w).effects, n);
      ok := Supervise(token, pid, w);
    }

    /** Opens the gate; then follows the child, or reaps it when the gate fails to close. */
    method OpenAndFollow(token: Nonce, r: SpentRecord, pid: Pid, gate: Gate, reaped: bool, w: Watch) returns (ok: bool)
      requires Valid() && r.nonce == token && gate != GoRefused
      modifies this
      ensures Valid() && start == old(start)
      ensures var plan := SpawnPlan(old(View()), r, SpawnedChild(pid, gate, reaped, w));
              && trail == old(trail) + Prefix(plan.effects, old(fuse))
              && ok == (plan.accepted && |plan.effects| <= old(fuse))
    {
      ghost var n := fuse;
      var open := OpenGate(LaunchOf(Records(), r));
      var alive := Write(open);
      if !alive { return false; }
      if gate == CloseFailed {
        CutAfter(open, ReapPlan(token, pid, reaped, true).effects, n);
        ReapUnreleasedChild(token, pid, reaped, true);
        return false;
      }
      CutAfter(open, [WriteLease(RunningLease(token, Some(pid)))] + VerdictPlan(token, pid, w).effects, n);
      ok := FollowChild(token, pid, w);
    }

    /** What follows the first write of an execute: spawn, gate, supervision. */
    method SpawnChild(token: Nonce, r: SpentRecord, spawn: Spawn) returns (ok: bool)
      requires Valid() && r.nonce == token
      modifies this
      ensures Valid() && start == old(start)
      ensures var plan := SpawnPlan(old(View()), r, spawn);
              && trail == old(trail) + Prefix(plan.effects, old(fuse))
              && ok == (plan.accepted && |plan.effects| <= old(fuse))
    {
      match spawn {
        case NoChild =>
          var kept := Write(WriteLease(UncertainLease(token)));
          ok := false;
        case SpawnedChild(pid, gate, reaped, w) =>
          if gate == GoRefused {
            ReapUnreleasedChild(token, pid, reaped, false);
            return false;
          }
          ok := OpenAndFollow(token, r, pid, gate, reaped, w);
      }
    }

    /** Marks the lease started, and then spawns. */
    method StartChild(token: Nonce, r: SpentRecord, spawn: Spawn) returns (ok: bool)
      requires Valid() && r.nonce == token
      modifies this
      ensures Valid() && start == old(start)
      ensures var plan := SpawnPlan(old(View()), r, spawn);
              && trail == old(trail) + Prefix([WriteLease(RunningLease(token, None))] + plan.effects, old(fuse))
              && ok == (plan.accepted && 1 + |plan.effects| <= old(fuse))
    {
      ghost var n, s, done := fuse, View(), trail;
      var running := WriteLease(RunningLease(token, None));
      var alive := Write(running);
      if !alive { return false; }
      SpawnPlanKept(s, View(), r, spawn);
      ghost var rest := SpawnPlan(s, r, spawn).effects;
      ok := SpawnChild(token, r, spawn);
      CutAfter(running, rest, n);
      assert done + ([running] + Prefix(rest, n - 1)) == (done + [running]) + Prefix(rest, n - 1);
    }

    /** Spawns from the recorded binding and follows the child. */
    method ExecuteLocked(token: Nonce, h: Human, sealedArgv: Option<Argv>, spawn: Spawn, now: int, admitted: bool) returns (ok: bool)
      requires Valid() && trail == []
      modifies this
      ensures Valid() && start == old(start)
      ensures var plan := ExecutePlan(cfg, old(View()), token, h, sealedArgv, spawn, now, admitted);
              && trail == Prefix(plan.effects, old(fuse))
              && ok == (plan.accepted && |plan.effects| <= old(fuse))
    {
      var admits := ExecuteGuards(token, h, sealedArgv, now, admitted);
      if !admits { return false; }
      ok := StartChild(token, RecordOf(spent, token).value, spawn);
    }

    method ExecuteToken(token: Nonce, h: Human, sealedArgv: Option<Argv>, spawn: Spawn, now: int, admitted: bool) returns (ok: bool)
      modifies this
      ensures Took(ExecutePlan(cfg, old(View()), token, h, sealedArgv, spawn, now, admitted), ok)
    {
      Begin();
      ok := ExecuteLocked(token, h, sealedArgv, spawn, now, admitted);
    }

    method IssueExact(peer: int, nonce: Nonce, wanted: Policy, binding: Binding, snapshot: Option<Digest>,
                      now: int, admitted: bool) returns (ok: bool)
      modifies this
      ensures Took(IssuePlan(cfg, old(View()), peer, nonce, wanted, binding, snapshot, now, admitted), ok)
    {
      Begin();
      if !LoadHolds(Records()) || binding.keyGeneration != keyGeneration || binding.launchArgv == [] { return false; }
      if snapshot.None? || !admitted { return false; }
      var expiry := now + 120;
      var bound := ExactRun(cfg.holderId, snapshot.value, binding.launchArgv, nonce, wanted, generation, keyGeneration, expiry);
      ok := Write(Remember(Pending(peer, nonce, snapshot.value, binding.launchArgv, binding.terms, bound, wanted,
                                   generation, keyGeneration, expiry)));
    }

    method ConsumePending(p: Pending, signatures: map<string, Signature>, now: int) returns (ok: bool)
      requires Valid() && trail == []
      modifies this
      ensures Valid() && start == old(start)
      ensures var plan := PendingPlan(cfg, old(View()), p, signatures, now);
              && trail == Prefix(plan.effects, old(fuse))
              && ok == (plan.accepted && |plan.effects| <= old(fuse))
    {
      var h := SessionHuman(cfg, ToConsume, p.nonce, p.policy, p.expiry, p.generation, p.keyGeneration,
                            p.payloadDigest, p.launchArgv, p.bound, signatures);
      ok := ConsumeLocked(p.nonce, p.policy, h, Binding(p.launchArgv, p.keyGeneration, p.terms), Some(p.payloadDigest), now, true);
      if !ok { return false; }
      ok := Write(Forget);
    }

    method AuthorizeExact(peer: int, nonce: Option<Nonce>, wanted: Option<Policy>, signatures: map<string, Signature>,
                          now: int, admitted: bool) returns (ok: bool)
      modifies this
      ensures Took(AuthorizePlan(cfg, old(View()), peer, nonce, wanted, signatures, now, admitted), ok)
    {
      Begin();
      if signatures.Keys == {} || !LoadHolds(Records()) || pending.None? { return false; }
      var p := pending.value;
      if p.peer != peer || (nonce.Some? && nonce != Some(p.nonce)) || (wanted.Some? && wanted != Some(p.policy)) { return false; }
      if now > p.expiry || generation != p.generation || keyGeneration != p.keyGeneration {
        var forgotten := Write(Forget);
        return false;
      }
      if !SessionRolesHold(p.policy, signatures) || !admitted { return false; }
      ok := ConsumePending(p, signatures, now);
    }

    method ExecuteExact(nonce: Nonce, signatures: map<string, Signature>, sealedArgv: Option<Argv>, spawn: Spawn,
                        now: int, admitted: bool) returns (ok: bool)
      modifies this
      ensures Took(ExecuteExactPlan(cfg, old(View()), nonce, signatures, sealedArgv, spawn, now, admitted), ok)
    {
      Begin();
      var found := RecordOf(spent, nonce);
      if found.None? || found.value.session.None? || !SessionRolesHold(found.value.policy, signatures) { return false; }
      ok := ExecuteLocked(nonce, ExecuteHuman(cfg, found.value, signatures), sealedArgv, spawn, now, admitted);
    }

    method IssueChallenge(role: Role, peer: int, nonce: Nonce, challenge: string, now: int, admitted: bool) returns (ok: bool)
      modifies this
      ensures Took(IssueChallengePlan(old(View()), role, peer, nonce, challenge, now, admitted), ok)
    {
      Begin();
      if !LoadHolds(Records()) || !admitted { return false; }
      ok := Write(SetChallenges(challenges[role := SlotChallenge(peer, nonce, now + 120, generation, challenge)]));
    }

    method CancelChallenge(role: Role, peer: int, admitted: bool) returns (ok: bool)
      modifies this
      ensures Took(CancelChallengePlan(old(View()), role, peer, admitted), ok)
    {
      Begin();
      if !LoadHolds(Records()) || role !in challenges || challenges[role].peer != peer || !admitted { return false; }
      ok := Write(SetChallenges(challenges - {role}));
    }

    /** The submission's checks, in the order the records are read. */
    method CheckSubmission(role: Role, peer: int, m: Submission, now: int) returns (ok: bool)
      ensures ok == SubmissionHolds(cfg, View(), role, peer, m, now)
    {
      if m.key == "" || m.signature == "" || m.nonce == "" || !LoadHolds(Records()) { return false; }
      if m.nonce in deviceNonces || role !in challenges { return false; }
      var c := challenges[role];
      if c.peer != peer || now > c.expiry || m.challenge != c.challenge { return false; }
      var stored := SlotBinding(cfg.holderId, c.generation, role, c.expiry, c.nonce, c.challenge);
      if SlotBinding(m.holderId, m.generation, role, m.expiry, m.nonce, m.challenge) != stored || generation != c.generation { return false; }
      return cfg.verify(P256, m.key, stored, m.signature);
    }

    /** The challenge leaves memory and its nonce is spent, whatever comes next. */
    method UseChallenge(role: Role, nonce: Nonce) returns (alive: bool)
      requires Valid() && trail == []
      modifies this
      ensures Valid() && start == old(start)
      ensures trail == Prefix([SetChallenges(old(challenges) - {role}), SpendDeviceNonce(nonce)], old(fuse))
      ensures alive == (2 <= old(fuse)) && (alive ==> fuse == old(fuse) - 2)
      ensures devices == old(devices) && generation == old(generation)
    {
      alive := Write(SetChallenges(challenges - {role}));
      if !alive { return false; }
      alive := Write(SpendDeviceNonce(nonce));
    }

    /** The slot's record, and then the phone receipt. */
    method StoreKey(slot: DeviceId, device: Device, waiting: Option<Receipt>) returns (ok: bool)
      requires Valid()
      modifies this
      ensures Valid() && start == old(start)
      ensures trail == old(trail) + Prefix([WriteDevices(old(devices)[slot := device]), WriteReceipt(waiting)], old(fuse))
      ensures ok == (2 <= old(fuse))
    {
      ok := Write(WriteDevices(devices[slot := device]));
      if !ok { return false; }
      ok := Write(WriteReceipt(waiting));
    }

    /** Uses up the challenge and its nonce, and then stores the key or refuses it. */
    method SubmitSignature(role: Role, peer: int, m: Submission, now: int, admitted: bool) returns (ok: bool)
      modifies this
      ensures Took(SubmitPlan(cfg, old(View()), role, peer, m, now, admitted), ok)
    {
      Begin();
      var holds := CheckSubmission(role, peer, m, now);
      if !holds || !admitted { return false; }
      var refused := SlotKey(Records(), OtherRole(role)) == Some(m.key) || cfg.installed;
      var device := SubmittedDevice(cfg, Records(), role, m);
      var waiting := if role == Mac then None
                     else Some(Receipt(m.nonce, m.challenge, generation, cfg.fingerprintOf(m.key), m.key, false));
      var alive := UseChallenge(role, m.nonce);
      if !alive || refused { return false; }
      ok := StoreKey(SessionSlot(role), device, waiting);
    }

    method PrepareReceipt(challengeId: Nonce, macKey: Option<PublicKey>, claimed: Option<Message>, admitted: bool) returns (ok: bool)
      modifies this`start, this`trail
      ensures Took(Plan([], ReceiptHolds(cfg, old(View()), challengeId, macKey, claimed) && admitted), ok) && View() == old(View())
    {
      Begin();
      return ReceiptHolds(cfg, Records(), challengeId, macKey, claimed) && admitted;
    }

    method SealReceipt(challengeId: Nonce, macKey: Option<PublicKey>, claimed: Option<Message>, signature: Signature,
                       admitted: bool) returns (ok: bool)
      modifies this
      ensures Took(SealPlan(cfg, old(View()), challengeId, macKey, claimed, signature, admitted), ok)
    {
      Begin();
      if signature == "" || !ReceiptHolds(cfg, Records(), challengeId, macKey, claimed) { return false; }
      var r, key := receipt.value, SlotKey(Records(), Mac).value;
      if r.isSealed || !cfg.verify(P256, key, ReceiptMessage(cfg, r, key), signature) || !admitted { return false; }
      ok := Write(WriteReceipt(Some(r.(isSealed := true))));
    }

    method DispatchDevices(q: Request) returns (ok: bool)
      requires q.op.Enroll? || q.op.Pair? || q.op.ReplaceKey? || q.op.Revoke?
      modifies this
      ensures Took(PlanOf(cfg, old(View()), q), ok)
    {
      match q.op {
        case Enroll(c, h) => ok := EnrollCaller(c, h, q.now, q.admitted);
        case Pair(d, r, k, a, f, h) => ok := PairDevice(d, r, k, a, f, h, q.now, q.admitted);
        case ReplaceKey(d, f, h) => ok := ReplaceDeviceKey(d, f, h, q.now, q.admitted);
        case Revoke(d, h) => ok := RevokeDevice(d, h, q.now, q.admitted);
      }
    }

    method DispatchSlots(q: Request) returns (ok: bool)
      requires KeysOnly(q.op) && !q.op.Enroll? && !q.op.Pair? && !q.op.ReplaceKey? && !q.op.Revoke?
      modifies this
      ensures Took(PlanOf(cfg, old(View()), q), ok)
    {
      match q.op {
        case IssueDeviceChallenge(r, peer, n, c) => ok := IssueChallenge(r, peer, n, c, q.now, q.admitted);
        case CancelDeviceChallenge(r, peer) => ok := CancelChallenge(r, peer, q.admitted);
        case SubmitDeviceSignature(r, peer, m) => ok := SubmitSignature(r, peer, m, q.now, q.admitted);
        case PreparePhoneReceipt(id, k, m) => ok := PrepareReceipt(id, k, m, q.admitted);
        case SealPhoneReceipt(id, k, m, sg) => ok := SealReceipt(id, k, m, sg, q.admitted);
      }
    }

    method DispatchRuns(q: Request) returns (ok: bool)
      requires !KeysOnly(q.op)
      modifies this
      ensures Took(PlanOf(cfg, old(View()), q), ok)
    {
      match q.op {
        case Rotate(h) => ok := RotateCaller(h, q.now, q.admitted);
        case SetPolicy(h) => ok := SetPolicyTo(h, q.now, q.admitted);
        case Consume(n, p, h, b, d) => ok := ConsumeNonce(n, p, h, b, d, q.now, q.admitted);
        case Cancel(t, h) => ok := CancelUncertain(t, h, q.now, q.admitted);
        case NoteAbsent(t, h) => var answer := NoteChildAbsent(t, h, q.now); ok := false;
        case Execute(t, h, a, w) => ok := ExecuteToken(t, h, a, w, q.now, q.admitted);
        case IssueExactRun(peer, n, p, b, d) => ok := IssueExact(peer, n, p, b, d, q.now, q.admitted);
        case AuthorizeExactRun(peer, n, p, sg) => ok := AuthorizeExact(peer, n, p, sg, q.now, q.admitted);
        case ExecuteExactRun(n, sg, a, w) => ok := ExecuteExact(n, sg, a, w, q.now, q.admitted);
      }
    }

    /** One dispatched request: what it leaves behind is the performed step. */
    method Dispatch(q: Request) returns (ok: bool)
      modifies this
      ensures Took(PlanOf(cfg, old(View()), q), ok)
      ensures View() == Perform(cfg, old(View()), Step(q, old(fuse), false))
    {
      if q.op.Enroll? || q.op.Pair? || q.op.ReplaceKey? || q.op.Revoke? {
        ok := DispatchDevices(q);
      } else if KeysOnly(q.op) {
        ok := DispatchSlots(q);
      } else {
        ok := DispatchRuns(q);
      }
    }
  }

  lemma AuthorizationIgnoresHistory(cfg: Config, s: State, history: seq<Event>, h: Human, purpose: Purpose,
                                    policy: Option<Policy>, subject: string, authorized: Option<Authorized>, now: int)
    ensures HumanHolds(cfg, s.(history := history), h, purpose, policy, subject, authorized, now) ==
            HumanHolds(cfg, s, h, purpose, policy, subject, authorized, now)
  {
  }

  /** Cutting a list after its first step cuts the rest by what is left. */
  lemma CutAfter(e: Effect, rest: seq<Effect>, n: nat)
    requires 0 < n
    ensures Prefix([e] + rest, n) == [e] + Prefix(rest, n - 1)
  {
  }

  /** The steps of a spawn only depend on the record and the generations. */
  lemma SpawnPlanKept(s: State, t: State, r: SpentRecord, spawn: Spawn)
    requires s.generation == t.generation && s.keyGeneration == t.keyGeneration
    ensures SpawnPlan(s, r, spawn) == SpawnPlan(t, r, spawn)
  {
    assert LaunchOf(s, r) == LaunchOf(t, r);
  }

  lemma SeenInTables(pid: Pid, w: Watch, q: Pid)
    ensures (exists t :: Some(t) in Tables(w) && Descends(t, pid, q)) <==>
            (exists t :: Some(t) in [w.first] + w.polls && Descends(t, pid, q)) ||
            (exists t :: Some(t) in [w.last] && Descends(t, pid, q))
  {
    assert forall t :: Some(t) in Tables(w) <==> Some(t) in [w.first] + w.polls || Some(t) in [w.last];
  }

  lemma TreeGoneBySet(pid: Pid, w: Watch, tracked: set<Pid>, present: set<Pid>, groupAbsent: bool)
    requires forall q :: q in tracked <==> q == pid || exists t :: Some(t) in Tables(w) && Descends(t, pid, q)
    ensures TreeGone(pid, w, present, groupAbsent) <==>
            groupAbsent && (set q | q in tracked && q != pid && StillThere(present, q)) == {}
  {
    var left := set q | q in tracked && q != pid && StillThere(present, q);
    if groupAbsent && left == {} {
      forall t, q | Some(t) in Tables(w) && Descends(t, pid, q) && q != pid ensures !StillThere(present, q) {
        assert q in tracked;
        assert q !in left;
      }
    }
  }
}
