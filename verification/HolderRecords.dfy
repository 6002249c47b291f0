/** The durable records of the execution holder, the world history kept beside
    them, and the single steps every holder operation is made of. */
module HolderRecords {
  import opened Wrappers
  import opened ProcessTree

  type Nonce = string
  type CallerId = string
  type DeviceId = string
  type Digest = string
  type Argv = seq<string>
  type PublicKey = string
  type Signature = string

  datatype Role = Mac | Phone
  datatype Policy = Local | Companion | Dual

  /** The device factors a policy requires. */
  function Factors(p: Policy): set<Role>
  {
    match p
    case Local => {Mac}
    case Companion => {Phone}
    case Dual => {Mac, Phone}
  }

  function PolicyName(p: Policy): string
  {
    match p
    case Local => "local"
    case Companion => "companion"
    case Dual => "dual"
  }

  function PolicyNamed(name: string): Option<Policy>
  {
    if name == "local" then Some(Local)
    else if name == "companion" then Some(Companion)
    else if name == "dual" then Some(Dual)
    else None
  }

  function RoleName(r: Role): string
  {
    match r
    case Mac => "mac"
    case Phone => "phone"
  }

  /** The fixed device slot a session key lives in. */
  function SessionSlot(r: Role): DeviceId
  {
    RoleName(r) + "-human"
  }

  datatype Purpose = ToEnroll | ToPair | ToReplaceKey | ToRevoke | ToRotate | ToSetPolicy | ToConsume | ToCancel | ToNoteAbsent | ToExecute

  datatype Algorithm = Ed25519 | P256

  /** What a device challenge over P-256 keys says of one signing record. */
  datatype Paired = Paired(role: Role, fingerprint: string, generation: int)

  /** What a consume or execute authorization must also cover. `terms` stands for
      the contract hash, workspace, bounds and mutation digest of the binding. */
  datatype Authorized = Authorized(payloadDigest: Digest, launchArgv: Argv, terms: string)

  /** Canonical messages, kept as values: two encodings agree exactly when the
      fields do. */
  datatype Message =
    | DeviceChallenge(purpose: Purpose, subject: string, policy: Policy, expiresAt: int,
                      holderId: string, generation: int, authorized: Option<Authorized>,
                      algorithm: Algorithm, paired: map<DeviceId, Paired>)
    | ExactRun(holderId: string, payloadDigest: Digest, launchArgv: Argv, nonce: Nonce,
               policy: Policy, generation: int, keyGeneration: int, expiry: int)
    | BootstrapChallenge(purpose: Purpose, subject: string, policy: Policy, expiresAt: int)
    | SlotBinding(holderId: string, generation: int, role: Role, expiry: int, nonce: Nonce, challenge: string)
    | PhoneReceipt(holderId: string, generation: int, challengeId: Nonce, challenge: string,
                   phoneFingerprint: string, macPublicKey: PublicKey)

  /** What does not change while a holder lives. Signature and MAC checks are
      arbitrary predicates, the fingerprint an arbitrary function. */
  datatype Config = Config(
    holderId: string,
    installed: bool,
    allowTestDouble: bool,
    verify: (Algorithm, PublicKey, Message, Signature) -> bool,
    bootstrapMac: (Message, Signature) -> bool,
    fingerprintOf: PublicKey -> string)

  datatype Caller = Caller(revoked: bool, keyGeneration: int)
  datatype Device = Device(role: Role, revoked: bool, publicKey: Option<PublicKey>, algorithm: Algorithm,
                           fingerprint: string, generation: int)
  datatype PolicyRecord = PolicyRecord(name: Policy, generation: int)

  /** The signed message and expiry an exact run leaves in its spent record. */
  datatype Session = Session(bound: Message, expiry: int)
  datatype SpentRecord = SpentRecord(
    nonce: Nonce, payloadDigest: Digest, launchArgv: Argv, terms: string,
    policy: Policy, generation: int, keyGeneration: int, session: Option<Session>)

  datatype Child = Uncertain | Running | SupervisionUncertain | SpawnFailed | Cancelled | Exited | TimedOut
  datatype Lease = Lease(held: bool, token: Nonce, child: Child, pid: Option<Pid>, launchStarted: bool)

  /** The one exact run the holder process remembers between issue and authorize. */
  datatype Pending = Pending(
    peer: int, nonce: Nonce, payloadDigest: Digest, launchArgv: Argv, terms: string,
    bound: Message, policy: Policy, generation: int, keyGeneration: int, expiry: int)

  /** A session key's challenge the holder process remembers, one for each role. */
  datatype SlotChallenge = SlotChallenge(peer: int, nonce: Nonce, expiry: int, generation: int, challenge: string)

  /** The receipt a submitted phone key waits for. */
  datatype Receipt = Receipt(challengeId: Nonce, challenge: string, generation: int, phoneFingerprint: string,
                             phoneKey: PublicKey, isSealed: bool)

  /** Everything the holder saw of one payload after the gate opened: the tables
      taken at launch, while it ran and after it ended; whether its end was
      observed; and which processes were still present at the two last looks. */
  datatype Watch = Watch(
    first: Option<Table>, polls: seq<Option<Table>>, last: Option<Table>,
    timedOut: bool, stopped: bool, forkSeen: bool, reparented: bool,
    present: set<Pid>, groupAbsent: bool,
    signalDenied: bool, presentAfter: set<Pid>, groupAbsentAfter: bool)

  /** Why a held lease became free. */
  datatype Evidence =
    | CancelledBeforeSpawn
    | ReapedChild(pid: Pid, gateOpened: bool)
    | ObservedExit(pid: Pid, watch: Watch)

  datatype Launch = Launch(nonce: Nonce, payloadDigest: Digest, launchArgv: Argv, generation: int, keyGeneration: int)

  /** What has happened in the world. The holder never reads this back. */
  datatype Event =
    | Issued(bound: Message)
    | Launched(launch: Launch)
    | Freed(token: Nonce, evidence: Evidence)

  datatype State = State(
    generation: int,
    keyGeneration: int,
    callers: map<CallerId, Caller>,
    enrollment: Option<CallerId>,
    policy: Option<PolicyRecord>,
    devices: map<DeviceId, Device>,
    spent: seq<SpentRecord>,
    lease: Option<Lease>,
    pending: Option<Pending>,
    challenges: map<Role, SlotChallenge>,
    deviceNonces: set<Nonce>,
    receipt: Option<Receipt>,
    history: seq<Event>)

  /** A holder whose first records were just written. */
  const INITIAL := State(1, 1, map[], None, None, map[], [], None, None, map[], {}, None, [])

  /** One step: a record write, a change of process memory, or the gate byte. */
  datatype Effect =
    | WriteCallers(callers: map<CallerId, Caller>)
    | WriteEnrollment(caller: CallerId)
    | WritePolicy(policy: PolicyRecord)
    | WriteMeta(generation: int, keyGeneration: int)
    | WriteDevices(devices: map<DeviceId, Device>)
    | WriteSpent(record: SpentRecord)
    | WriteLease(lease: Lease)
    | FreeLease(freed: Lease, evidence: Evidence)
    | Remember(pending: Pending)
    | Forget
    | SetChallenges(challenges: map<Role, SlotChallenge>)
    | SpendDeviceNonce(nonce: Nonce)
    | WriteReceipt(receipt: Option<Receipt>)
    | OpenGate(launch: Launch)

  function Apply(s: State, e: Effect): State
  {
    match e
    case WriteCallers(c) => s.(callers := c)
    case WriteEnrollment(c) => s.(enrollment := Some(c))
    case WritePolicy(p) => s.(policy := Some(p))
    case WriteMeta(g, k) => s.(generation := g, keyGeneration := k)
    case WriteDevices(d) => s.(devices := d)
    case WriteSpent(r) => s.(spent := s.spent + [r])
    case WriteLease(l) => s.(lease := Some(l))
    case FreeLease(l, v) => s.(lease := Some(l), history := s.history + [Freed(l.token, v)])
    case Remember(p) => s.(pending := Some(p), history := s.history + [Issued(p.bound)])
    case Forget => s.(pending := None)
    case SetChallenges(c) => s.(challenges := c)
    case SpendDeviceNonce(n) => s.(deviceNonces := s.deviceNonces + {n})
    case WriteReceipt(r) => s.(receipt := r)
    case OpenGate(l) => s.(history := s.history + [Launched(l)])
  }

  function ApplyAll(s: State, effects: seq<Effect>): State
    decreases |effects|
  {
    if effects == [] then s else ApplyAll(Apply(s, effects[0]), effects[1..])
  }

  lemma {:induction false} ApplyAllAppend(s: State, effects: seq<Effect>, e: Effect)
    ensures ApplyAll(s, effects + [e]) == Apply(ApplyAll(s, effects), e)
    decreases |effects|
  {
    if effects != [] {
      assert (effects + [e])[1..] == effects[1..] + [e];
      ApplyAllAppend(Apply(s, effects[0]), effects[1..], e);
    } else {
      assert ApplyAll(s, [e]) == ApplyAll(Apply(s, e), []);
    }
  }

  lemma ApplyTwo(s: State, a: Effect, b: Effect)
    ensures ApplyAll(s, [a, b]) == Apply(Apply(s, a), b)
  {
    assert [a, b][1..] == [b];
    assert ApplyAll(Apply(s, a), [b]) == ApplyAll(Apply(Apply(s, a), b), []);
  }

  lemma ApplyThree(s: State, a: Effect, b: Effect, c: Effect)
    ensures ApplyAll(s, [a, b, c]) == Apply(Apply(Apply(s, a), b), c)
  {
    assert [a, b, c][1..] == [b, c];
    ApplyTwo(Apply(s, a), b, c);
  }

  /** The first `n` steps, or all of them when there are fewer. */
  function Prefix(effects: seq<Effect>, n: nat): seq<Effect>
  {
    if n < |effects| then effects[..n] else effects
  }

  /** The record of a nonce, as every reader finds it: the first match. */
  function RecordOf(spent: seq<SpentRecord>, nonce: Nonce): (found: Option<SpentRecord>)
    ensures found.Some? ==> found.value in spent && found.value.nonce == nonce
    ensures found.None? ==> forall r :: r in spent ==> r.nonce != nonce
  {
    if spent == [] then None
    else if spent[0].nonce == nonce then Some(spent[0])
    else RecordOf(spent[1..], nonce)
  }

  /** It is the first record of that nonce, and there is one exactly when some
      record has the nonce. */
  lemma {:induction false} RecordIsFirst(spent: seq<SpentRecord>, nonce: Nonce)
    ensures RecordOf(spent, nonce).Some? <==> exists r :: r in spent && r.nonce == nonce
    ensures RecordOf(spent, nonce).Some? ==>
            exists i :: 0 <= i < |spent| && spent[i] == RecordOf(spent, nonce).value && forall j :: 0 <= j < i ==> spent[j].nonce != nonce
  {
    if spent != [] && spent[0].nonce != nonce {
      RecordIsFirst(spent[1..], nonce);
      if RecordOf(spent, nonce).Some? {
        var i :| 0 <= i < |spent| - 1 && spent[1..][i] == RecordOf(spent, nonce).value && forall j :: 0 <= j < i ==> spent[1..][j].nonce != nonce;
        assert spent[i + 1] == RecordOf(spent, nonce).value;
        forall j | 0 <= j < i + 1 ensures spent[j].nonce != nonce {
          if 0 < j { assert spent[1..][j - 1] == spent[j]; }
        }
      }
    }
  }
}
