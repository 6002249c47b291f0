# RunSpecimen: verified models of its protocols

RunSpecimen runs a bound payload after a human has authorized it, keeps durable
records of what was authorized and launched, and issues receipts over a hash-chained
event log. This project models the parts of it that are protocols or algorithms and
proves what each promises. `dafny verify dfyconfig.toml` checks everything.

## What is modelled

**The execution holder** (`Holder*.dfy`, `ProcessTree.dfy`, `SnapshotBinding.dfy`).
The holder is a set of JSON records: callers, enrollment, policy, metadata with two
generations, devices, spent nonces, spent device nonces, the phone's receipt and one
lease, plus the pending exact run and the session-key challenges kept in memory. An
operation writes several of them one after another, so each operation is a list of
single steps (`HolderPlans`), and a run (`HolderPlans.Run`) is any sequence of requests
in which each one finishes or is cut after any number of its steps, with or without the
death of the process. The requests are those the dispatcher accepts; "any run" and "no
continuation" below always mean runs of these. A ghost history records what the world
saw: messages issued, payloads released through the gate, leases freed and on what
evidence. `HolderInvariant` shows that every single step of every operation keeps one
invariant, and `HolderTheorems`, `HolderDevices` and `HolderExactRun` read the promises
off it. `HolderMachine` is the holder as an object whose methods write its fields one at
a time under a crash budget; each method is proved to take exactly the steps of its list
up to where it was cut, so `Dispatch` performs exactly one step of a run.
`HolderLaws` and `HolderSlotLaws` say of each operation, without its list, exactly when
it does anything and which records it leaves wherever it is cut; `HolderDocuments` reads
authorizations field by field; `HolderHonestRuns` shows that honestly signed runs go
through.
`HolderWitnesses` and `HolderSessionWitnesses` hold concrete runs.

**The event log and what is checked against it** (`EventLog`, `LogConcurrency`,
`Approval`, `Certificate`). The hash is an arbitrary function. Where a proof would need
it to be injective, the theorem instead returns the two different inputs that collide.

**Four algorithms**: the `.pth` worklist (`SitePaths`), the sliding-window limiter
(`RateLimiter`), the exact-match index (`FastPath`) and the bundle sanitizer with its
workspace (`ConfigSync`).

## Where the code does not do what is said of it

* `_reap_unreleased_child` says the go byte was not written. That is true exactly when
  the gate did not fail on close: `release_payload` writes the byte and then closes the
  descriptor, and an error from the close takes the same path. The model keeps that third
  outcome (`CloseFailed`). `HolderTheorems.ReapedAfterOpenExactly` is the condition, both
  ways: one step frees the lease of a launched payload on the evidence of a reaped child
  if and only if its gate failed on close, the child was reaped, and it was not cut first.
  `HolderWitnesses.CloseFailureFreesUnaccounted` is a run that ends there with the next
  consume accepted.
* `key_generation` is taken from the enrolled caller's record, so a second enrollment
  brings it back. `HolderExactRun.RotateLowersExactly` gives the exact condition under
  which a rotation lowers it, `HolderWitnesses.RotationCanKeepKeyGeneration` a run in
  which a rotation leaves it as it was, and `HolderExactRun.KeyGenerationNeverDecreases`
  holds between enrollments.
* `submit-device-signature` asks for no human authorization and nothing of the record it
  replaces. Without installed protection it re-keys a live session slot and brings a
  revoked one back (`HolderDevices.NewlyKeyedExactly`); in
  `HolderSessionWitnesses.SubmissionRevivesRevokedKey` a revoked key returns and what it
  signs is accepted. What runs keep of a device is therefore stated up to submissions for
  its slot.
* A replace-key replaces the recorded fingerprint and not the public key: until it is
  revoked or a key is submitted for its slot, a device's signatures are checked with the
  key it was paired with (`HolderDevices.LiveDeviceKept`).
* The policy record and the generation disagree after a set-policy cut between its two
  writes, and nothing the holder dispatches repairs it
  (`HolderTheorems.MismatchExactlyFromCutSetPolicy`, `HolderTheorems.MismatchIsFinal`).
* A set-policy is also accepted with exact-run session signatures, and a session never
  looks at the role of the device in the slot it signs from. Every factor of the old
  policy contributes its slot's signature, but a device of a dropped factor's role signed
  if and only if the change was made with device signatures or some slot of the
  authorizing policy held such a device (`HolderTheorems.PolicyChangeSignedExactly`). In
  `HolderSessionWitnesses.MispairedSlotDropsFactor` the phone factor is dropped while no
  device is paired as a phone. With slots paired in their own roles the factor signed
  (`HolderDevices.DroppedFactorSigned`).
* The comment in `_bind` describes a sentinel for runs whose arguments name no workspace
  file. The binder then refuses every declared input that is not an argument token, so
  such a run goes through exactly when all workspace files named are one file
  (`SnapshotBinding.InputsAreTokens`, `SnapshotBinding.UnnamedSecondFileIsRefused`).
* The limiter reads its clock before it takes its lock. Readings out of order overfill a
  window (`RateLimiter.OutOfOrderOverfills`); for readings in order the bound holds.
* Normalization in the fast path is one pass. A second pass changes nothing exactly when
  the first result does not end in a full stop or an exclamation mark
  (`FastPath.NormalizeTwiceExactly`, `FastPath.NormalizeTwiceDiffers`); reparsing is
  stable because the author's own strings are kept.
* A rollback restores the previous bundle exactly when that file already was sanitized,
  with sorted names and its digest as bound (`ConfigSync.RollbackRestoresExactly`,
  `ConfigSync.RollbackChangesUnsanitized`). Every bundle the workspace itself wrote is.
* The comment in `apply_bundle` says secret-like keys are never persisted. Sanitizing
  looks into settings and env only: a bundle is left without a secret-looking name exactly
  when there was none in its other top-level fields (`ConfigSync.SecretsLeftExactly`,
  `ConfigSync.TopLevelSecretSurvives`).

## Model

| member | source | states |
|---|---|---|
| ProcessTree.DescendantsOf | src/runspecimen/execution_holder.py:3661-3683 | On every process table, cyclic parent links included, the stack walk ends and returns exactly the reflexive-transitive closure of the child relation from the root |
| ProcessTree.ChildLists | src/runspecimen/execution_holder.py:3671-3673 | Grouping by parent loses and invents no child |
| ProcessTree.DescendantsLeast | src/runspecimen/execution_holder.py:3661-3683 | The closure is the least set holding the root and closed under children |
| HolderRecords.RecordIsFirst | src/runspecimen/execution_holder.py:2642-2644 | The record found for a nonce is the first of that nonce, and one is found exactly when some record has it |
| HolderAuthorization.VerifyDeviceSignatures | src/runspecimen/execution_holder.py:3241-3268 | Accepts exactly when some signature was offered, every offered signature is by an unrevoked paired key over this challenge, and the signers cover every role the policy requires |
| HolderAuthorization.CheckDevices | src/runspecimen/execution_holder.py:3173-3276 | Accepts exactly when the signing records agree on an algorithm, the signatures hold over the challenge it calls for, P-256 challenges naming the records, and the document carries that algorithm's label and no hardware |
| HolderAuthorization.CheckHuman | src/runspecimen/execution_holder.py:3016-3091 | Decides the authorization of every method: software double, bootstrap MAC, device signatures, exact-run session |
| HolderAuthorization.AuthorizedByEveryFactor | src/runspecimen/execution_holder.py:3056-3091 | Method by method, what every factor of the policy contributed: a device of its role signed this challenge, or its slot's session key signed the exact-run message of this subject and policy at the current generations |
| HolderAuthorization.FactorSignedExactly | src/runspecimen/execution_holder.py:1352-1368 | A device paired in a required role signed an accepted authorization if and only if it was made with device signatures or some slot the policy's sessions sign from holds a device of that role |
| HolderDocuments.DevicesAuthorizeExactly | src/runspecimen/execution_holder.py:3173-3281 | Device signatures clause by clause, both ways: live signing records with keys of the algorithm the document is labelled with, every needed role among them, and each key verifying the message of this purpose, subject, policy, expiry, holder, generation and authorized terms, which over P-256 names the records |
| HolderDocuments.SessionHoldsExactly | src/runspecimen/execution_holder.py:1306-1369 | Session signatures clause by clause, both ways: exactly the policy's slots signed the exact-run message of this subject and policy at the current generations, a local key that is not the phone's, no installed holder |
| HolderDocuments.HumanHoldsExactly | src/runspecimen/execution_holder.py:3016-3091 | A document is accepted if and only if it is unexpired, without a typed phrase, names this purpose, subject, policy and the policy's devices, and passes by one of four methods, each spelled out |
| HolderDocuments.DeviceDocumentAccepted | src/runspecimen/execution_holder.py:3241-3281 | Signing and then verifying: what live devices of one algorithm and every needed role sign for an operation is accepted for it |
| HolderDocuments.SessionDocumentAccepted | src/runspecimen/execution_holder.py:1306-1369 | The same of the ready session slots of a holder that is not installed |
| HolderInvariant.StepKeepsInv | src/runspecimen/execution_holder.py:2149-2231 | Any single record write or gate byte that is in order keeps the whole invariant over records and history |
| HolderInvariant.ConsumeIsSafe | src/runspecimen/execution_holder.py:2125-2246 | Each write of a consume is in order where it happens |
| HolderInvariant.SpawnIsSafe | src/runspecimen/execution_holder.py:2732-2998 | So is each step from the first lease write of an execute to its last, whatever the spawn, the gate and the watch did |
| HolderInvariant.AuthorizeIsSafe | src/runspecimen/execution_holder.py:1152-1223 | So is each step of an exact-run authorization |
| HolderInvariant.PlanIsSafe | src/runspecimen/execution_holder.py:3852-3970 | So is each step of every dispatched operation |
| HolderInvariant.RunKeepsInv | src/runspecimen/execution_holder.py:3852-3970 | The invariant holds after every run, wherever each operation was cut |
| HolderTheorems.LaunchedAtMostOnce | src/runspecimen/execution_holder.py:2631-2638 | Over every run with cuts anywhere, two launches in the history are of different nonces |
| HolderTheorems.UncertainNeverLaunched | src/runspecimen/execution_holder.py:2732-2784 | A lease whose child is uncertain is held, records no pid, and its payload was never released |
| HolderTheorems.PastLaunchNeverLaunches | src/runspecimen/execution_holder.py:2149-2231 | A spent nonce without its own uncertain lease is launched by no continuation whatever |
| HolderTheorems.CutConsumeIsPastLaunch | src/runspecimen/execution_holder.py:2226-2231 | A consume cut between spent and lease leaves exactly such a nonce and the lease as it was |
| HolderTheorems.LeaseFreedOnlyByEvidence | src/runspecimen/execution_holder.py:2927-2998 | A held lease becomes free in one step only by cancelling an uncertain lease of a run that is not exact, by reaping the paused child, or by an execute whose watch accounts for the whole tree |
| HolderTheorems.CancelAfterNoteAbsent | src/runspecimen/execution_holder.py:2253-2288 | In every reachable state, given an accepted note-absent document, a cancel is accepted exactly when note-absent answers "cancel before spawn", the cancel's own document holds, and the run is not an exact run; such a lease is held and never launched |
| HolderTheorems.NoteAbsentPointsToCancel | src/runspecimen/execution_holder.py:2275-2288 | In any state, the answers "no such child" and "verified termination" mean that no document whatever can cancel the token; "cancel before spawn" that every accepted cancel document can, unless the run is an exact run; and note-absent leaves every record as it was |
| HolderLaws.NoteAnswersExactly | src/runspecimen/execution_holder.py:2275-2288 | Each answer of note-absent by the guard that gives it |
| HolderLaws.CancelLaw | src/runspecimen/execution_holder.py:2253-2268 | One cancel, cut or not: the records after it are as before, or the lease free and cancelled, and exactly when |
| HolderLaws.EnrollLaw | src/runspecimen/execution_holder.py:236-269 | One enrollment, cut anywhere: the exact records after it, and exactly when it does anything |
| HolderLaws.RotateLaw | src/runspecimen/execution_holder.py:2000-2028 | The same of a rotation, authorized under the document's own policy |
| HolderLaws.PairLaw | src/runspecimen/execution_holder.py:1723-1735 | The same of a pairing, authorized under the policy in force or, before there is one, the document's |
| HolderLaws.RevokeLaw | src/runspecimen/execution_holder.py:2034-2054 | The same of a revocation, authorized under the policy in force |
| HolderLaws.ReplaceKeyLaw | src/runspecimen/execution_holder.py:1968-1994 | The same of a replace-key, of a live device and authorized under the policy in force |
| HolderLaws.SetPolicyAcceptedExactly | src/runspecimen/execution_holder.py:2351-2371 | A change of policy is accepted exactly when its document is accepted under the new policy, if that keeps every factor or is the first, and under the old one otherwise |
| HolderLaws.SetPolicyLeaves | src/runspecimen/execution_holder.py:2078-2094 | The records after a change cut anywhere: the named policy with the next generation, then the generation, then no waiting receipt |
| HolderLaws.ChangeAuthorizedByItsFactors | src/runspecimen/execution_holder.py:2351-2371 | Every factor of the new policy contributed to a change that keeps the old factors or is the first; every factor of the old policy to any other |
| HolderLaws.ConsumeAcceptedExactly | src/runspecimen/execution_holder.py:2137-2206 | Which consumes are accepted: a free lease, an unspent nonce, the policy in force with its roles live, the current key generation, a payload that is not the holder, and a document accepted for this payload, vector and terms |
| HolderLaws.ConsumeLeaves | src/runspecimen/execution_holder.py:2207-2231 | The records after a consume cut anywhere: a spent record of exactly what was authorized, then the uncertain lease |
| HolderLaws.SpentAsAuthorized | src/runspecimen/execution_holder.py:2162-2206 | Whenever a consume grows the spent list, every factor of the policy in force contributed to this nonce with the payload, vector and terms of the new record |
| HolderLaws.ExecuteAdmittedExactly | src/runspecimen/execution_holder.py:2629-2664 | Which executes are admitted: the held, uncertain, unstarted lease of the token and a document accepted for the recorded payload, vector and terms |
| HolderLaws.ExecuteExactAdmittedExactly | src/runspecimen/execution_holder.py:1225-1271 | The same of an exact-run execute, with the session document its record makes |
| HolderLaws.UnadmittedExecuteDoesNothing | src/runspecimen/execution_holder.py:2629-2664 | An execute that is not admitted leaves every record as it was |
| HolderLaws.NoChildLaw | src/runspecimen/execution_holder.py:2764-2784 | An execute without a child leaves the lease uncertain, without a pid and not started |
| HolderLaws.GateRefusedLaw | src/runspecimen/execution_holder.py:3386-3425 | With the gate refused nothing is launched, and the lease is free as spawn-failed if and only if the child was reaped, kept as uncertain under its pid otherwise |
| HolderLaws.CloseFailedLaw | src/runspecimen/execution_holder.py:3386-3425 | With the gate failing on close the payload is launched, and the lease is left the same way |
| HolderLaws.ExitUnseenLaw | src/runspecimen/execution_holder.py:2927-2929 | A launched payload whose exit was not seen leaves the lease running under its pid |
| HolderLaws.AccountedLaw | src/runspecimen/execution_holder.py:2984-2998 | One that is accounted for leaves the lease free, as timed out if and only if it ran out of time and as exited otherwise |
| HolderLaws.UnaccountedLaw | src/runspecimen/execution_holder.py:2933-2960 | One that is not leaves the lease kept as uncertain under its pid |
| HolderLaws.AccountedExactly | src/runspecimen/execution_holder.py:2927-2983 | When a watch accounts for a payload, spelled out over its tables, notes and last looks |
| HolderLaws.CutExecuteLaw | src/runspecimen/execution_holder.py:2732-2804 | An execute that is cut leaves the lease untouched, started without a pid, or started with one |
| HolderLaws.LaunchedAsAuthorized | src/runspecimen/execution_holder.py:2648-2664 | Whenever an execute launches, every factor of the document's policy contributed to this nonce with the recorded payload, vector and terms |
| HolderHonestRuns.DeviceRunCompletes | src/runspecimen/execution_holder.py:2125-2246 | From any state ready for it, what live devices sign is consumed and launched, and leaves exactly one record, one launch and a free lease |
| HolderHonestRuns.DeviceSignedRun | src/runspecimen/execution_holder.py:3241-3281 | A run from the first records on in which bootstrap pairs a device and all it signs afterwards is accepted, to the exit of its payload |
| HolderTheorems.LaunchesNeverOverlap | src/runspecimen/execution_holder.py:2382-2400 | Whenever a nonce is spent or a payload launched, every payload launched before it has had its lease freed with evidence |
| HolderTheorems.ReapedAfterOpenExactly | src/runspecimen/execution_holder.py:3386-3425 | One step puts a launched payload's lease on the evidence of a reaped child if and only if it is an admitted execute of that nonce whose gate failed on close and whose child was reaped, and it was not cut |
| HolderTheorems.ReapsOpenedFrees | src/runspecimen/execution_holder.py:3386-3425 | Every such step leaves the lease free with the payload launched |
| HolderTheorems.ReapedAfterOpenNeedsCloseFailure | src/runspecimen/execution_holder.py:3386-3425 | Over runs in which no gate fails on close, the evidence behind an earlier launch is always the accounted tree |
| HolderWitnesses.CloseFailureFreesUnaccounted | src/runspecimen/execution_holder.py:3386-3425 | A concrete reachable run in which the go byte was written, the close failed, the lease is free, the tree was never accounted for, and a consume is accepted |
| HolderTheorems.SpentDistinctAndLeased | src/runspecimen/execution_holder.py:2141-2151 | In every reachable state spent nonces are pairwise distinct and the lease token is one of them |
| HolderTheorems.SpentOnlyGrows | src/runspecimen/execution_holder.py:2226-2227 | Over every run the spent list and the history only grow by appending |
| HolderTheorems.RefusedChangesNoRecord | src/runspecimen/execution_holder.py:2137-2206 | An operation that is refused changes no record, but for an execute that had begun its spawn and the nonce of a verified submission that is refused after all |
| HolderTheorems.CrashFreeLeaseIsLast | src/runspecimen/execution_holder.py:2226-2231 | Without cuts the lease token is the nonce spent last |
| HolderTheorems.GenerationsNeverDecrease | src/runspecimen/execution_holder.py:2078-2094 | Over every run neither generation decreases, and the policy's is at most one ahead |
| HolderTheorems.MismatchExactlyFromCutSetPolicy | src/runspecimen/execution_holder.py:2078-2094 | One step makes the two generations disagree if and only if it is an accepted set-policy cut after its first write |
| HolderTheorems.CrashFreeGenerationsAgree | src/runspecimen/execution_holder.py:2078-2094 | Without cuts they agree in every reachable state |
| HolderTheorems.MismatchIsFinal | src/runspecimen/execution_holder.py:2314-2326 | Once they disagree, every later operation refuses and no record ever changes |
| HolderTheorems.PolicyChangeAuthorizedByOldFactors | src/runspecimen/execution_holder.py:2351-2371 | A step that changes the policy record is an accepted set-policy to which every factor of the policy before it contributed: a device of its role signed this challenge, or its slot's session key this message |
| HolderTheorems.PolicyChangeSignedExactly | src/runspecimen/execution_holder.py:2060-2095 | A device paired in the old factor's role signed it if and only if it was made with device signatures or a slot of the authorizing policy's sessions holds a device of that role |
| HolderTheorems.DroppedFactorAuthorized | src/runspecimen/execution_holder.py:2060-2095 | Over any run, a factor no longer required contributed to the set-policy that dropped it, which the lemma names |
| HolderDevices.DroppedFactorSigned | src/runspecimen/execution_holder.py:2060-2095 | Over any run that pairs no session slot in the other role and accepts no software double, a device paired in the dropped role signed that set-policy |
| HolderSessionWitnesses.MispairedSlotDropsFactor | src/runspecimen/execution_holder.py:1354-1368 | A concrete run to a dual policy without a phone device, where a session drops the phone factor and no device of that role signs |
| HolderDevices.DevicesAfter | src/runspecimen/execution_holder.py:767-878 | After one step of any operation, cut anywhere, the device records are as they were but for the one record an accepted pairing, replacement, revocation or submission wrote |
| HolderDevices.NewlyKeyedExactly | src/runspecimen/execution_holder.py:841-878 | One step re-keys or un-revokes a device if and only if it is an accepted pairing of it or submission for its slot, not cut before the write, that brings a role or key it did not have live |
| HolderDevices.RevokedExactly | src/runspecimen/execution_holder.py:2034-2054 | One step ends a live device if and only if it is an accepted revocation of it |
| HolderDevices.LiveDeviceKept | src/runspecimen/execution_holder.py:1968-1994 | Over any run without a revocation of it or, unless the holder is installed, a submission for its slot, a paired device keeps its role and public key, second pairings and replace-key included |
| HolderDevices.KeyOutlivesReplacement | src/runspecimen/execution_holder.py:1968-1994 | Over such a run a signature of the device is accepted afterwards if and only if it was before |
| HolderDevices.RevokedAuthorizesNothing | src/runspecimen/execution_holder.py:2034-2054 | Over any run without a pairing of it or, unless the holder is installed, a submission for its slot, no state accepts a document signed by a revoked device, device challenge or session key alike |
| HolderSessionWitnesses.SubmissionRevivesRevokedKey | src/runspecimen/execution_holder.py:767-878 | A concrete run: after its revocation the same key is submitted again, without a human authorization or a pairing, and what it signs is accepted |
| HolderDevices.SubmissionAnswersChallenge | src/runspecimen/execution_holder.py:803-841 | An accepted submission answers the challenge remembered for that role and peer, in time and generation, with the key's own signature of the holder's message; it uses up the challenge and spends an unspent nonce |
| HolderDevices.SubmittedAtMostOnce | src/runspecimen/execution_holder.py:804-841 | No continuation, restarts included, accepts a second submission of the same nonce |
| HolderDevices.SealIsSignedByMac | src/runspecimen/execution_holder.py:984-1006 | A receipt becomes sealed only by a signature of the live Mac slot's key over this holder, generation, challenge and the fingerprint of the live phone slot's key |
| HolderDevices.SealedAtMostOnce | src/runspecimen/execution_holder.py:1001-1006 | Once a challenge's receipt is sealed, no continuation seals that challenge again |
| HolderSlotLaws.IssueChallengeLaw | src/runspecimen/execution_holder.py:703-752 | One challenge: the one pending for its role is replaced, for two minutes |
| HolderSlotLaws.CancelChallengeLaw | src/runspecimen/execution_holder.py:753-765 | One cancel: the challenge of that role and peer is gone, and exactly when |
| HolderSlotLaws.SubmissionHoldsExactly | src/runspecimen/execution_holder.py:784-839 | A submission is verified if and only if it repeats the pending challenge in time and generation, with an unspent nonce and the key's own signature |
| HolderSlotLaws.SubmitLaw | src/runspecimen/execution_holder.py:840-902 | The records after a submission cut anywhere: challenge, nonce, then the slot's new record and the receipt, unless the other slot has the key or the holder is installed |
| HolderSlotLaws.PrepareAcceptedExactly | src/runspecimen/execution_holder.py:915-956 | When a receipt can be prepared, clause by clause |
| HolderSlotLaws.SealLaw | src/runspecimen/execution_holder.py:984-1006 | A seal is accepted exactly when a prepare is, the receipt is not sealed and the Mac slot's key signed it |
| HolderDevices.CallerKeysNeverDecrease | src/runspecimen/execution_holder.py:2000-2028 | Over any run, enrollments and cuts included, no caller disappears and no caller's own key generation decreases |
| HolderExactRun.ExactRunLaunchIsBound | src/runspecimen/execution_holder.py:1306-1369 | An exact-run launch is of the recorded payload and vector, under the policy, generation and key generation of the signed message, before its expiry, with a valid signature of every required session key |
| HolderExactRun.AuthorizedRecord | src/runspecimen/execution_holder.py:1152-1223 | Authorizing the pending run spends its nonce with exactly its own terms and both generations as they are now |
| HolderExactRun.ExactRunEndToEnd | src/runspecimen/execution_holder.py:1026-1271 | From issue over authorize to launch: one message, one payload, one vector, one policy, and both generations the same in the state of authorization and the state of launch |
| HolderExactRun.AuthorizedAtMostOnce | src/runspecimen/execution_holder.py:1174-1206 | Once a nonce is spent no continuation authorizes it |
| HolderExactRun.PolicyChangeEndsPendingRun | src/runspecimen/execution_holder.py:1183-1188 | A pending run issued under an older generation is never authorized |
| HolderExactRun.PolicyChangeEndsConsumedRun | src/runspecimen/execution_holder.py:1306-1369 | A consumed exact run of an older generation is never launched by an exact-run execute |
| HolderExactRun.RotationEndsPendingRun | src/runspecimen/execution_holder.py:1183-1188 | After a finished rotation of a current caller, no continuation without an enrollment authorizes a run issued under the old key generation |
| HolderExactRun.RotationEndsConsumedRun | src/runspecimen/execution_holder.py:1306-1369 | Nor does an exact-run execute of such a continuation launch a run consumed under it |
| HolderSessionWitnesses.ExactRunLaunches | src/runspecimen/execution_holder.py:1026-1271 | A concrete run in which an issued exact run is authorized and launched |
| HolderSlotLaws.IssueLaw | src/runspecimen/execution_holder.py:1051-1097 | One issue: the pending run for two minutes with the message of its own terms, and exactly when |
| HolderSlotLaws.StaleAuthorizationLaw | src/runspecimen/execution_holder.py:1174-1188 | An authorization of another peer, nonce or policy does nothing; a stale one forgets the run |
| HolderSlotLaws.AuthorizationIsConsume | src/runspecimen/execution_holder.py:1189-1206 | A timely one is accepted exactly when the consume its pending run stands for is, and takes that consume's steps and then forgets the run |
| HolderHonestRuns.ExactRunCompletes | src/runspecimen/execution_holder.py:1026-1271 | From any state ready for it, within two minutes, a run that the session slots sign once is issued, authorized and launched, exactly the issued payload |
| HolderExactRun.KeyGenerationNeverDecreases | src/runspecimen/execution_holder.py:2000-2028 | Between enrollments the key generation never decreases, cuts included |
| HolderExactRun.RotateLowersExactly | src/runspecimen/execution_holder.py:2000-2028 | A finished rotation lowers it if and only if the caller's next generation is below the holder's |
| HolderWitnesses.RotationCanKeepKeyGeneration | src/runspecimen/execution_holder.py:236-269 | A concrete run: after a second enrollment an accepted rotation leaves the key generation where it was |
| HolderMachine.ExecutionHolder.Dispatch | src/runspecimen/execution_holder.py:3852-3970 | The object's dispatcher leaves exactly the state of the performed step, cut where its budget ran out |
| HolderMachine.ExecutionHolder.Write | src/runspecimen/execution_holder.py:3777-3781 | One write changes one record, or nothing when the budget is spent |
| HolderMachine.ExecutionHolder.EnrollCaller | src/runspecimen/execution_holder.py:236-269 | Takes the steps of an enrollment: caller record, then enrollment record |
| HolderMachine.ExecutionHolder.PairDevice | src/runspecimen/execution_holder.py:1723-1735 | Takes the step of a pairing, refused for a device that is paired and not revoked |
| HolderMachine.ExecutionHolder.ReplaceDeviceKey | src/runspecimen/execution_holder.py:1968-1994 | Takes the steps of a replace-key: a new fingerprint with the same public key, then the waiting receipt dropped |
| HolderMachine.ExecutionHolder.RevokeDevice | src/runspecimen/execution_holder.py:2034-2054 | Takes the steps of a revocation, authorized under the active policy: the record, then the waiting receipt dropped |
| HolderMachine.ExecutionHolder.RotateCaller | src/runspecimen/execution_holder.py:2000-2028 | Takes the steps of a rotation: caller record, metadata, waiting receipt |
| HolderMachine.ExecutionHolder.SetPolicyTo | src/runspecimen/execution_holder.py:2060-2101 | Takes the steps of a policy change: policy, metadata, waiting receipt |
| HolderMachine.ExecutionHolder.ConsumeLocked | src/runspecimen/execution_holder.py:2125-2246 | Takes the steps of a consume: spent, then lease |
| HolderMachine.ExecutionHolder.ConsumeGuards | src/runspecimen/execution_holder.py:2137-2206 | Decides exactly whether a consume is admitted, without a write |
| HolderMachine.ExecutionHolder.CancelUncertain | src/runspecimen/execution_holder.py:2253-2268 | Takes the step of a cancel, which is refused for exact runs and after any spawn |
| HolderMachine.ExecutionHolder.NoteChildAbsent | src/runspecimen/execution_holder.py:2275-2288 | Gives the exact reason for its refusal by its guards in order, and writes nothing |
| HolderMachine.ExecutionHolder.ExecuteGuards | src/runspecimen/execution_holder.py:2627-2731 | Decides exactly whether an execute is admitted, without a write |
| HolderMachine.ExecutionHolder.ObservePids | src/runspecimen/execution_holder.py:2800-2858 | The observed set is exactly the processes some table taken shows under the child, and a failed look is remembered |
| HolderMachine.ExecutionHolder.Supervise | src/runspecimen/execution_holder.py:2927-2998 | Frees the lease exactly when the watch accounts for the tree, keeps it as uncertain otherwise, and writes nothing when the exit was not observed |
| HolderMachine.ExecutionHolder.ReapUnreleasedChild | src/runspecimen/execution_holder.py:3386-3425 | Frees the lease as spawn-failed when the child was reaped and is absent, keeps it otherwise |
| HolderMachine.ExecutionHolder.ExecuteLocked | src/runspecimen/execution_holder.py:2612-3014 | Takes the steps of an execute: lease, gate, lease with pid, verdict |
| HolderMachine.ExecutionHolder.SpawnChild | src/runspecimen/execution_holder.py:2746-2804 | Takes the steps after the first lease write, for every outcome of spawn and gate |
| HolderMachine.ExecutionHolder.IssueChallenge | src/runspecimen/execution_holder.py:703-752 | Takes the step of a challenge: the one pending for that role is replaced |
| HolderMachine.ExecutionHolder.CancelChallenge | src/runspecimen/execution_holder.py:753-765 | Takes the step of a cancel, refused for another peer |
| HolderMachine.ExecutionHolder.CheckSubmission | src/runspecimen/execution_holder.py:784-839 | Decides exactly whether a submission answers the pending challenge |
| HolderMachine.ExecutionHolder.SubmitSignature | src/runspecimen/execution_holder.py:767-901 | Takes the steps of a submission: challenge and nonce used up, and then refused, or the slot's record and the receipt written |
| HolderMachine.ExecutionHolder.SealReceipt | src/runspecimen/execution_holder.py:984-1006 | Takes the step of a seal, refused unless the receipt belongs to the keys now live |
| HolderMachine.ExecutionHolder.IssueExact | src/runspecimen/execution_holder.py:1026-1117 | Remembers the pending run with its bound message |
| HolderMachine.ExecutionHolder.AuthorizeExact | src/runspecimen/execution_holder.py:1152-1223 | Takes the steps of an authorization: forget a stale run, or consume and then forget |
| HolderMachine.ExecutionHolder.ExecuteExact | src/runspecimen/execution_holder.py:1225-1271 | Takes the steps of an execute whose authorization is built from the spent record |
| SnapshotBinding.ChooseRequest | src/runspecimen/execution_holder.py:2471-2577 | Refuses exactly in four cases; otherwise the request's executable, inputs and dependencies are exactly the covered set, its arguments the distinct workspace paths in order, its fingerprints all named ones minus a live executable |
| SnapshotBinding.CollectArgvPaths | src/runspecimen/execution_holder.py:2508-2524 | The argument paths are the first occurrences of the named workspace files, the executable first when it is one |
| SnapshotBinding.ArgvPathsGrow | src/runspecimen/execution_holder.py:2508-2524 | The argument paths token by token: the executable when it is in the workspace, then each named workspace file where a token first names it |
| SnapshotBinding.RefusesExactly | src/runspecimen/execution_holder.py:2480-2535 | When the request is refused, entry by entry |
| SnapshotBinding.LastDigestWins | src/runspecimen/execution_holder.py:2482-2493 | The digest kept for a file is the one of its last entry |
| SnapshotBinding.CoveredExactly | src/runspecimen/execution_holder.py:2525-2557 | Which files a bind covers, entry by entry |
| SnapshotBinding.CoversWorkspace | src/runspecimen/execution_holder.py:2525-2557 | The covered set holds every named workspace file, never a live executable, and with a workspace argument is everything named but that executable |
| SnapshotBinding.BindExecution | src/runspecimen/holder_protocol.py:391-500 | Accepts exactly when every file has its fingerprint and bytes, every input is an argument token and no longer appears live, and the first token is the executable's copy; then one snapshot for each distinct file |
| SnapshotBinding.BindableExactly | src/runspecimen/holder_protocol.py:482-497 | For a chosen request this means: the bytes are as named, and an argument names a workspace file or all workspace files are one |
| SnapshotBinding.InputsAreTokens | src/runspecimen/holder_protocol.py:482-484 | Every input is an argument token if and only if an argument names a workspace file or all workspace files named are one |
| SnapshotBinding.Bind | src/runspecimen/execution_holder.py:2471-2610 | The whole step accepts exactly under the stated condition, and then takes one snapshot of each covered file and no other, each with the digest last named for it |
| SnapshotBinding.AcceptsOverEntries | src/runspecimen/execution_holder.py:2579-2594 | A bind of accepted names goes through if and only if the last entry of every covered file, and of a live executable, has the digest of the bytes found, and an argument names a workspace file or all are one |
| SnapshotBinding.BoundOverEntries | src/runspecimen/execution_holder.py:2595-2610 | Every covered file has a snapshot, of the digest of its last entry |
| SnapshotBinding.BoundArgv | src/runspecimen/holder_protocol.py:485-497 | The first snapshot is the executable's, and every new argument is the copy of the file its old token names |
| SnapshotBinding.OrdinaryBindIsAccepted | src/runspecimen/execution_holder.py:2471-2610 | A concrete bind by a digest that is not the path is accepted, and refused for another digest |
| SnapshotBinding.UnnamedSecondFileIsRefused | src/runspecimen/execution_holder.py:2525-2541 | Two workspace files that no argument names: the request is made and the binder refuses it |
| EventLog.VerifyChain | src/runspecimen/events.py:272-286 | Accepts exactly the logs whose numbers count from one, whose records name the hash before them, and whose hashes are of their own material |
| EventLog.NextRecordIs | src/runspecimen/events.py:232-270 | What an append writes after a verified log: the next number, the last hash, its own request, and their hash |
| EventLog.AppendKeepsChain | src/runspecimen/events.py:232-270 | An append leaves a log verified if and only if it was |
| EventLog.ChainedExtension | src/runspecimen/events.py:232-286 | The only record that continues a verified log is the one append would write |
| EventLog.SameHeadSameLog | src/runspecimen/events.py:56-64 | Two verified logs with one head are equal record for record, or the walk back returns two different materials with one hash |
| EventLog.Log.Append | src/runspecimen/events.py:232-270 | Extends the log by the record computed from its tail and nothing else |
| LogConcurrency.PlayKeepsInv | src/runspecimen/events.py:202-270 | Every interleaving step keeps mutual exclusion, fresh snapshots behind pending writes, and the chain; the log only grows |
| LogConcurrency.EveryInterleavingIsSafe | src/runspecimen/events.py:202-270 | Under every interleaving the log verifies, every completed append is in it exactly once, as it was asked for and in order, and every completed read saw a prefix that holds every append completed before it began |
| LogConcurrency.AppendCompletes | src/runspecimen/events.py:232-270 | When nobody holds the lock, a process let run grows the log by exactly the record asked for |
| LogConcurrency.ReadCompletes | src/runspecimen/events.py:181-190 | A reader let run beside any number of other readers sees the whole log |
| LogConcurrency.SnapshotsStayPrefixes | src/runspecimen/events.py:181-190 | A completed read is a prefix of the log at every later moment |
| LogConcurrency.OnceBySequence | src/runspecimen/events.py:272-286 | In a verified log each record occurs exactly once |
| Approval.ScanBack | src/runspecimen/approve.py:434-446 | The backward walk finds the last approval event |
| Approval.CheckApproval | src/runspecimen/approve.py:448-519 | Decides validity: same contract, source and run, a finite expiry, and with a run directory a document that matches the latest chained event with that event's expiry in the future, without one its own |
| Approval.RunKeepsInv | src/runspecimen/approve.py:392-418 | At every cut of every approval, among other events and planted files, the log verifies and its latest approval event speaks of the document approved last |
| Approval.ValidExactlyForLatest | src/runspecimen/approve.py:485-519 | After any run a document validates if and only if it hashes like the one approved last, on its channel, before its expiry, for this contract, source and run |
| Approval.OtherDocumentNeedsCollision | src/runspecimen/approve.py:448-470 | A validating document other than the one approved last is half of a collision, and the lemma returns the approved document that is the other half |
| Approval.CutApproval | src/runspecimen/approve.py:392-418 | What each cut leaves: after one write only the file, after two an approval in force, after three the phase as well |
| Approval.ApprovalLaw | src/runspecimen/approve.py:300-419 | One approval cut anywhere, spelled out: the channels, phases and refreshes it asks for and what each cut leaves |
| Approval.CompletedApprovalIsValid | src/runspecimen/approve.py:485-519 | A completed approval is in force at once, until its expiry |
| Approval.ValidWithoutDirectory | src/runspecimen/approve.py:485-519 | Without a run directory a document validates until its own expiry for its own contract, source and run, and not otherwise |
| Approval.NoApprovalOnceTerminal | src/runspecimen/approve.py:308-316 | From a terminal phase on, as long as nothing else moves the phase out of the terminal ones, no run appends an approval event |
| Approval.RunDirectory.CompleteApproval | src/runspecimen/approve.py:282-419 | Performs the three writes in order, cut where the budget runs out, or none when refused |
| Certificate.VerifyIssuanceOrdering | src/runspecimen/certificate.py:95-135 | Decides the ordering predicate: first assertions event, issuance right after it, the last issuance of the id the same event and the last of the log |
| Certificate.AcceptedExactlyAtTheEnd | src/runspecimen/certificate.py:95-135 | On a verified log without a collision, accepted if and only if the last two records are its assertions event and its issuance |
| Certificate.AnyAppendEndsAcceptance | src/runspecimen/certificate.py:130-135 | Any well-chained append after issuance, a second issuance included, makes it refuse |
| Certificate.VerifyReceipt | src/runspecimen/certificate.py:283-297 | Decides chain, ordering and bound approval together |
| Certificate.ReceiptAcceptedExactly | src/runspecimen/certificate.py:283-297 | Over the log of any run directory without a collision, which receipts are accepted, in terms of the last two events and the document approved last |
| Certificate.CertificateCommitsToHistory | src/runspecimen/certificate.py:165-220 | One certificate accepted with two logs: equal up to the assertions event, one latest approval, approval files that hash alike; or a collision is returned |
| Certificate.ReceiptBindsLatestApproval | src/runspecimen/certificate.py:165-220 | An accepted receipt over a reachable run directory carries the channel and expiry of the document approved last |
| SitePaths.FileEntries | scripts/verify_installed_wheel.py:2702-2744 | One file yields, without findings, every existing path it names once for each resolved path; findings exactly when a line is unsound |
| SitePaths.PthImportEntries | scripts/verify_installed_wheel.py:2680-2745 | One directory yields only its edges, and all of them up to resolution when there is no finding; findings exactly when it cannot be scanned |
| SitePaths.ClosureComplete | scripts/verify_installed_wheel.py:2753-2797 | When nothing is queued any more every path reached along edges was chosen up to resolution |
| SitePaths.ExpandSitePaths | scripts/verify_installed_wheel.py:2753-2797 | Ends on any file system within the ceiling; chosen paths are distinct up to resolution and reached; without findings they are exactly the reached ones; a finding is always justified |
| SitePaths.ChosenIsClosed | scripts/verify_installed_wheel.py:2680-2797 | Without findings, in terms of files and lines: the existing site directories were chosen, every .pth file of a chosen directory was read whole and well formed, and every existing path it names was chosen |
| SitePaths.ChosenIsLeast | scripts/verify_installed_wheel.py:2753-2797 | Any set that has the site directories and is closed under those lines has everything that was chosen |
| SitePaths.RefusalHasReason | scripts/verify_installed_wheel.py:2753-2797 | A refusal short of 4096 paths has a path in every such set that cannot be classified, resolved, listed or read, or a line that cannot be used |
| RateLimiter.AcceptsExactlyBelowLimit | src/runspecimen/companion.py:212-220 | For readings in order a call is accepted exactly when fewer than 20 accepted ones lie in the 60 seconds up to it, and it changes nothing of the calls accepted before |
| RateLimiter.EveryWindowHolds | src/runspecimen/companion.py:169-173 | Every window of sixty seconds of every run in order holds at most twenty accepted calls |
| RateLimiter.OutOfOrderOverfills | src/runspecimen/companion.py:213-214 | Readings out of order put twenty-one accepted calls into one window |
| RateLimiter.ExpireKeepsWindow | src/runspecimen/companion.py:215-216 | On a list in order the pop loop keeps exactly the window |
| RateLimiter.Limiter.RateLimitOk | src/runspecimen/companion.py:212-220 | The call pops and appends as the history says, and its answer is the window count |
| FastPath.StripEnds | src/runspecimen/fastpath.py:66-78 | What stripping leaves neither begins nor ends with whitespace |
| FastPath.NormalizeTwiceExactly | src/runspecimen/fastpath.py:66-78 | A second pass changes nothing if and only if the first result does not end in a full stop or an exclamation mark |
| FastPath.NormalizeTwiceDiffers | src/runspecimen/fastpath.py:66-78 | A concrete text on which a second pass changes the result |
| FastPath.NormalizeKeepsTidyText | src/runspecimen/fastpath.py:66-78 | Whitespace around a text and full stops and exclamation marks after it do not matter, and a tidy text is kept |
| FastPath.NormalizeFolds | src/runspecimen/fastpath.py:66-78 | Texts that fold to one text normalize alike |
| FastPath.NormalizeExample | src/runspecimen/fastpath.py:66-78 | Inner whitespace becomes one space, on a concrete text |
| FastPath.EnterVariants | src/runspecimen/fastpath.py:139-154 | One rule's variants enter the index, or one is empty or already taken |
| FastPath.CompileRules | src/runspecimen/fastpath.py:122-158 | Accepts exactly the rule lists in which every rule is in order and no two share an id or a normalized variant; the index then says of each text exactly which rule claims it |
| FastPath.AdmissibleExactly | src/runspecimen/fastpath.py:122-176 | Which rule lists are accepted, field by field: ids, variants, outcomes by kind and text, and no id or normalized variant twice |
| FastPath.ParseConfig | src/runspecimen/fastpath.py:81-105 | Refuses exactly for a digest that is present and wrong or for an inadmissible rule list |
| FastPath.Match | src/runspecimen/fastpath.py:179-193 | Refines the scan: a hit exactly when enabled and some rule answers, and then the one rule that does |
| FastPath.MatchAnswersAsWritten | src/runspecimen/fastpath.py:161-193 | In terms of the document: a hit exactly when enabled and some rule has a variant that normalizes like the text, and then with that rule's own variants, response text or no response |
| FastPath.AdmissibleInAnyOrder | src/runspecimen/fastpath.py:122-158 | Acceptance does not depend on rule order |
| FastPath.IndexInAnyOrder | src/runspecimen/fastpath.py:122-193 | Neither does the index, the set of compiled rules, or what any text matches |
| FastPath.OutcomeRoundTrip | src/runspecimen/fastpath.py:161-176 | An outcome written back parses to itself |
| FastPath.ReparseIsSame | src/runspecimen/fastpath.py:466-481 | Reading back a written configuration gives the same rules and the same index |
| FastPath.SerializedIsAccepted | src/runspecimen/fastpath.py:466-481 | A written configuration is always accepted |
| ConfigSync.Sanitizer.SanitizeSettings | src/runspecimen/configsync.py:191-218 | The recursion refuses exactly the trees with an unsupported value outside what is dropped, and otherwise returns the cleaned tree and appends the excluded paths in order |
| ConfigSync.CleanHasNoSecret | src/runspecimen/configsync.py:191-218 | No secret-looking name is left at any depth |
| ConfigSync.ContainsExactly | src/runspecimen/configsync.py:48-50 | Containment is at any position |
| ConfigSync.LooksSecretExactly | src/runspecimen/configsync.py:48-50 | A name looks secret if and only if, lowered, it has a listed word somewhere in it |
| ConfigSync.ActiveHasNoSecret | src/runspecimen/configsync.py:331-370 | After any run of the shipped workspace no name at any depth of the active settings, and no environment name, has one of the seven words, spelled out, anywhere in it |
| ConfigSync.OtherNamesAreKept | src/runspecimen/configsync.py:191-213 | A name without any of those words is kept |
| ConfigSync.ExcludedExactly | src/runspecimen/configsync.py:191-213 | Nothing is reported if and only if nothing was removed |
| ConfigSync.RemovedIsReported | src/runspecimen/configsync.py:203-213 | Every removed name is reported under its path, written with dots and bracketed positions |
| ConfigSync.CleanableExactly | src/runspecimen/configsync.py:191-218 | Which values can be sanitized, by shape |
| ConfigSync.CleanIsIdempotent | src/runspecimen/configsync.py:191-218 | Sanitizing twice is sanitizing once, and excludes nothing the second time |
| ConfigSync.GetAfterClean | src/runspecimen/configsync.py:199-213 | Along an access path without a secret name the cleaned tree holds the cleaned value of what was there; along one with a secret name it holds nothing |
| ConfigSync.SanitizeEnv | src/runspecimen/configsync.py:221-234 | Refuses exactly unsupported values under kept names; otherwise the kept entries as text and the names that looked secret |
| ConfigSync.EntryAfterClean | src/runspecimen/configsync.py:221-234 | An entry is kept, as text, if and only if its name begins with the prefix and does not look secret |
| ConfigSync.SanitizeBundle | src/runspecimen/configsync.py:248-274 | The sanitized bundle with its digest bound again, or a refusal, exactly |
| ConfigSync.SanitizedParts | src/runspecimen/configsync.py:248-274 | What sanitizing makes of each part of a bundle, the recorded names included |
| ConfigSync.SanitizedIsSettled | src/runspecimen/configsync.py:248-274 | A sanitized bundle sanitizes to itself and carries its own digest |
| ConfigSync.SettledExactly | src/runspecimen/configsync.py:248-274 | Those are exactly the bundles a reader sees to be sanitized: supported, no secret name in settings, only kept text entries in env, sorted excluded names, digest as bound |
| ConfigSync.SecretsLeftExactly | src/runspecimen/configsync.py:260-270 | Sanitizing leaves no secret-looking name anywhere in a bundle if and only if none was in its other top-level fields |
| ConfigSync.TopLevelSecretSurvives | src/runspecimen/configsync.py:331-348 | A concrete bundle applied and kept with a secret name at its top level |
| ConfigSync.ActsKeepInv | src/runspecimen/configsync.py:331-370 | Over any run of applies and rollbacks, the active bundle and every backup are settled |
| ConfigSync.ApplyAcceptedExactly | src/runspecimen/configsync.py:304-348 | Which bundles are applied and exported: kind, version, own digest, sanitizable settings, text or number entries |
| ConfigSync.ExportAfterApply | src/runspecimen/configsync.py:373-396 | Export after an apply is exactly the sanitized input |
| ConfigSync.RollbackRestores | src/runspecimen/configsync.py:362-370 | After any run, rolling back to the backup just taken is accepted and restores the prior active bundle with a valid digest |
| ConfigSync.RollbackRestoresExactly | src/runspecimen/configsync.py:331-370 | For any prior active file: the rollback is accepted exactly when its digest holds and it can be sanitized, and then restores it exactly when a reader sees it to be sanitized already |
| ConfigSync.RollbackChangesUnsanitized | src/runspecimen/configsync.py:362-370 | A concrete prior file with a valid digest that an accepted rollback does not bring back |
| ConfigSync.Workspace.ApplyBundle | src/runspecimen/configsync.py:331-359 | Replaces the active bundle by the sanitized one and backs up the old, or changes nothing |
| ConfigSync.Workspace.RollbackBundle | src/runspecimen/configsync.py:362-370 | Applies the named backup, or changes nothing |
| ConfigSync.Workspace.ExportBundle | src/runspecimen/configsync.py:373-396 | Returns the sanitized active bundle, or refuses a bad digest |

## Left out

Of the holder:

- Signature, MAC and hash functions are arbitrary; canonical messages are values, so two encodings agree exactly when their fields do. That JSON encoding is injective is not part of this model.
- Guards that only add refusals (installed-boundary and provenance checks, snapshot modes and ACLs, parsing of bounds, environment and paths) are folded into the one flag `admitted` of a request. A record's provenance is not a field.
- Native enrollment and the native signing flows, which also write device records, are not offered by the dispatcher and not modelled; nor is its read of the current generations. The boundary proof file written beside a submitted key only feeds installed-protection guards and is left out.
- A run begins after the first records were written, so a crash during their first creation is outside.
- Record writes are atomic. Malformed or unreadable record files, symbolic links and lost history are refusals not modelled.
- Process control, streams and output capture are observations: the tables taken, whether the exit, a fork or a reparented child was seen, and which processes were present. An exception the code does not catch is a step cut there.
- What the sealed launch vector is read back as is a parameter of an execute. Rewriting the launch vector onto the snapshot is not part of this model.
- HolderAuthorization.VerifyDeviceSignatures: the native verifier's provenance and identity guards are part of the arbitrary signature predicate.
- HolderAuthorization.CheckDevices: the provenance a P-256 record must carry, its policy in the challenge, and the installed-boundary check before it are folded into `admitted`.
- HolderAuthorization.CheckHuman: the length of the bootstrap secret is part of the arbitrary MAC predicate; the attestation class inside a consume's authorized terms is one of the terms.
- HolderMachine.ExecutionHolder.PairDevice: the branches that choose a key's algorithm, fingerprint and provenance give the recorded values as arguments, and their refusals are folded into `admitted`.
- HolderMachine.ExecutionHolder.ConsumeGuards: parsing of the binding is folded into `admitted`, and the snapshot step is its optional payload digest; what that step does is in SnapshotBinding.
- HolderMachine.ExecutionHolder.ConsumeLocked: the same. A refused consume may leave a snapshot directory behind.
- HolderMachine.ExecutionHolder.ExecuteGuards: bounds, path and identity guards and the rewritten launch are folded into `admitted`.
- HolderMachine.ExecutionHolder.ExecuteLocked: the same.
- HolderMachine.ExecutionHolder.ExecuteExact: reads the spent record and executes as one step, while the code reads it before it takes the lock; the record of a nonce never changes, so only the order of refusals differs.
- HolderMachine.ExecutionHolder.Write: the crash budget is a field of the object, which stands for where the process dies.

Of the snapshot step:

- SnapshotBinding.BindExecution: scripts, shebang lines, output names and file modes are not modelled; the request built by the holder has none of the first three.
- SnapshotBinding.Bind: its acceptance is stated for a snapshot directory that was just made, so that no named file is one of its copies. Files do not change between the reads of one bind.

Of the log, approvals and receipts:

- Torn lines, file creation and the parsing of a record are not modelled, nor are I/O errors on the lock.
- LogConcurrency.EveryInterleavingIsSafe: a process that dies while it appends leaves either a whole line or none.
- Certificate.VerifyReceipt: the certificate id, schema, phase, identity and live outputs checked beside it are single comparisons and left out.
- Approval.CheckApproval: JSON type checks on the document and the runtime and isolation comparisons made elsewhere are left out.

Of the algorithms:

- SitePaths.ExpandSitePaths: lines arrive classified and joined. The byte and shape checks on a `.pth` file and the package inventory are not part of this model. Exactness assumes that two names of one resolved path lead to the same paths.
- SitePaths.FileEntries: which lines have a bad shape, are skipped or cannot be joined is an input.
- RateLimiter.AcceptsExactlyBelowLimit: one list serves all peers, as in the code. The phone and exact-run mailboxes are left out.
- FastPath.Normalize: casefolding and the whitespace class are parameters. The index theorems hold for any; FastPath.NormalizeTwiceExactly assumes that case folding leaves text of folded characters and spaces alone, as character-wise folding does; schema fields and JSON types are left out.
- ConfigSync.ActsKeepInv: backups are named by the second, and two in one second share a name; the model keeps that. A crash between backup and replacement is not modelled. Digests are assumed to be lower-case, and the recorded names to be a list of strings.
- ConfigSync.Sanitizer.SanitizeSettings: object keys are strings and unique by construction of the JSON reader; a secret under an ordinary name is not detected, in the code or here.
