# Verification model of specd

specd is a command-line harness that keeps append-only ledgers, replays them into projections, and
commits transitions with a compare-and-swap on each spec's state file. This project models the parts of
it where that is hard to get right and proves, for all inputs, all runs or all reachable states, what the
code relies on. `dafny verify dfyconfig.toml` checks everything.

| file | what it models | what it shows |
|---|---|---|
| `Grants.dfy` | delegation grants: ledger, replay, checks of a use | no sequence of operations overdraws a grant; every use is accounted for; revocation is final |
| `GrantChecks.dfy` | when the ledger accepts an operation | a use is reserved exactly for the token and the fields the grant was issued with; which refusal comes first |
| `RequestIds.dfy` | slugs and replay keys | keys read back and never collide; exactly which keys that read back were minted |
| `DelegatedApproval.dfy` | delegated approval as atomic steps with crashes | what the files show of open uses is what happened |
| `DelegatedGuard.dfy` | each step against the invariant | the exact condition under which a step is safe |
| `DelegatedRuns.dfy` | whole runs | approvals under a grant never exceed its uses |
| `DelegatedRecovery.dfy` | what happens outside that condition | a new cycle, or an archive, between a crash and its reconciliation overdraws a grant |
| `DelegatedScope.dfy` | what delegated approvals write, against what their grants cover | exactly when an approval is of the gate that was authorized; how one escapes its grant |
| `DelegateCommand.dfy` | the commands themselves | each uninterrupted command is a run of the protocol; exactly when an approval goes through |
| `LockOrder.dfy` | authority lock and spec lock, reentrant, nested by any number of goroutines | exclusion and order in every reachable state |
| `LockDeadlock.dfy` | which locks may be waited for while which are held | a discipline is free of deadlock if and only if it has no circle of locks of one kind |
| `LockTable.dfy` | the lock calls over the shared table, other goroutines acting in between | each call is a run of the protocol and leaves the goroutine's calls as they were |
| `TaskDag.dfy` | depth-first cycle search and Kahn layering | both agree on what is cyclic; the layering is the unique earliest one |
| `SimpleYaml.dfy` | the configuration reader | exactly which texts give a key an empty value |
| `SimpleYamlText.dfy` | documents as they are written and as they are meant | every document is read as what it means, however it is spaced, quoted and commented; what a line is refused for |
| `ConfigMigration.dfy` | config resolution and migration as file-system steps | exactly when a migration is carried out; every crash point resolves to the same policy, nothing is lost, reruns converge |
| `ConfigApply.dfy` | applying policy keys in map order, with the messages in the order they are raised | exactly when the order matters to the policy, to its messages, and to whether it loads |
| `ConfigReading.dfy` | the text of a key and the setting it denotes | what fits a key reads back from how it is written, and nothing else is read |
| `BudgetShedding.dfy` | fitting context into a token budget | the shed items are the one plan the input determines |
| `ApprovalRequests.dfy` | approval-request chains in the record map | chains are legal and append-only; exactly when a gate can be answered |
| `Descendants.dfy`, `Criteria.dfy` | stale descendants, criteria, coverage | the replay means what its comments say; resolutions never drop coverage |
| `DescendantHistory.dfy` | the listing of stale descendants, told from the ledger | who made a task stale, what settled it, who takes over, how often |
| `Deployments.dfy`, `DeliveryLedger.dfy` | attempts, adapter envelopes, JSONL reading | attempts are 1..n; re-applying is a no-op; a cut append is harmless until the next one |
| `Escalation.dfy` | the verify-failure ratchet | the loop counts exactly the standing failures |
| `Receipts.dfy` | authority packets and context receipts | a shortfall narrows a packet and does nothing else |

`Common.dfy` holds options, results and text helpers, `StringOrder.dfy` byte-wise string order with sorting.

Conventions. A method in the source's own form (a class with the fields it updates, or a loop) is proved
against a function of the old state, and lemmas say what that function means in terms of its input alone: exactly
when it accepts, what it leaves, and which refusal it tells. Go map iteration
is an arbitrary choice. Time, random tokens, parsing of JSON and timestamps, role tables and path
normalisation are parameters. Digests are free constructors, so equal digests mean equal contents.

## What the proofs turned up

- Reopening a spec into a new cycle between a crash and its reconciliation moves away the record that proves a
  use was spent, so reconciliation releases it and a grant of one use can carry two approvals
  (`DelegatedRecovery.ReopenBeforeReconcileOverdraws`). Archiving the spec and creating its slug again does the
  same without any reopen (`DelegatedRecovery.ArchiveBeforeReconcileOverdraws`). `DelegatedGuard.GuardIsExact`
  gives the exact condition, on what the ledger and the state files show; artifact reopens and undos always meet
  it. Reconciling while `state.json` cannot be read has the same effect
  (`DelegatedRecovery.MisreadLosesTheUse`): an unreadable state counts as "not committed".
- A delegated approval compares revisions and not gates (`internal/cmd/lifecycle.go:124`). Input: a grant for
  `approve.design` alone, reserved while its spec stands at design in revision 1; before the approval runs the spec
  is approved up to complete, archived and created anew, and one more write brings it to revision 1. The approval
  then commits the requirements under that grant (`DelegatedScope.ArchiveInFlightEscapes`). It writes the gate it
  was authorized for if and only if the spec stands at that gate
  (`DelegatedScope.CommitWritesItsGateExactlyWhen`), which holds unless the spec is archived in between
  (`DelegatedScope.WithoutArchivesCommitsAgree`).
- Once a spec has a workflow event, the next approval, or any other write outside the workflow ledger, ends
  reopening and undoing of that spec for good (`DelegatedGuard.BehindForGood`).
- The comment in `authority_lock.go:92-94` calls the lock order global. Only authority-after-spec is refused;
  among locks of one kind in several roots nothing fixes an order, and any circle of them deadlocks until a
  timeout (`LockDeadlock.DeadlockFreeExactlyWhen`).
- A key with an empty value (written `key: ""`) is invisible to conflict detection but not to the digest. The
  migration plan then reports an equivalent policy which the migration refuses every time
  (`ConfigMigration.EmptyValueBlocksMigration`), or the digest moves when the canonical file is written
  (`ConfigMigration.EmptyValueMovesDigest`).
- When `routing.default_class` is not among the given `routing.classes`, whether the policy is accepted depends
  on Go's map order (`ConfigApply.LoadsByChanceExactlyWhen`), although `LoadConfig` is described as
  deterministic. When two keys are wrong, the first message, which is the one reported, depends on it too
  (`ConfigApply.OrderFreeExactlyWhen`).
- The append after a torn ledger tail succeeds and makes every later reading fail
  (`DeliveryLedger.AppendAfterCutReads`).
- `ValidateSlug` refuses `a--b` and `a-` with a message whose pattern accepts them
  (`RequestIds.SlugIsNarrowerThanItsMessage`).
- Ids that no binary minted, such as `a:tasks:+5`, read back all the same, although the comment in
  `delegation.go:219-222` has them stay reserved (`RequestIds.MintableExactlyWhen`).
- A descendant resolved without a successor (revalidated, retained or cancelled) is replayed with its parent as
  successor
  (`Descendants.CommitFlipsOneEntry`).
- Once a gate is answered in a cycle, answering it again in that cycle is always refused
  (`ApprovalRequests.AnsweredOnce`).
- The comment on `CurrentPassing` says "strictly after" the anchor and that a zero anchor counts nothing; the
  code, and this model, count records at the anchor and have no special zero.

## Model

| member | source | states |
|---|---|---|
| Grants.ProjectGrant | internal/core/delegation.go:423-447 | The replay loop computes the fold of the events of one grant, and reports a grant exactly when one was issued. |
| GrantChecks.LastIssueTells | internal/core/delegation.go:423-447 | On any ledger, written by operations or not, a grant reads as the one last issued under its id. |
| GrantChecks.RevocationTells | internal/core/delegation.go:423-447 | It reads as revoked exactly when the ledger holds a revocation of it. |
| GrantChecks.UseTells | internal/core/delegation.go:423-447 | A use reads as consumed exactly when the ledger holds a consumption of it, and as reserved exactly when nothing closed it since it was last prepared. |
| Grants.StampDenies | internal/core/delegation.go:240-247 | Stamping adds exactly the forbidden transitions to the prohibitions an operator wrote. |
| Grants.StampingSuffices | internal/core/delegation.go:159-221 | A sealed grant meets all its bounds (identifier, project, issuer, assurance, digests, specs, transitions, uses, lifetime) exactly when the operator's own fields do: it is never refused for its prohibitions. |
| Grants.GrantLedger.IssueDelegationGrant | internal/core/delegation.go:231-266 | One issue line is appended, or one of the refusals is reported and nothing is. |
| Grants.GrantLedger.RevokeDelegationGrant | internal/core/delegation.go:270-282 | One revoke line, or a refusal of an unknown grant without effect. |
| Grants.GrantLedger.ReserveGrantUse | internal/core/delegation.go:292-307 | One reservation when every check passes, otherwise the first refusal in order, without effect; `GrantChecks.ReservedExactlyWhen` and `GrantChecks.RefusalsComeInOrder` say of the ledger and the call when that is. |
| Grants.GrantLedger.CloseGrantUse | internal/core/delegation.go:312-332 | A use is consumed or released only while it is reserved. |
| Grants.AcceptedIsAdmitted | internal/core/delegation.go:340-382 | Whatever passes the checks reserves a fresh request on a live grant with a use to spare, or closes an open one. |
| Grants.EveryLedgerIsSound | internal/core/delegation.go:231-332 | After any sequence of operations, accepted or refused, no grant has more uses reserved and consumed together than it permits, the two are disjoint, and every grant is bounded. |
| Grants.UsesAreConserved | internal/core/delegation.go:284-332 | Each request is consumed at most once, and every reservation is still open, consumed or released, counted on the ledger. |
| Grants.RevokedAcceptsOnlyCloses | internal/core/delegation.go:268-332 | A revoked grant accepts only further revocations and closes of open uses. |
| Grants.RevocationFreezesUses | internal/core/delegation.go:268-332 | After a revocation the uses spent or open never grow, nothing consumed is taken back, and the grant never changes. |
| Grants.AcceptedUsesStayInScope | internal/core/delegation.go:340-382 | An authorized use is never a forbidden transition and lies in the specs, transitions, project and lifetime the grant was issued with. |
| GrantChecks.IssuedExactlyWhen | internal/core/delegation.go:155-266 | A grant is issued if and only if the feature is on, what the operator wrote is in form field by field, and its id is new; what is recorded is that, sealed under the token. |
| GrantChecks.HistoryTells | internal/core/delegation.go:423-447 | After any sequence of operations a grant reads as the first operation that could issue it wrote it, and as revoked exactly when an operator revoked it since. |
| GrantChecks.ReservedExactlyWhen | internal/core/delegation.go:292-382 | After any sequence of operations a use is reserved if and only if the feature is on, the caller's token is the one the grant was issued with, nobody revoked it since, the request lies in what the operator wrote (expiry, project, spec, a listed transition that is not prohibited, production, both digests, a reason where one is required, an id that is not blank), the request holds no use, and fewer requests do than the grant permits. |
| GrantChecks.UnissuedReservesNothing | internal/core/delegation.go:292-307 | On an id nobody issued nothing is reserved. |
| GrantChecks.RefusalsComeInOrder | internal/core/delegation.go:292-382 | Which refusal is told, each with all that had to hold before it: the feature first, then the grant, the secret, revocation, expiry, project and spec, prohibition, transition and production, policy, reason, replay and count. |
| GrantChecks.ClosedExactlyWhen | internal/core/delegation.go:312-332 | A use is closed if and only if the ledger counts more preparations of its request than consumptions and releases. |
| GrantChecks.RevokedExactlyWhen | internal/core/delegation.go:270-282 | A revocation is recorded exactly for a grant some operation issued. |
| RequestIds.ValidSlug | internal/core/slug.go:5-24 | The scan accepts exactly groups of lower-case letters and digits joined by single hyphens. |
| RequestIds.SlugCharacters | internal/core/slug.go:5-24 | The characters of a slug are the hyphen, the digits and the lower-case letters, by their codes. |
| RequestIds.SlugIsNarrowerThanItsMessage | internal/core/slug.go:26-31 | A text is accepted exactly when it matches the pattern in the error message, holds no two hyphens in a row and does not end with one. |
| RequestIds.RefusedAlthoughMatching | internal/core/slug.go:26-31 | Two concrete texts that match the pattern and are refused, one for each reason. |
| RequestIds.ParseInvertsMint | internal/cmd/delegation.go:202-243 | A replay key reads back as the slug, gate and int64 revision it was made from. |
| RequestIds.MintIsInjective | internal/cmd/delegation.go:198-204 | Two different transitions never share a replay key. |
| RequestIds.ParsesExactlyWhen | internal/cmd/delegation.go:233-243 | A revision is read exactly from at least one digit after at most one sign, within the int64 range. |
| RequestIds.ParseAcceptsForeignSpellings | internal/cmd/delegation.go:233-243 | For every slug and gate, revisions spelled with a plus sign, a leading zero or as minus zero read back, and no approval mints them. |
| RequestIds.FormatsBackExactlyWhenCanonical | internal/cmd/delegation.go:238-241 | Printing a revision that was read gives the text back exactly when the text has no plus sign, no leading zero and is not minus zero. |
| RequestIds.MintableExactlyWhen | internal/cmd/delegation.go:198-243 | Among all texts, the ids that approvals mint are exactly those that read back with a slug in front and a canonical revision at the end. |
| DelegatedGuard.OpenCommittedIsProvable | internal/cmd/delegation.go:248-262 | In an invariant state every open use whose approval committed is found committed by reconciliation. |
| DelegatedApproval.HeldIsOpenCommitted | internal/cmd/lifecycle.go:186-202 | What guards are made of can be seen: the delegated approvals that state file and ledger show as open are exactly the committed approvals whose use is open. |
| DelegatedGuard.GuardIsExact | internal/cmd/delegation.go:142-262 | One atomic step keeps the invariant if and only if its guard holds: a new cycle or an archive finds no open use of its spec, no committed use is misread, and a commit finds the gate its use was reserved for. Every other step, undos and artifact reopens included, always does. |
| DelegatedGuard.MisreadStep | internal/cmd/delegation.go:248-260 | Taking an unreadable record for absent is safe exactly when its approval did not commit. |
| DelegatedGuard.ArchiveStep | internal/core/archive.go:46-122 | Archiving a complete spec is safe exactly when none of its gates shows an open delegated approval. |
| DelegatedGuard.ChangeStep | internal/core/reopen.go:648-698 | Of the changes to a state file (approvals, other writes, task events, reopens, undos) only a new cycle can be unsafe, and it is safe exactly when no gate shows an open delegated approval. |
| DelegatedGuard.ApprovalsOverwriteNothing | internal/cmd/lifecycle.go:750-776 | In every reachable state an approval finds no record at its gate: a recorded gate is answered, and an answered gate is not asked again in its cycle. |
| DelegatedGuard.UndoBringsBack | internal/core/undo.go:107-334 | An undo is open exactly after a reversible event that follows another event, and then restores status and approvals as they were before it. |
| DelegatedGuard.ApprovalAfterEventIsBehind | internal/cmd/lifecycle.go:221 | An approval leaves its spec behind its workflow ledger exactly when that ledger has an event. |
| DelegatedGuard.BehindForGood | internal/core/workflow_event.go:123-352 | After a write outside the workflow ledger that follows an event, no run short of an archive makes the spec accept an event, a reopen or an undo again. |
| DelegatedRuns.CarefulRunsAreGuarded | internal/cmd/delegation.go:142-262 | A run in which new cycles and archives wait for open uses of the spec, archives also for a transaction on it, and every state file can be read, meets every guard, whatever else it reopens or undoes and wherever it crashes. |
| DelegatedRuns.InvBoundsApprovals | internal/core/delegation.go:284-332 | In an invariant state the approvals committed under a grant are at most its uses. |
| DelegatedRuns.ApprovalsNeverExceedUses | internal/cmd/delegation.go:142-262 | In every such run of delegated transactions, crashes, reconciliations, interactive approvals, reopens, undos, archives, re-creations, issues, revocations and other writes, approvals under a grant never exceed its uses. |
| DelegatedRuns.GuardedRunsStayWithinUses | internal/cmd/delegation.go:142-262 | The same bound for every run, as long as every step is guarded. |
| DelegatedRuns.CommittedUsesAreNeverReleased | internal/cmd/delegation.go:188-231 | No step of a guarded run releases a reservation whose approval committed. |
| DelegatedRecovery.UnpinnedUseIsLost | internal/cmd/delegation.go:212-231 | Reconciling an open use whose record is gone leaves it neither reserved nor consumed. |
| DelegatedRecovery.UnguardedWriteLosesAUse | internal/cmd/delegation.go:206-262 | After any unguarded commit, new cycle or archive, a crash and a reconciliation take back the use of some committed approval: the guard is necessary. |
| DelegatedRecovery.MisreadLosesTheUse | internal/cmd/delegation.go:248-260 | Reconciling a committed use while its state cannot be read takes the use back. |
| DelegatedRecovery.ReopenBeforeReconcileOverdraws | internal/cmd/delegation.go:206-262 | For every one-use grant there is a run, with a new cycle between crash and reconciliation, that commits two approvals. |
| DelegatedRecovery.ArchiveBeforeReconcileOverdraws | internal/core/archive.go:46-122 | For every one-use grant that covers the last and the first gate there is a run of approvals alone up to an archive and a re-creation of the slug between crash and reconciliation, without any reopen, that commits two approvals. |
| DelegatedRecovery.OverdrawHappens | internal/cmd/delegation.go:206-262 | A concrete grant of one use and two runs, one with a new cycle and one with an archive, that commit two approvals under it. |
| DelegatedScope.CommitWritesItsGateExactlyWhen | internal/cmd/lifecycle.go:113-222 | In every reachable state a delegated approval writes the gate its spec stands at and no other, so it writes the gate it was authorized for if and only if the spec stands there. |
| DelegatedScope.WithoutArchivesCommitsAgree | internal/cmd/lifecycle.go:124-127 | In every run in which no spec is archived between being loaded by a transaction and being approved by it, each commit finds the gate it was authorized for: every other write moves the revision it compares. |
| DelegatedScope.ScopeIsExact | internal/cmd/delegation.go:165-196 | One step keeps every delegated approval on file covered by its grant if and only if, when it is a commit, the grant covers the gate it finds. |
| DelegatedScope.CommittedApprovalsAreCovered | internal/core/delegation.go:340-382 | In every such run, through crashes, reopens, undos and misread files, each delegated approval a state file shows is of a spec and a transition its grant lists. |
| DelegatedScope.GuardedApprovalsAreCovered | internal/core/delegation.go:340-382 | The same in every guarded run. |
| DelegatedScope.ArchiveInFlightEscapes | internal/cmd/lifecycle.go:124-127 | For every grant that covers approving the design of a spec and not its requirements there is a run in which the requirements are approved under it. |
| DelegatedScope.EscapeHappens | internal/cmd/lifecycle.go:124-127 | A concrete grant and run in which an approval outside the grant is committed. |
| DelegateCommand.Project.ApproveSpec | internal/cmd/lifecycle.go:113-222 | An approval advances status, revision, the record of its gate and, when delegated, its companion together, or changes nothing: for an unknown spec, a moved revision, a spec with no successor, gates that refuse, or a gate already answered in its cycle. |
| DelegateCommand.Project.ReconcileGrantUses | internal/cmd/delegation.go:206-231 | Every reservation is settled by its approval record, an unreadable state counting as none; foreign ones and those whose closing line cannot be appended are kept, and the latter reported after the rest; other grants are untouched, a settled ledger is left alone, and the whole is a run of the protocol. |
| DelegateCommand.Project.ReserveFor | internal/cmd/delegation.go:165-187 | The use of the spec, gate and revision loaded is reserved, at the time of the call, exactly when the grant as it then stands permits it, and the refusal told is the first that applies. |
| DelegateCommand.Project.Prepare | internal/cmd/delegation.go:158-187 | Reconcile, load and reserve leave the grant as reconciliation has it, with the one use asked for added exactly when the spec loads, every reservation could be closed, and the reconciled grant permits it; each refusal is told in its place. |
| DelegateCommand.Project.Conclude | internal/cmd/delegation.go:188-193 | The reserved use is consumed when the approval went through and given back otherwise, the state having moved included. |
| DelegateCommand.Project.DelegateApprove | internal/cmd/delegation.go:142-196 | The approval is given if and only if the arguments are in form, the spec is there and readable, every reservation left open can be closed, the gates pass, the spec can advance, and on the reconciled grant: the feature is on, the token has its digest, it is not revoked or past its expiry at the time of the call, project, digests, production and reason fit, the transition is listed and not prohibited, the use is fresh and one is left. Otherwise nothing is approved and the first thing that failed is told. What the grant holds afterwards is stated in full, other grants are untouched, and the whole is a run of the protocol that ends idle. |
| LockOrder.HoldsMeansDepth | internal/core/authority_lock.go:95-111 | The scan of the lock table finds a spec lock exactly when the goroutine has an open call on one, of any root. |
| LockOrder.OrderRefusedExactlyWhen | internal/core/authority_lock.go:44-66 | In every reachable state the order error is for a goroutine with an open call on a spec lock and none on the authority lock it asks for. |
| LockOrder.StepKeepsInv | internal/core/authority_lock.go:44-133 | Every step of every goroutine keeps single ownership, depth equal to open calls, one claim per lock file, and the order. |
| LockOrder.LocksExcludeAndAreOrdered | internal/core/authority_lock.go:30-90 | In every reachable state a lock is held by at most one goroutine at the depth of its open calls, and nobody asks for the authority lock holding a spec lock. |
| LockDeadlock.SomebodyCanFinish | internal/core/authority_lock.go:34-43 | Under a discipline without a circle, as long as any call is open or waiting some goroutine can bring one nearer its end. |
| LockDeadlock.EveryCallCanFinish | internal/core/authority_lock.go:34-43 | From every such state all calls can end without a single timeout, in a number of steps known beforehand. |
| LockDeadlock.CyclesDeadlock | internal/core/authority_lock.go:92-111 | For every circle of locks of one kind, one goroutine per lock reaches a state where everybody is in a call and only timeouts are possible. |
| LockDeadlock.DeadlockFreeExactlyWhen | internal/core/authority_lock.go:34-111 | Whatever any number of goroutines do under a discipline can still be brought to an end without a timeout if and only if no circle of two or more locks of one kind keeps the discipline. |
| LockDeadlock.AscendingRootsNeverDeadlock | internal/core/authority_lock.go:34-43 | Calls that stay in one root, or take several roots' locks of a kind in one order, never deadlock. |
| LockDeadlock.OppositeOrdersDeadlock | internal/core/authority_lock.go:92-111 | A discipline that lets two locks of one kind be taken in either order can deadlock, whatever else it forbids. |
| LockTable.Table.FindSpecLock | internal/core/authority_lock.go:95-111 | The scan finds a spec lock exactly when one is recorded as the goroutine's. |
| LockTable.Table.Enter | internal/core/authority_lock.go:44-90 | While others act at every pause, the way in is a run of the protocol: the order error exactly on an authority request under a spec lock, and without effect; a timeout only with the file in place, and with no call opened; otherwise one call more, the lock the goroutine's own at the depth of its open calls. |
| LockTable.Table.Unlock | internal/core/authority_lock.go:124-133 | The last exit frees owner and file, an inner one neither: it is the exit of the protocol. |
| LockTable.Table.WithLock | internal/core/lock.go:31-71 | A call with any calls nested in it, whatever becomes of them, is a run of the protocol and leaves the goroutine with exactly the calls it had open, every lock at its depth. |
| TaskDag.CycleSearch.Visit | internal/core/dag.go:106-123 | A reported cycle is a cycle; otherwise the visited tasks have a finishing order with dependencies first. |
| TaskDag.CycleSearch.DetectCycle | internal/core/dag.go:103-130 | The search reports a cycle exactly when the graph has one. |
| TaskDag.NewTaskDAG | internal/core/dag.go:13-38 | A graph is built exactly when ids are present and unique, dependencies are known and there is no cycle; each refusal tells which failed. |
| TaskDag.NextWave | internal/core/dag.go:48-60 | A wave lists, sorted and once each, the remaining tasks whose dependencies are done. |
| TaskDag.TopologicalWaves | internal/core/dag.go:40-68 | The layering fails exactly on cyclic graphs, so never on a graph that NewTaskDAG built; otherwise it is complete. |
| TaskDag.NobodyReady | internal/core/dag.go:57-59 | If no remaining task is ready, there is a cycle among the remaining tasks. |
| TaskDag.OneWaveEach | internal/core/dag.go:40-68 | No task is listed in two waves. |
| TaskDag.WaveRule | internal/core/dag.go:40-68 | Dependencies lie in strictly earlier waves; wave 0 is for tasks without any, and every other task comes right after its latest dependency. |
| TaskDag.WavesAreEarliest | internal/core/dag.go:40-68 | No numbering that puts dependencies first puts a task earlier than its wave. |
| TaskDag.LayeringIsUnique | internal/core/dag.go:40-68 | The graph determines the list of waves. |
| SimpleYaml.StripConfigComment | internal/core/config_loader.go:499-524 | The scan drops a comment exactly at the first hash outside quotes, escapes in double quotes minded. |
| SimpleYaml.ParseSimpleYAML | internal/core/config_loader.go:432-497 | The line loop computes the reading: values, section and the line and reason of a refusal. |
| SimpleYamlText.DocumentReads | internal/core/config_loader.go:432-533 | Every document of settings, sections, nested settings, empty lines and comments, written with any white space, quotes and escapes, is read as exactly the values it means: each setting under its full key, and nothing else. |
| SimpleYamlText.DocumentIsRefusedAt | internal/core/config_loader.go:432-497 | A text that goes wrong after a document is refused at that line, counted from one, and for what one line more is refused for. |
| SimpleYamlText.ShapeRefusals | internal/core/config_loader.go:437-466 | What the shape of a line is refused for, in order: a tab, a document marker, a sequence, a flow collection, an anchor, a one-space indent, no colon, no key. |
| SimpleYamlText.LineRefusals | internal/core/config_loader.go:432-497 | What a line that has shape does: refused for its indent, for want of a section or a scalar, or for a key set before, or else a section is opened or a value set. |
| SimpleYaml.EmptyValueExactlyWhen | internal/core/config_loader.go:432-533 | A text that can be read has a key with an empty value if and only if one of its lines gives its key two quotes with nothing between them. |
| SimpleYaml.QuotedNothingIsEmpty | internal/core/config_loader.go:432-533 | For every plain key the one-line text that quotes nothing for it is read as that key with an empty value. |
| ConfigMigration.AgreeIsSignificant | internal/core/config_loader.go:337-350 | Two policies do not conflict exactly when they are equal up to empty values. |
| ConfigMigration.ConfigDir.ResolveConfigSource | internal/core/config_loader.go:278-335 | The loops over the three candidates compute the resolution. |
| ConfigMigration.ResolvesExactlyWhenConsistent | internal/core/config_loader.go:275-335 | Comparing the first source with the rest settles all pairs: resolution succeeds exactly when all present files parse and agree pairwise. |
| ConfigMigration.ResolutionTells | internal/core/config_loader.go:278-335 | The first file there is taken, with the digests of its bytes and of its policy; the others are duplicates and the legacy ones deprecated, in order. |
| ConfigMigration.ConflictTells | internal/core/config_loader.go:278-350 | A refused resolution names a file that does not parse, or all the files there with exactly the keys at which one of them differs from the first. |
| ConfigMigration.ConfigDir.MigrateConfig | internal/core/config_migrate.go:45-88 | The directory passes through exactly the states of the plan, and the caller is told what happened; `ConfigMigration.CarriedOutExactlyWhen` says of the directory when that is a migration. |
| ConfigMigration.CarriedOutExactlyWhen | internal/core/config_migrate.go:45-183 | A legacy file is migrated if and only if it is named and there, or the only one; every file policy could be read from parses and agrees with it, a canonical one down to empty values; it and the canonical file are valid; and no backup is in the way. The states of the directory and the digests reported are stated in full. |
| ConfigMigration.DoneExactlyWhen | internal/core/config_migrate.go:108-208 | Completion is reported without a change exactly when the source is gone and its backup agrees with the canonical file. |
| ConfigMigration.UnselectedTells | internal/core/config_migrate.go:90-218 | What is told when no source can be selected: an unknown name, two files and no name, a missing backup, or nothing to migrate. |
| ConfigMigration.ObstaclesComeInOrder | internal/core/config_migrate.go:126-183 | What is told of a source that stays, each with all that had to hold before it. |
| ConfigMigration.InstalledIsValid | internal/core/config_migrate.go:150-176 | Whenever a migration has changed the directory, the canonical policy there is valid. |
| ConfigMigration.EveryStepResolves | internal/core/config_migrate.go:45-88 | A crash after any step leaves a directory that resolves. |
| ConfigMigration.PolicyKept | internal/core/config_migrate.go:43-88 | At every step the policy in force equals the one before, up to empty values. |
| ConfigMigration.DigestKeptExactlyWhen | internal/core/config_migrate.go:43-88 | The effective digest is the same at every step if and only if a canonical file was there or the plan's digest is the one in force. |
| ConfigMigration.FullValuesMigrate | internal/core/config_migrate.go:43-88 | Without empty values every plan that is made is carried out with the digest unchanged. |
| ConfigMigration.UnlessNothingIsQuoted | internal/core/config_migrate.go:43-88 | So it does for the code's own reader whenever no line of any file gives a key two quotes with nothing between them. |
| ConfigMigration.NothingIsLost | internal/core/config_migrate.go:43-84 | At every step every file keeps its bytes, or is the migrated source and its bytes are in the backup. |
| ConfigMigration.RefusedExactlyWhen | internal/core/config_migrate.go:73-80 | A migration is refused exactly by its plan or for a difference in empty values, and a refusal writes nothing. |
| ConfigMigration.RerunConverges | internal/core/config_migrate.go:185-208 | The same command after a crash anywhere reaches the state of the uninterrupted run and reports completion; after that it changes nothing. |
| ConfigMigration.EmptyValueBlocksMigration | internal/core/config_migrate.go:78-80 | For every plain key, `agent` for example, the legacy text that quotes nothing for it beside an empty canonical file gives a plan that claims equivalence and a migration refused for good. |
| ConfigMigration.EmptyValueMovesDigest | internal/core/config_migrate.go:55-84 | For every plain key, that text beside an empty second legacy file gives a migration that succeeds and moves the effective digest. |
| ConfigMigration.AgentIsPlain | internal/core/config_loader.go:432-497 | The one line `agent: ""` is such a text. |
| ConfigMigration.MovesDigest | internal/core/config_migrate.go:55-84 | So does every directory with two agreeing but unequal legacy files when the second is migrated. |
| ConfigApply.ApplyConfigMap | internal/core/config_validate.go:24-253 | Ranging over the map gives the result of some order of its keys and of its capability classes, with one final configuration, or one of two when the default is contested. |
| ConfigApply.FoldIsFinal | internal/core/config_validate.go:24-253 | The configuration depends on the order only through whether the classes come after the default; the messages come in the order of the keys. |
| ConfigReading.KeyChanges | internal/core/config_validate.go:24-253 | What one key changes: nothing if it is refused; the classes, and the default if it is none of them; the default; or the one setting it denotes. |
| ConfigReading.KeyReads | internal/core/config_validate.go:24-253 | The setting of a key that is not refused is what its environment, its structured value or its text denotes. |
| ConfigReading.RefusedExactlyWhen | internal/core/config_validate.go:24-253 | What one key is refused for: a secret always, a list of classes unless it reads as one, any other key unless it is known and its text denotes a setting. |
| ConfigApply.OrderFreeExactlyWhen | internal/core/config_validate.go:24-345 | The whole outcome, messages in their order included, is the same in every order if and only if the default is not contested, no two keys raise different messages, and at most one class with capabilities is unknown. |
| ConfigApply.SameConfigExactlyWhen | internal/core/config_validate.go:107-118 | The configuration alone is the same in every order if and only if the map does not give valid classes and a default outside them. |
| ConfigApply.LoadsByChanceExactlyWhen | internal/core/config_validate.go:24-345 | A policy loads in one order and is refused in another if and only if its default is contested and nothing else is wrong with it. |
| ConfigApply.ContestedTwice | internal/core/config_validate.go:107-118 | For every map with a contested default, one order replaces it by a class and another keeps it outside the classes; the two configurations agree on everything else. |
| ConfigApply.ValidateRouting | internal/core/config_validate.go:328-345 | The messages are those of the default, of each fallback in order and of each capability class in some order, and there are none exactly when all of them name classes. |
| ConfigReading.RoutingIsFaultedExactlyWhen | internal/core/config_validate.go:328-345 | Routing is faulted for a default, a fallback or a class with capabilities that is no class, each by name, and for nothing else. |
| ConfigReading.SettingsReadBack | internal/core/config_validate.go:24-253 | Every setting that fits the kind of its key is what its text is read as: any text, a truth value in six spellings, a decimal number in range, one of the allowed words, or items with commas and white space between them. |
| ConfigReading.ReadSettingsFit | internal/core/config_validate.go:24-253 | And no text is read as anything that does not fit. |
| ConfigReading.OnlyTheseAreTruthValues | internal/core/config_validate.go:81-98 | A truth value has six spellings for true and six for false, and no other. |
| ConfigReading.ListIsRead | internal/core/config_validate.go:297-309 | A list reads as its items, white space around them gone, exactly when none occurs twice. |
| ConfigReading.KindsAreNamed | internal/core/config_validate.go:42-253 | Every key that is known has the kind listed for it. |
| ConfigReading.NamedKindsAreKinds | internal/core/config_validate.go:42-253 | And every key that is listed is known. |
| BudgetShedding.LeastImportantOptional | internal/context/manifest.go:797-829 | The scan finds the sheddable item that comes first in shed order, or that there is none. |
| BudgetShedding.LessImportantExactlyWhen | internal/context/manifest.go:797-829 | Of two items the one with the higher priority number is shed first, then the later kind, then the later source. |
| BudgetShedding.EnforceMachineBudget | internal/context/manifest.go:753-795 | Refuses exactly when required tokens exceed the budget; otherwise the rest fits, tokens add up, required items and write authority are all kept in order, and the omissions are those of the shedding plan. |
| BudgetShedding.ShedUntilFits | internal/context/manifest.go:774-788 | The loop always finds something to shed until the rest fits: its escape is unreachable. |
| BudgetShedding.ShedPlanIsUnique | internal/context/manifest.go:753-829 | Items and budget determine which positions are shed and in which order: least important first, none more than needed. |
| BudgetShedding.WeightSplits | internal/context/manifest.go:760-795 | Counted tokens are required or optional, never both or neither. |
| ApprovalRequests.LatestApprovalRequest | internal/core/approval_request.go:129-138 | The scan gives the last transition of an id and how many there are. |
| ApprovalRequests.PlanApprovalRequest | internal/core/approval_request.go:151-191 | The checks, in order, decide the next record of the chain of one id and its key. |
| ApprovalRequests.PlannedExactlyWhen | internal/core/approval_request.go:151-262 | A transition is recorded if and only if the chain stands where it can be recorded from, a first record is well formed, an approval is in time and pins what the request pinned, and a supersession names a request there is. The record is the one given, under the kind, entity, version, pins, requester and expiry of the request. |
| ApprovalRequests.RefusalsComeInOrder | internal/core/approval_request.go:151-262 | Which refusal is told: the state of the chain, then what a first record lacks, then expiry, the drifted pins, and the successor. |
| ApprovalRequests.LevelsRise | internal/core/approval_request.go:48-58 | Legal transitions climb, so no chain is longer than four. |
| ApprovalRequests.KeysAscend | internal/core/approval_request.go:169-171 | Within a chain, key order is append order. |
| ApprovalRequests.ReadingGivesChains | internal/core/approval_request.go:100-138 | Reading the sorted map gives every chain back in append order. |
| ApprovalRequests.AppendExtendsOneChain | internal/cmd/lifecycle.go:778-801 | An append puts one record at the end of its own chain, under a key never used, and leaves every other chain alone. |
| ApprovalRequests.AppendKeepsChained | internal/cmd/lifecycle.go:778-801 | An append keeps every chain a legal path with the identity its create record pinned. |
| ApprovalRequests.SpecState.ReadApprovalRequests | internal/core/approval_request.go:100-120 | All request records in key order, or a failure exactly when one cannot be decoded. |
| ApprovalRequests.SpecState.AppendApprovalRequest | internal/cmd/lifecycle.go:778-801 | The map grows by the planned record, or nothing changes. |
| ApprovalRequests.SpecState.RecordCompatibilityApproval | internal/cmd/lifecycle.go:750-776 | The command does what the two appends say, reusing an open request. |
| ApprovalRequests.AnsweredExactlyWhen | internal/cmd/lifecycle.go:750-776 | A gate is answered if and only if it was never asked in its cycle and the request is well formed and fresh, or its open request pins today's identities and has not expired. |
| ApprovalRequests.FirstAnswer | internal/cmd/lifecycle.go:750-776 | A spec never asked answers any gate, given complete pins, slug and actor. |
| ApprovalRequests.AnswerIsCurrent | internal/cmd/lifecycle.go:750-776 | After an answer the chain ends approved, pinned to today's identities, before its expiry. |
| ApprovalRequests.AnswerAdds | internal/cmd/lifecycle.go:750-776 | An answer adds the request, unless one is open, and one approval that names the spec, the gate and the requester of that request; every other chain stays. |
| ApprovalRequests.AnsweredOnce | internal/core/approval_request.go:48-58 | An answered gate is never answered again in its cycle. |
| ApprovalRequests.CyclesHaveOwnChains | internal/core/approval_request.go:38-46 | Request ids of different gates or cycles differ. |
| ApprovalRequests.EveryRunIsChained | internal/core/approval_request.go:48-191 | Through every run of appends and unrelated writes, each chain is a legal path of at most four records with the kind, entity, version, pins, requester and expiry of its first, and only grows. |
| Descendants.StaleDescendants | internal/core/descendant.go:60-115 | The replay loop lists the entries of the fold, one a task, in task order; `DescendantHistory` says what each entry tells. |
| DescendantHistory.ParentTells | internal/core/descendant.go:72-92 | For every ledger, a task's parent is the entity of the last event that listed it, and it is stale since the revision that event resulted in. |
| DescendantHistory.UnsettledTells | internal/core/descendant.go:82-92 | Until something settles it since, its entry names no resolution, revision or successor and offers the choices. |
| DescendantHistory.SettledTells | internal/core/descendant.go:65-106 | Afterwards its entry names the resolution and the revision of the last event that settled it: a resolution, or its own reopen while it was open. |
| DescendantHistory.SuccessorTells | internal/core/descendant.go:101-105 | Its successor is the last task named by the last resolution since that names one. |
| DescendantHistory.NobodyTakesOver | internal/core/descendant.go:87-105 | And nobody if none did. |
| DescendantHistory.CountTells | internal/core/descendant.go:69-100 | Its count is the number of events that ever settled it. |
| DescendantHistory.WaitsExactlyWhen | internal/core/descendant.go:60-143 | A parent is blocked by the listing if and only if some task is open that a reopen of that parent was the last to list. |
| Descendants.UnresolvedExactlyWhen | internal/core/descendant.go:60-115 | A task is tracked exactly when a reopen listed it, and open exactly when nothing since it was last opened resolved or reopened it. |
| Descendants.CountsNeverFall | internal/core/descendant.go:82-92 | The resolution count never falls, so versions on a chain never repeat. |
| Descendants.PlanDescendantResolution | internal/core/descendant.go:194-269 | All blockers are collected, for the entry the listing holds. |
| Descendants.EligibleExactlyWhen | internal/core/descendant.go:194-299 | A resolution goes through if and only if it is for an open task at the expected revision with the proof its kind needs; coverage must be handed on in full to supersede or cancel. |
| Descendants.BlockedExactlyWhen | internal/core/descendant.go:194-299 | Each of the twelve blockers is raised exactly when its condition on the request, the entry or the revision holds. |
| Descendants.CommitFlipsOneEntry | internal/core/descendant.go:332-391 | Committing changes one entry of the replay, advances its version by one, and leaves all others. |
| Descendants.CommittedIsBlocked | internal/core/descendant.go:365-391 | The same request is blocked afterwards, whatever revision it expects. |
| Descendants.StaleDescendantBlockers | internal/core/descendant.go:129-143 | A parent is blocked exactly while a descendant it made stale is open. |
| Descendants.Workflow.CommitDescendantResolution | internal/core/descendant.go:365-391 | Plans again from the ledger and appends one event, or changes nothing. |
| Criteria.CurrentPassing | internal/core/criteria.go:96-130 | A criterion counts exactly when its newest record at or after the anchor, the last appended of equally new ones, is a pass. |
| Criteria.PassingExactlyWhen | internal/core/criteria.go:96-130 | Said of the records alone: some record of the criterion passes, is dated at or after the anchor, and every other one of it is older, or as old and appended before. |
| Criteria.LaterAnchorOnlyRemoves | internal/core/criteria.go:96-101 | Moving the anchor later never adds a criterion. |
| Criteria.AppendedRecordDecides | internal/core/criteria.go:102-130 | A new record decides its criterion alone, unless it is dated before the anchor or the record in force. |
| Criteria.UncoveredCriteria | internal/core/criteria.go:142-160 | Exactly the criteria that no reassignment hands to another task, sorted. |
| DeliveryLedger.ReadLedger | internal/core/delivery_ledger.go:48-81 | The line loop computes the reading, with its line numbers in errors. |
| DeliveryLedger.WholeLedgerReadsBack | internal/core/delivery_ledger.go:48-92 | What was appended record by record is read back. |
| DeliveryLedger.CutAppendReads | internal/core/delivery_ledger.go:48-92 | An append cut at any byte leaves the earlier records or those and the new one, never an error. |
| DeliveryLedger.AppendAfterCutReads | internal/core/delivery_ledger.go:83-92 | The ledger after the next append is readable exactly when the cut fell before the first byte or after the newline. |
| Deployments.HighestIsCount | internal/core/delivery_ledger.go:159-164 | In a numbered ledger the highest attempt of a deployment is how many it has. |
| Deployments.DeliveryRecords.AppendDeploymentAttempt | internal/core/delivery_ledger.go:146-177 | The next number is allocated and appended, or nothing is. |
| Deployments.DeliveryRecords.ApplyDeploymentAdapterEnvelope | internal/core/adapter_envelope.go:169-224 | Created, no-op, conflict and refusal, with what each leaves in both ledgers. |
| Deployments.EveryLedgerIsNumbered | internal/core/delivery_ledger.go:146-177 | However operators and adapters interleave, the attempts of each deployment are 1, 2, 3, ... in append order and records stay. |
| Deployments.AttemptsAreAllThere | internal/core/delivery_ledger.go:146-177 | Every attempt number up to the last is in the ledger. |
| Deployments.AttemptsAreDistinct | internal/core/delivery_ledger.go:146-151 | No deployment and attempt pair occurs twice. |
| Deployments.ReapplyIsNoop | internal/core/adapter_envelope.go:169-224 | Applying an envelope again after anything is a no-op that returns the record it made. |
| Deployments.ConflictsExactlyWhen | internal/core/adapter_envelope.go:186-205 | A reused key conflicts exactly when the envelope says something else than the first record with it, attempt aside. |
| Deployments.AttemptedExactly | internal/core/delivery_ledger.go:146-177 | An operator's deployment is appended as its next attempt if that is a valid record, with the actor and start time it names or else those of the call, and nothing else of it changed. |
| Deployments.NewKeyIsApplied | internal/core/adapter_envelope.go:55-224 | An envelope in form with a new key is appended as the next attempt, with its trust source and its sanitized message, if that is a valid record. |
| Deployments.KnownKeyIsCompared | internal/core/adapter_envelope.go:172-210 | One with a known key is compared with the first record under it: a no-op if they say the same, attempt aside, and a conflict otherwise. |
| Deployments.Releases.FreezeReleaseCandidate | internal/core/delivery_ledger.go:120-144 | A candidate is frozen once; a second under its id returns the first unchanged. |
| Escalation.ConsecutiveVerifyFails | internal/core/escalation.go:82-122 | The count over the sorted timeline is the number of failures with no later pass and no override dated as late. |
| Escalation.StandingIsTrailing | internal/core/escalation.go:106-121 | In any chronological merge the failures after the last reset are the standing ones. |
| Escalation.StableSortIsChronological | internal/core/escalation.go:106-111 | The stable sort leaves timestamp, override-last, append order. |
| Escalation.LatestPassClears | internal/core/escalation.go:82-85 | A pass no older than any failure clears the count. |
| Escalation.LatestOverrideClears | internal/core/escalation.go:82-111 | So does an override, also in the same second. |
| Escalation.LaterFailureAddsOne | internal/core/escalation.go:112-121 | A failure after every record and override adds exactly one. |
| Escalation.EscalatedCounts | internal/core/escalation.go:124-143 | Exactly the tasks at the threshold, each with its count; none when the ratchet is off. |
| Receipts.CanonicalIsFixed | internal/core/authority.go:91-99 | Putting a packet in order twice changes nothing, so a finalized digest stays valid. |
| Receipts.AuthorizeTool | internal/core/authority.go:100-136 | A call is accepted exactly when `Receipts.AcceptsExactlyWhen` says, and refused with the first check that fails. |
| Receipts.AcceptsExactlyWhen | internal/core/authority.go:51-136 | A packet accepts a call if and only if its digest is that of its contents, they are in form, the call comes in its phase and hours, the tool is allowed and not denied, and what writes is declared for writing by a role that may. |
| Receipts.InvalidTells | internal/core/authority.go:51-90 | Why a packet is not valid: digest, form, phase, hours, in this order. |
| Receipts.AlteredIsTold | internal/core/authority.go:40-69 | A packet altered after it was finalized fails by its digest exactly when it differs in more than the order of its lists. |
| Receipts.CanonicalExactlyWhen | internal/core/authority.go:91-99 | Two packets are the same in order exactly when their fields are equal and their lists are, but for how they are ordered. |
| Receipts.BuildContextReceipt | internal/core/contextreceipt.go:45-96 | Missing is what is required and not supplied, whatever the host says; complete exactly when every required digest was supplied. |
| Receipts.AuthorizeWithReceipt | internal/core/contextreceipt.go:118-160 | The packet is granted whole, narrowed or refused as `Receipts.GrantedExactlyWhen` says. |
| Receipts.GrantedExactlyWhen | internal/core/contextreceipt.go:98-160 | Nothing on a receipt that is not intact, or not of the current manifest; the packet itself on a complete one; the narrowed packet on any other, unless what is left of it is not in form. |
| Receipts.ShortfallNarrows | internal/core/contextreceipt.go:118-160 | An incomplete receipt never makes a valid packet fail. |
| Receipts.NarrowedAcceptsExactly | internal/core/contextreceipt.go:113-160 | The narrowed packet accepts exactly the calls accepted before that name no mutable tool and write no path. |
| Receipts.BuiltAcceptsExactly | internal/core/authority.go:138-161 | A packet can be built exactly for a commission that names everything, and then accepts exactly the calls of the tools its role is given, in its phase and hours, that write only for a write role and on declared files. |

## Left out

- Stale lock-file reclaim, errors of the file system while a lock file is created, process ids and the wall clock of lock timeouts: the holders are live, and a timeout is a step that may happen at any moment.
- The Brain controller, task-state projection, the tasks.md parser, workflow-event recovery and the artifact journal: not part of this model.
- A write that reports an error after its rename took effect: an error here means nothing was written.
- Wrap-around of a state revision at the largest int64: writes are possible only below it.
- The reason, actor and timestamp of grant events, and the form of a token digest, which is always taken of a token.
- The sorting of a grant's prohibitions: only membership is modelled.
- DelegateCommand.Project.ApproveSpec: readiness gates and artifact digests inside an approval are one boolean parameter, because they read files; of the approval-request chain it models only whether its gate is answered in the cycle, because `ApprovalRequests` proves the rest.
- An approval request left open by something else than an approval: nothing else in the commands opens one.
- A workflow event whose state write is still missing after a crash: an event and its state are one step, and recovery before the next event makes it so.
- Archive evidence, successor links and the refusal to archive a slug twice: the protocol lets every complete spec be archived, any number of times.
- Stamp fields of approval-request records (kind, timestamp, head, actor), and RFC3339 text: an expiry is an instant or unparsable.
- File modes, temporary files, directory syncs and read errors other than absence in the migration: writing and renaming a file are single steps.
- The sorted text that policy digests are taken of, where a key containing `=` could collide: a digest here determines its policy.
- Validation inside a migration is taken to depend on the values alone; `ConfigApply.LoadsByChanceExactlyWhen` says when it does not.
- Environment overrides (`applyEnv`), which range over a map as well: each variable sets a field of its own, so the configuration adds only easy cases, and their messages follow those of the file.
- The words that make a key secret, and the parsing of environments, capabilities and recommendations: parameters.
- The human manifest's `enforceBudget` and `lastDroppable`, and the list of contributions in a budget error: the same loop with a simpler order, and message text.
- The order and removal of duplicates among a resolution event's entities; an event's identifier and validation.
- Proof that verify evidence is current: a boolean in a resolution request.
- Decoding and redaction of adapter envelopes, validation of deployments and releases, and hashing of a release identity: parameters.
- Slices that packets share with their copies while they are sorted in place: packets are values.
- Timestamps that are not second-granular RFC3339: criteria compare instants, escalation compares the text as the code does.
- DeliveryLedger.CutAppendReads: assumes of the codec only that records read back, hold no newline and do not decode when cut, which JSON objects meet.
- DeliveryLedger.AppendAfterCutReads: assumes as well that a cut or whole record followed by another on one line does not decode.
