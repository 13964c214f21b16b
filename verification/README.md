# AegisLedger, verified

AegisLedger turns payment proposals of agents into reserved, signed and settled EIP-1559
transactions. This project models its core in Dafny and proves what that core is for. Check it with
`dafny verify dfyconfig.toml`.

| file | what it models |
|---|---|
| `Rlp.dfy`, `Eip1559.dfy` | the recursive-length-prefix codec and the unsigned type-2 payload: a bijection between accepted bytes and valid transactions |
| `Merkle.dfy`, `Journal.dfy` | the audit journal: hash chain, Merkle checkpoints, verifier |
| `Contracts.dfy`, `StateStore.dfy`, `Reservations.dfy` | proposals, lifecycle and the reservation store with rolling caps |
| `Reconciler.dfy`, `Finality.dfy` | settlement tracking under missing and reorganised receipts |
| `RateLimit.dfy` | the fixed-window limiter |
| `Mandates.dfy`, `Delegation.dfy` | signed delegations: forest, revocation, budgets, replays |
| `Amm.dfy`, `LocalChain.dfy` | the constant-product pool and the local ledger |
| `SigningGate.dfy` | the authorization gate in front of the signer |
| `ReplayFile.dfy`, `Execution.dfy`, `CrashSafety.dfy` | the signer's replay state and its file, the artifact store, and signing across crashes |
| `Service.dfy`, `ServiceRuns.dfy` | `submit` and `execute`, driving the stores, the signer and the backend, alone and over runs |
| `ValueSafety.dfy`, `ExpiryRuns.dfy` | the end-to-end cap on what accepted payloads move, and where it ends |
| `StoppedWorkers.dfy` | what a retry of `execute` does not repair |
| `Samples.dfy` | the small proposal and policy of the concrete runs |

How to read it. State that the program updates in place is a class; each method is proved against a
function of a plain value (`View()`), and the theorems are about all runs of those functions. What a call's success
means and what it changes is also said in plain conditions that do not name that function. Time is
an integer number of microseconds given to each call. Hashes, signatures, canonical JSON and key
addresses are function parameters about which nothing else is assumed; binding results say "equal, or here
are two hashed strings that collide". Hex text is modelled by the bytes it spells.

Hypotheses the theorems carry explicitly: proposal ids are not reused under a second idempotency key
(`Reservations.FreshIds`), mandate ids are fresh (`Delegation.FreshIds`), different audit records have
different canonical forms where equality of records is concluded (`Journal.Crypto.Unambiguous`), and within
one `reserve` call the clock does not step back between reading the windows and stamping the reservation. No order of
clock readings between calls is needed for the caps.

Where the code does less than one might expect, the exact condition is proved, with a concrete run
that shows the failure:

- Reusing a proposal id orphans the overwritten reservation, and the budget totals are right exactly when no
  orphan counts in them (`ReserveKeepsOwnedExactly`, `BudgetTotalsExactly`, `ReusedIdOrphans`).
- A poll between registering a transaction and moving its record to SUBMITTED completes the
  transaction and leaves the record behind (`RunAgreesExactly`, `EarlyPollDisagrees`). `execute`
  registers first.
- A worker that stops before the move to SIGNED leaves the record RESERVED through every retry, and one that
  then stops before registering leaves the transaction untracked (`BroadcastStored`, `LosesTracking`,
  `UnsignedRegistrationDisagrees`).
- Registering a mandate id again restarts its budget, can leave children outside its scope and can make
  the walk to the root endless (`SpentIsPaidExactly`, `RegistrationAttenuatesExactly`,
  `ReregistrationEndsExactly`; `ReregistrationForgets`, `NarrowedParent`, `ReregistrationLoops`).
- A swap quoted at zero fails after taking its input (`FailedIsNoOpExactly`, `DustIsTaken`), and a
  negative swap moves the pool before it is refused (`NegativeSwapKeepsBackingExactly`,
  `NegativeSwapOnFreshChain`).
- A Merkle root without the event count does not bind (`RepeatedLeafSameRoot`, `ParentsSameRoot`).
- The signer is safe across restarts exactly with a replay file (`SafeExactlyWithFile`,
  `RestartWithoutFileForgets`), and it starts from its own file exactly while that is within 16 MiB
  (`LoadUndoesPersist`, `OutgrownFileIsRefused`).
- Expiry releases a reservation whether or not the gate has accepted the payload, and the gate does not look
  at the lifecycle. No accepted payload belongs to an expired proposal exactly when every step is
  prompt, and then accepted value is within the cap (`RunIsCurrentExactly`, `PromptRunWithinCap`). Without
  either guard it is not (`WithinCapExactly`, `LateExpiryDoublesCap`, `LateAcceptanceDoublesCap`).

## Model

| member | source | states |
|---|---|---|
| `Rlp.DecodeRlp` | agentguard-testbed/src/aegisledger/eip1559.py:42-87 | the cursor loop terminates on every input and computes the recursive decoder, errors included |
| `Rlp.DecodeSound` | agentguard-testbed/src/aegisledger/eip1559.py:42-87 | the bytes the decoder consumed are exactly the canonical encoding of the value it returned, nested within the depth limit |
| `Rlp.DecodeComplete` | agentguard-testbed/src/aegisledger/eip1559.py:42-87 | started at the encoding of any value within the depth limit, the decoder returns that value and its end, whatever bytes follow |
| `Rlp.DecodeItemsSound` | agentguard-testbed/src/aegisledger/eip1559.py:78-87 | the items of a list span its payload exactly, one encoding after another |
| `Rlp.DecodeItemsComplete` | agentguard-testbed/src/aegisledger/eip1559.py:78-87 | concatenated encodings decode to exactly the items they were made from |
| `Rlp.ToBytesValue` | agentguard-testbed/src/aegisledger/eip1559.py:149-153 | minimal big-endian bytes keep the integer and start with no zero |
| `Rlp.FromBytesMinimal` | agentguard-testbed/src/aegisledger/eip1559.py:90-95 | the only byte string without leading zero that reads as an integer is its minimal encoding |
| `Rlp.BigEndian` | agentguard-testbed/src/aegisledger/eip1559.py:90-95 | the most significant byte comes first: a concatenation reads as the high part shifted by the width of the low part, plus the low part |
| `Rlp.EncodingRules` | agentguard-testbed/src/aegisledger/eip1559.py:140-162 | the format in its own numbers: the prefixes 128, 183, 192 and 247, the limit of 55 bytes and big-endian lengths without leading zeros; a list is its items one after another |
| `Eip1559.EncodeAcceptsExactly` | agentguard-testbed/src/aegisledger/eip1559.py:164-204 | the encoder succeeds exactly for well-formed transactions of at most 131072 bytes, and its output is the type byte and the RLP of the nine fields |
| `Eip1559.DecodeUndoesEncode` | agentguard-testbed/src/aegisledger/eip1559.py:98-204 | decoding an encoded transaction gives it back |
| `Eip1559.EncodeUndoesDecode` | agentguard-testbed/src/aegisledger/eip1559.py:98-204 | every accepted payload is re-encoded to exactly the same bytes |
| `Eip1559.DecodeInjective` | agentguard-testbed/src/aegisledger/eip1559.py:98-137 | no two payloads decode to the same transaction |
| `Eip1559.AcceptedAreEncodings` | agentguard-testbed/src/aegisledger/eip1559.py:98-204 | the accepted payloads are exactly the encoder's outputs |
| `Eip1559.FieldOrder` | agentguard-testbed/src/aegisledger/eip1559.py:113-137 | an accepted payload is the type byte and a list of exactly nine items in the order of EIP-1559, each reading as the decoded field |
| `Eip1559.OnePayload` | agentguard-testbed/src/aegisledger/eip1559.py:164-204 | one transaction with different values in its fields, encoded byte by byte |
| `Merkle.MerkleRoot` | agentguard-testbed/src/aegisledger/audit.py:135-146 | the level-by-level loop computes the root the laws below are about |
| `Merkle.RootLaw` | agentguard-testbed/src/aegisledger/audit.py:135-146 | no leaves give 32 zero bytes and one leaf itself; otherwise the root is that of half as many nodes, each the hash of a left node followed by its right neighbour, or by itself if it is the last of an odd number |
| `Merkle.Inclusion` | agentguard-testbed/src/aegisledger/audit.py:135-146 | for every leaf there is a path of sibling hashes, each joined on the left or the right by the bits of the position, that climbs from the leaf to the root |
| `Merkle.SplitLaw` | agentguard-testbed/src/aegisledger/audit.py:135-146 | the root of two lists of one power-of-two length is the hash of the root of the first followed by the root of the second |
| `Merkle.RootBinding` | agentguard-testbed/src/aegisledger/audit.py:135-146 | two leaf lists of one length with the same root are equal, or two of the strings hashed collide |
| `Merkle.RepeatedLeafSameRoot` | agentguard-testbed/src/aegisledger/audit.py:140-143 | every odd list of three or more leaves has the root of itself with the last leaf repeated |
| `Merkle.ParentsSameRoot` | agentguard-testbed/src/aegisledger/audit.py:135-146 | the parents of any leaf list have its root: only the count tells them apart |
| `Journal.AuditJournal.constructor` | agentguard-testbed/src/aegisledger/audit.py:150-155 | an empty journal is a valid chain |
| `Journal.AuditJournal.Append` | agentguard-testbed/src/aegisledger/audit.py:165-192 | the new event records the draft, with the next number, the previous hash (zeros for the first) and the hash of its canonical form; nothing before it changes and the chain stays valid |
| `Journal.AuditJournal.SnapshotCheckpoint` | agentguard-testbed/src/aegisledger/audit.py:206-218 | exactly an empty journal has no snapshot; any other carries the given id and time and is accepted by the verifier for the current events |
| `Journal.AuditJournal.MarkAnchored` | agentguard-testbed/src/aegisledger/audit.py:220-234 | accepts exactly checkpoints whose count, last number, head and root are those of a prefix of the journal, never lowers the anchored count, and a rejection changes nothing |
| `Journal.VerifyJournal` | agentguard-testbed/src/aegisledger/audit.py:494-520 | the verdict is the declarative acceptance condition; an error is in the report exactly when what it says is so |
| `Journal.ReportedExactly` | agentguard-testbed/src/aegisledger/audit.py:494-520 | each kind of error is reported exactly for the events or the checkpoint field it is about |
| `Journal.NoErrorsMeansAccepts` | agentguard-testbed/src/aegisledger/audit.py:499-520 | the verifier finds no error exactly when counts, numbering, links, head and root all agree |
| `Journal.AppendedIsChained` | agentguard-testbed/src/aegisledger/audit.py:165-192 | every journal built by appends is a valid hash chain |
| `Journal.AppendedOnlyGrows` | agentguard-testbed/src/aegisledger/audit.py:165-192 | later appends leave the history a prefix |
| `Journal.AppendedRecordDrafts` | agentguard-testbed/src/aegisledger/audit.py:165-192 | every history has one event per draft, in order, each recording its draft |
| `Journal.SnapshotsStayAnchored` | agentguard-testbed/src/aegisledger/audit.py:206-234 | every journal verifies against its own snapshot, and the snapshot stays acceptable as an anchor after any further appends |
| `Journal.AcceptedIsHistory` | agentguard-testbed/src/aegisledger/audit.py:494-520 | what verifies against a snapshot is the snapshotted history up to canonical form (and record for record where canonical forms are unambiguous), or two of the strings hashed collide |
| `Journal.HeadBinding` | agentguard-testbed/src/aegisledger/audit.py:494-520 | if different records have different canonical forms, two valid chains with the same head are the same chain, whatever their lengths, or two hashed bodies collide |
| `Contracts.LifecycleIsShort` | agentguard-testbed/src/aegisledger/contracts.py:214-239 | a lifecycle path never revisits a state, has at most five states, and stops exactly in the terminal ones |
| `Contracts.TransitionsAre` | agentguard-testbed/src/aegisledger/contracts.py:226-239 | the nine allowed transitions, and no others |
| `StateStore.Evaluate` | agentguard-testbed/src/aegisledger/state.py:176-201 | a reason is reported exactly when it applies, each once and in a fixed order; none is reported exactly when the policy permits the proposal and rolling caps and hourly count leave room |
| `StateStore.ReasonExactly` | agentguard-testbed/src/aegisledger/state.py:16-48 | each of the thirteen reasons is given exactly under its own condition on proposal, policy, clock and live reservations; an emergency stop hides the other static ones |
| `StateStore.ReasonsInOrder` | agentguard-testbed/src/aegisledger/state.py:16-48 | the reasons come in one fixed order, each at most once |
| `StateStore.GrantedExactly` | agentguard-testbed/src/aegisledger/state.py:16-48 | a proposal is granted exactly when the policy permits it (a plain conjunction: stop, deadline, wallet, principal, chain, asset, cap, recipient or contract, quote, mandate) and no rolling cap and not the hourly count is exhausted by the live reservations of its scope |
| `StateStore.TotalOf` | agentguard-testbed/src/aegisledger/state.py:176-201 | the summing loop computes the total the window limits are stated with |
| `StateStore.MemoryStateStore.constructor` | agentguard-testbed/src/aegisledger/state.py:113-120 | the empty store |
| `StateStore.MemoryStateStore.ReserveProposal` | agentguard-testbed/src/aegisledger/state.py:133-170 | a repeated idempotency key changes nothing and returns the first record; otherwise exactly a permitted proposal with room gets a RESERVED record and a new active reservation of its scope and amount, any other a DENIED record with the reasons that apply |
| `StateStore.MemoryStateStore.TransitionTo` | agentguard-testbed/src/aegisledger/state.py:203-238 | only allowed transitions change the store, and only the record and its reservation: expiry and reverting release it, settlement settles it |
| `StateStore.MemoryStateStore.RegisterDecision` | agentguard-testbed/src/aegisledger/state.py:218-222 | a decision nonce registers exactly once |
| `StateStore.MemoryStateStore.RegisterWallet` | agentguard-testbed/src/aegisledger/state.py:224-229 | a wallet nonce registers exactly once per wallet and chain |
| `StateStore.MemoryStateStore.BudgetTotalsOf` | agentguard-testbed/src/aegisledger/state.py:240-258 | the pending and settled totals of the scope |
| `Reservations.ReserveKeepsMatched` | agentguard-testbed/src/aegisledger/state.py:133-170 | reserving keeps every record in step with its reservation |
| `Reservations.TransitionKeepsMatched` | agentguard-testbed/src/aegisledger/state.py:203-238 | so does every transition |
| `Reservations.RunKeepsMatched` | agentguard-testbed/src/aegisledger/state.py:133-238 | in every run in-flight records have active reservations, SETTLED ones settled, REVERTED and EXPIRED ones neither, and DENIED ones none; with fresh ids every reservation has its record |
| `Reservations.ReservedWerePermitted` | agentguard-testbed/src/aegisledger/state.py:133-201 | over every run a record that was ever RESERVED was permitted by the policy of the call that submitted it, with room under its limits at that moment |
| `Reservations.ReserveKeepsOwnedExactly` | agentguard-testbed/src/aegisledger/state.py:168 | reusing a proposal id under a new key orphans a reservation exactly when the overwritten record held one |
| `Reservations.ReusedIdOrphans` | agentguard-testbed/src/aegisledger/state.py:168 | a run: one id under two keys leaves a live reservation without a record |
| `Reservations.TransitionsNeverLackReservation` | agentguard-testbed/src/aegisledger/state.py:203-238 | in every reachable state a transition succeeds exactly if the lifecycle allows it; settlement never lacks a reservation |
| `Reservations.BudgetTotalsExactly` | agentguard-testbed/src/aegisledger/state.py:240-258 | in every reachable state, ids reused or not, the budget totals are the record sums plus what orphaned reservations hold, so each is right exactly when no orphan counts in it |
| `Reservations.BudgetTotalsAreRecords` | agentguard-testbed/src/aegisledger/state.py:240-258 | with fresh ids the budget totals are the in-flight and settled amounts over the records of the scope |
| `Reservations.GrantedLeavesRoom` | agentguard-testbed/src/aegisledger/state.py:176-201 | a granted reservation had room under every limit the policy enforces |
| `Reservations.SlidingWindowCaps` | agentguard-testbed/src/aegisledger/state.py:133-216 | in every run, for every scope and every window of the limit's length ending at any time, the amounts, or the number, of the active and settled reservations created in it stay within each rolling cap and the hourly count; policies may change as long as each is that strict |
| `Reconciler.MemorySettlementStore.constructor` | agentguard-testbed/src/aegisledger/reconciler.py:76-79 | nothing tracked |
| `Reconciler.MemorySettlementStore.RegisterTransaction` | agentguard-testbed/src/aegisledger/reconciler.py:81-92 | fails exactly for a hash bound otherwise or a proposal that has another transaction, changing nothing; a repetition changes nothing; a new hash is added as PENDING, unobserved, for that proposal and chain |
| `Reconciler.MemorySettlementStore.Pending` | agentguard-testbed/src/aegisledger/reconciler.py:94-96 | exactly the pending transactions, in registration order |
| `Reconciler.SettlementReconciler.Create` | agentguard-testbed/src/aegisledger/reconciler.py:293-309 | a reconciler exists exactly for a positive finality and backends registered under their own chain |
| `Reconciler.SettlementReconciler.PollTransaction` | agentguard-testbed/src/aegisledger/reconciler.py:311-339 | observing, transitioning and completing one transaction, with every way to raise, the backend's own exceptions included; no record changes its proposal |
| `Reconciler.SettlementReconciler.PollOnce` | agentguard-testbed/src/aegisledger/reconciler.py:311-339 | the loop polls the pending transactions in order and stops at the first raise, keeping earlier effects; every transaction keeps its proposal and chain |
| `Finality.HistoryGrows` | agentguard-testbed/src/aegisledger/reconciler.py:98-121 | a receipt extends the observed history: count of block changes, last observation and status all follow |
| `Finality.PollOneKeeps` | agentguard-testbed/src/aegisledger/reconciler.py:311-339 | polling one transaction touches only that transaction and the record it tracks |
| `Finality.FinalitySafety` | agentguard-testbed/src/aegisledger/reconciler.py:81-146 | in every run, whenever polls happen: a transaction is terminal exactly once a receipt with enough confirmations was seen, and its observation and reorg count are those of the receipts seen; if the run is timely, lifecycle state and reservation agree with the final receipt |
| `Finality.StepAgreesExactly` | agentguard-testbed/src/aegisledger/reconciler.py:311-339 | a step keeps lifecycle and tracking in agreement exactly when it is timely: no final receipt before SUBMITTED, only proposals on their way registered, tracked proposals left to the reconciler |
| `Finality.RunAgreesExactly` | agentguard-testbed/src/aegisledger/api.py:457-467 | both agree all along a run exactly when every step of it is timely, with registration and the move to SUBMITTED as separate steps |
| `Finality.PollSparesTerminal` | agentguard-testbed/src/aegisledger/reconciler.py:94-96 | no poll touches a terminal transaction or its record |
| `Finality.TerminalIsFinal` | agentguard-testbed/src/aegisledger/reconciler.py:94-121 | once terminal and in agreement, no further run changes the entry or the record |
| `Finality.FinalPollAgreesExactly` | agentguard-testbed/src/aegisledger/reconciler.py:323-339 | a final receipt leaves status and lifecycle in agreement exactly when the proposal was already SUBMITTED or had that outcome |
| `Finality.EarlyPollDisagrees` | agentguard-testbed/src/aegisledger/api.py:457-465 | a run: a poll between registering and SUBMITTED settles the transaction while the proposal is still SIGNED |
| `Finality.UnsignedRegistrationDisagrees` | agentguard-testbed/src/aegisledger/api.py:424-467 | a run: a retry registers the transaction of a proposal still RESERVED, which is not timely |
| `RateLimit.MemoryRateLimiter.constructor` | agentguard-testbed/src/aegisledger/rate_limit.py:17-19 | no windows |
| `RateLimit.MemoryRateLimiter.ConsumeOne` | agentguard-testbed/src/aegisledger/rate_limit.py:24-34 | invalid exactly for a limit or length below one, denied exactly when a running window is full; both change nothing; an admission adds one to the running window or opens a new one |
| `RateLimit.LimiterBound` | agentguard-testbed/src/aegisledger/rate_limit.py:24-34 | over every run with a monotone clock at most 2*limit-1 requests of a subject are admitted in any interval of one window's length |
| `RateLimit.BoundIsTight` | agentguard-testbed/src/aegisledger/rate_limit.py:24-34 | for every limit and window some run admits exactly 2*limit-1 |
| `RateLimit.ElapsedIsAdmitted` | agentguard-testbed/src/aegisledger/rate_limit.py:24-34 | a request a full window after the window's start is always admitted and opens a new window |
| `Mandates.MandateLedger.constructor` | agentguard-testbed/src/aegisledger/mandates.py:138-145 | the empty ledger |
| `Mandates.MandateLedger.ActiveMandate` | agentguard-testbed/src/aegisledger/mandates.py:241-251 | the recursive walk to the root, with its own clock reading at every level and a limited stack |
| `Mandates.MandateLedger.RegisterMandate` | agentguard-testbed/src/aegisledger/mandates.py:147-165 | succeeds exactly for a mandate signed by its issuer, unexpired and unseen, and under a parent issued by the active parent's delegate within its scope and remaining maximum; success records it with nothing spent and its nonce, a refusal changes nothing |
| `Mandates.MandateLedger.Revoke` | agentguard-testbed/src/aegisledger/mandates.py:167-174 | succeeds exactly for the issuer of a registered mandate; a refusal changes nothing |
| `Mandates.MandateLedger.ConsumeCart` | agentguard-testbed/src/aegisledger/mandates.py:180-239 | succeeds exactly for an unspent cart signed by its merchant, for the active mandate, this proposal and audience, paying the merchant in scope within the remaining maximum; success charges the amount and spends hash and nonce, a refusal changes nothing |
| `Mandates.MandateLedger.CheckCart` | agentguard-testbed/src/aegisledger/mandates.py:190-235 | a cart that passes is signed by its merchant, unspent by hash and by nonce, in the scope of the mandate, and fits its remaining budget |
| `Delegation.ActiveExactly` | agentguard-testbed/src/aegisledger/mandates.py:241-251 | in a forest the walk ends within as many calls as there are mandates; for one clock reading it succeeds exactly for a registered, unexpired mandate with no revoked ancestor, and for several readings it is bracketed by the earliest and the latest |
| `Delegation.AttenuatedAgainstAll` | agentguard-testbed/src/aegisledger/mandates.py:253-267 | a mandate is within the audience, scopes, maximum and expiry of every ancestor |
| `Delegation.RunKeepsForest` | agentguard-testbed/src/aegisledger/mandates.py:147-165 | every run with fresh ids builds a forest |
| `Delegation.RevocationCascades` | agentguard-testbed/src/aegisledger/mandates.py:167-174 | after a revocation no registration or consumption under any descendant ever succeeds, in any run, even one that registers ids again |
| `Delegation.RevokedForever` | agentguard-testbed/src/aegisledger/mandates.py:147-174 | no call takes a revocation back |
| `Delegation.LineageStays` | agentguard-testbed/src/aegisledger/mandates.py:147-165 | a lineage once registered stays through every run with fresh ids, so a later revocation reaches it |
| `Delegation.SpentIsPaid` | agentguard-testbed/src/aegisledger/mandates.py:176-239 | over every run what a mandate has spent is the sum of the payments made under it, at most its maximum, and no cart hash or merchant nonce is paid twice |
| `Delegation.PaymentsWithinEveryAncestor` | agentguard-testbed/src/aegisledger/mandates.py:180-267 | every payment made lies in the scope of every ancestor of its mandate |
| `Delegation.MandatesWereSigned` | agentguard-testbed/src/aegisledger/mandates.py:147-165 | over every run, ids reused or not, each mandate in the ledger came with its issuer's signature and met every condition of a registration at that moment |
| `Delegation.PaymentsWereAllowed` | agentguard-testbed/src/aegisledger/mandates.py:180-239 | over every run each payment was made by a call that met every condition of a consumption at that moment |
| `Delegation.SpentIsPaidExactly` | agentguard-testbed/src/aegisledger/mandates.py:147-239 | over every run, ids reused or not: no cart is paid twice, no mandate has spent more than its maximum or more than was paid under it, and all have spent exactly what was paid precisely when no registration hit an id with money spent |
| `Delegation.RegistrationAttenuatesExactly` | agentguard-testbed/src/aegisledger/mandates.py:160-165 | a registration keeps every mandate within its parent exactly when the children the id already has are within the new mandate |
| `Delegation.NarrowedParent` | agentguard-testbed/src/aegisledger/mandates.py:160-165 | a run: a parent registered again with a narrower scope than its child has |
| `Delegation.ReregistrationEndsExactly` | agentguard-testbed/src/aegisledger/mandates.py:160-165 | registering an id again makes the walk endless exactly when the id lies above its new parent; otherwise the mandate is active unless revoked |
| `Delegation.ReregistrationForgets` | agentguard-testbed/src/aegisledger/mandates.py:163-164 | a run: one unit paid, the id registered again, nothing counted as spent |
| `Delegation.ReregistrationLoops` | agentguard-testbed/src/aegisledger/mandates.py:160-165 | a run: a mandate registered again under its own child, whose walk exhausts every stack |
| `Amm.ConstantProductAMM.constructor` | agentguard-testbed/src/agentwallet/chain/ledger.py:139-142 | positive reserves |
| `Amm.ConstantProductAMM.SwapTokens` | agentguard-testbed/src/agentwallet/chain/ledger.py:152-162 | a refused swap changes nothing; otherwise the reserve of the token sold grows by the input and the other falls by the output, which is at least the floor |
| `Amm.QuoteIsLargest` | agentguard-testbed/src/agentwallet/chain/ledger.py:147-150 | the quote is the largest integer the fee-reduced input pays for |
| `Amm.QuoteInNumbers` | agentguard-testbed/src/agentwallet/chain/ledger.py:136-150 | the same for each token in numbers: 9970 of every 10000 units of the input count |
| `Amm.FloorDivFloors` | agentguard-testbed/src/agentwallet/chain/ledger.py:147-150 | the division rounds towards minus infinity for either sign of the divisor |
| `Amm.SwapKeepsProduct` | agentguard-testbed/src/agentwallet/chain/ledger.py:147-162 | a swap pays less than the reserve, keeps both reserves positive and never lowers their product |
| `Amm.Traded` | agentguard-testbed/src/agentwallet/chain/ledger.py:152-162 | over any sequence of swaps the reserves stay positive and the product never falls |
| `Amm.RoundTripLoses` | agentguard-testbed/src/agentwallet/chain/ledger.py:147-162 | selling back exactly what a swap bought returns strictly less than was paid |
| `Amm.SplittingNeverPays` | agentguard-testbed/src/agentwallet/chain/ledger.py:147-162 | any list of same-direction inputs yields at most the single quote on their sum |
| `Amm.SandwichBound` | agentguard-testbed/src/agentwallet/chain/ledger.py:147-162 | trades around an executed swap of v with floor min_out, of either token, gain at most P with (in+v-P)*(out-min_out) >= in*out |
| `LocalChain.TransferConserves` | agentguard-testbed/src/agentwallet/chain/ledger.py:125-131 | a transfer keeps the supply and non-negative balances and changes only the two parties, also when they are the same |
| `LocalChain.TestToken.Mint` | agentguard-testbed/src/agentwallet/chain/ledger.py:119-120 | minting raises the total supply by exactly the amount, all of it in one balance |
| `LocalChain.TestToken.TransferTokens` | agentguard-testbed/src/agentwallet/chain/ledger.py:125-131 | a refused transfer changes nothing |
| `LocalChain.SwapKeepsBacking` | agentguard-testbed/src/agentwallet/chain/ledger.py:251-261 | after its checks a swap fails only for a zero input or a zero quote, never for lack of pool funds; supplies and backing are kept |
| `LocalChain.BlockKeepsBacking` | agentguard-testbed/src/agentwallet/chain/ledger.py:232-261 | over any block of ordinary transactions supplies are conserved, balances stay non-negative, the pool account covers the reserves, and every transaction has a receipt |
| `LocalChain.TransferEffects` | agentguard-testbed/src/agentwallet/chain/ledger.py:246-250 | a transfer settles exactly when no hook rejects it, it has a recipient and the sender holds the positive amount; it moves that amount of that token from sender to recipient, and nothing else changes |
| `LocalChain.SwapEffects` | agentguard-testbed/src/agentwallet/chain/ledger.py:251-261 | a swap settles exactly when no hook rejects it, the sender holds the positive input and the quote is positive and not below the floor; the input goes to the pool account and its reserve, the quote comes from them to the sender, and nothing else changes |
| `LocalChain.BlockEffects` | agentguard-testbed/src/agentwallet/chain/ledger.py:232-261 | over a block of ordinary transactions every balance in both tokens and both reserves are the old ones plus what the receipts say, one receipt per transaction, in order |
| `LocalChain.FailedIsNoOpExactly` | agentguard-testbed/src/agentwallet/chain/ledger.py:241-261 | an ordinary transaction that failed has changed nothing exactly if it is not a dust swap: unhooked, funded, without a floor and quoted at zero |
| `LocalChain.DustSwapTakesInput` | agentguard-testbed/src/agentwallet/chain/ledger.py:255-257 | a swap quoted at zero fails after its input has moved |
| `LocalChain.DustIsTaken` | agentguard-testbed/src/agentwallet/chain/ledger.py:255-257 | such a swap on a concrete ledger |
| `LocalChain.NegativeSwapKeepsBackingExactly` | agentguard-testbed/src/agentwallet/chain/ledger.py:255-257 | a negative swap keeps the backing exactly when its floor stops it, or the sold reserve stays positive and the pool account's surplus covers the growth of the other reserve |
| `LocalChain.NegativeSwapOnFreshChain` | agentguard-testbed/src/agentwallet/chain/ledger.py:173-180 | a run: the first block of a new chain loses the backing to one negative swap |
| `LocalChain.Chain.constructor` | agentguard-testbed/src/agentwallet/chain/ledger.py:173-187 | the pool account is funded with the reserves, so the chain starts backed |
| `LocalChain.Chain.ExecuteTx` | agentguard-testbed/src/agentwallet/chain/ledger.py:241-261 | hooks, transfers and swaps with every failure receipt; an ordinary transaction does to every account and to the pool exactly what its receipt says |
| `LocalChain.Chain.SwapTx` | agentguard-testbed/src/agentwallet/chain/ledger.py:251-258 | the three updates of a swap, in the order that makes a later failure keep the earlier ones |
| `LocalChain.Chain.MineBlock` | agentguard-testbed/src/agentwallet/chain/ledger.py:232-239 | the mempool is emptied into one block; over ordinary transactions supplies and backing are kept and every balance changes by what the receipts say |
| `SigningGate.SignerAuthorizationGate.constructor` | agentguard-testbed/src/aegisledger/signing.py:111-126 | nothing used, all nonces zero |
| `SigningGate.SignerAuthorizationGate.ValidateAndConsume` | agentguard-testbed/src/aegisledger/signing.py:128-139 | accepts exactly the acceptable requests; a rejected one leaves the gate unchanged, an accepted one spends its decision and moves the wallet's nonce on by one |
| `SigningGate.TxOf` | agentguard-testbed/src/aegisledger/signing.py:61-74 | a binding that passes the shape rule stands for a well-formed transaction |
| `SigningGate.ShapeExactly` | agentguard-testbed/src/aegisledger/signing.py:61-74 | the shape rule: a transfer has a recipient, the native asset, its amount as value and nothing else; a swap a contract and a selector and no recipient; no priority fee above the maximum |
| `SigningGate.RawBindsExactly` | agentguard-testbed/src/aegisledger/signing.py:212-233 | the comparisons of the decoded payload pass for exactly one byte string: the canonical encoding of the binding |
| `SigningGate.AcceptsExactBytes` | agentguard-testbed/src/aegisledger/signing.py:141-233 | for every request acceptance is a plain conjunction: in time and signed by the policy signer for this proposal, reservation, chain and nonce; decision and nonce unused; hashes those of the payloads; the typed-data payload the prefix 0x1901, 32 bytes and the proposal's hash; a binding that carries out the proposal; and the one payload that spells the binding |
| `SigningGate.AcceptedPerforms` | agentguard-testbed/src/aegisledger/signing.py:61-74 | the signed bytes of an accepted request transfer the proposal's amount to its recipient without calldata, or call its contract with its calldata, with the wallet's next nonce on its chain |
| `SigningGate.AcceptKeepsOrder` | agentguard-testbed/src/aegisledger/signing.py:173-181 | accepting keeps the gate's memory in step with what it accepted |
| `SigningGate.NoncesInOrder` | agentguard-testbed/src/aegisledger/signing.py:128-181 | over every run the accepted nonces of a wallet and chain are 0, 1, 2, ... and decision nonces are distinct |
| `SigningGate.AcceptedWereBound` | agentguard-testbed/src/aegisledger/signing.py:128-233 | over every run each accepted request was authorized when it was offered, its hashes are bound to its proposal, and its payload performs it |
| `Execution.SignerService.constructor` | agentguard-testbed/signer/src/main.rs:135-139 | the default replay state |
| `Execution.SignerService.PersistReplayState` | agentguard-testbed/signer/src/main.rs:299-339 | after success a restart reads the new state, or nothing if it has outgrown the limit; after a failure it reads the new state or one that was possible before |
| `Execution.SignerService.Restart` | agentguard-testbed/signer/src/main.rs:270-297 | the signer starts exactly if what is on disk loads, and then with that state |
| `Execution.SignerService.SignAuthorizedTransaction` | agentguard-testbed/signer/src/main.rs:597-622 | signs exactly an unused decision with the account's next nonce whose state, if a file is configured, was written; then that file holds the new state and memory moves to it; a refusal or a failed write leaves memory unchanged |
| `ReplayFile.LoadReplayState` | agentguard-testbed/signer/src/main.rs:270-297 | no file is the default state; a file over 16 MiB, an unknown schema or a repeated account is refused; otherwise both parts are rebuilt |
| `ReplayFile.LoadUndoesPersist` | agentguard-testbed/signer/src/main.rs:270-339 | what is persisted, sorted, loads as exactly the same state, precisely while its document is within 16 MiB |
| `ReplayFile.LoadsExactly` | agentguard-testbed/signer/src/main.rs:274-296 | a file loads as a state exactly when it is small enough, has the schema and lists that state, each account once |
| `ReplayFile.SizeIsWritten` | agentguard-testbed/signer/src/main.rs:141-155 | the size compared with the limit is the length of the JSON document with its newline, decision nonces being 36 characters |
| `ReplayFile.OutgrownFileIsRefused` | agentguard-testbed/signer/src/main.rs:275-277 | with 430,186 used decisions the signer writes a file it refuses to start from |
| `ReplayFile.Sorted` | agentguard-testbed/signer/src/main.rs:303-315 | the sorted listing holds exactly the elements, each once, in ascending order |
| `Execution.MemoryAuthorizationArtifactStore.constructor` | agentguard-testbed/src/aegisledger/artifact_store.py:75-78 | nothing stored |
| `Execution.MemoryAuthorizationArtifactStore.PutDecisionOnce` | agentguard-testbed/src/aegisledger/artifact_store.py:83-91 | the first decision of a proposal wins and every caller gets it |
| `Execution.MemoryAuthorizationArtifactStore.PutExecutionOnce` | agentguard-testbed/src/aegisledger/artifact_store.py:97-103 | the first execution of a proposal wins and every caller gets it |
| `Execution.MemoryAuthorizationArtifactStore.MarkAsSubmitted` | agentguard-testbed/src/aegisledger/artifact_store.py:109-117 | only the first submission time is kept and nothing else changes |
| `CrashSafety.SignKeepsSafe` | agentguard-testbed/signer/src/main.rs:597-622 | whatever happens to the write, memory and every state the file may hold refuse all earlier grants |
| `CrashSafety.RunKeepsSafe` | agentguard-testbed/src/aegisledger/api.py:389-500 | every step of service and signer, and every crash, keeps the safety invariant |
| `CrashSafety.GrantedAtMostOnce` | agentguard-testbed/signer/src/main.rs:597-622 | in every run with a replay file each decision nonce, each wallet nonce and each proposal is signed at most once |
| `CrashSafety.BroadcastsAreTheSignedBytes` | agentguard-testbed/src/aegisledger/api.py:442-456 | whatever is broadcast for a proposal is the one raw transaction ever signed for it |
| `CrashSafety.BroadcastsAgree` | agentguard-testbed/src/aegisledger/api.py:442-456 | all broadcasts of a proposal carry the same bytes, and those were granted |
| `CrashSafety.NoncesStaySmall` | agentguard-testbed/signer/src/main.rs:610-614 | the next nonce, now or after any restart, never exceeds the number of steps, so the 64-bit increment cannot wrap earlier |
| `CrashSafety.RestartWithoutFileForgets` | agentguard-testbed/signer/src/main.rs:615-621 | without a replay file one restart lets a decision be signed twice |
| `CrashSafety.SafeExactlyWithFile` | agentguard-testbed/signer/src/main.rs:615-621 | all runs sign at most once exactly when a replay file is configured |
| `Service.BuiltRequestsAreAccepted` | agentguard-testbed/src/aegisledger/api.py:307-374 | a sign request the service builds is accepted by the gate exactly when it is authorized: never refused for shape, hashes or bytes |
| `Service.AuthorizationNames` | agentguard-testbed/src/aegisledger/api.py:307-374 | the sign request carries the record's proposal and reservation, the stored decision, the caller's nonce, value and fees, and the hashes of its payloads, and expires with the earlier of decision and proposal |
| `Service.MatchesExactly` | agentguard-testbed/src/aegisledger/api.py:376-387 | a stored execution matches a request exactly when the same sign request would be built again |
| `Service.ServiceContainer.SubmitProposal` | agentguard-testbed/src/aegisledger/api.py:278-305 | reserve, then issue at most one decision per proposal, journal it only then, and return the stored one; a new decision allows exactly a reserved record and names its hash, version and reservation |
| `Service.ServiceContainer.AskSigner` | agentguard-testbed/src/aegisledger/api.py:415-416 | one signing step of the crash protocol |
| `Service.ServiceContainer.StoreReply` | agentguard-testbed/src/aegisledger/api.py:423-424 | one storing step of the crash protocol |
| `Service.ServiceContainer.RegisterNonces` | agentguard-testbed/src/aegisledger/api.py:417-422 | both nonces are registered in order, each only once |
| `Service.ServiceContainer.SignOnce` | agentguard-testbed/src/aegisledger/api.py:415-424 | a signature is stored only if the signer granted it and both nonces were new, and never over a stored one |
| `Service.ServiceContainer.SignAndStore` | agentguard-testbed/src/aegisledger/api.py:409-438 | sign, store, match, move to SIGNED and journal it; a newly stored execution is the request built from record and decision with the signer's bytes; wherever it stops, a run of the crash protocol has happened and nothing was journaled |
| `Service.ServiceContainer.BroadcastStored` | agentguard-testbed/src/aegisledger/api.py:442-489 | only the stored bytes are broadcast, and not again once known to be submitted; a backend that raises or names another hash leaves them unmarked and untracked; on success a SIGNED record is SUBMITTED and any other unchanged; the transaction is tracked exactly if it was unsubmitted, or its record SIGNED, or it was tracked before, and a new entry is PENDING for this proposal on the chain of the stored request, with no other entry changed |
| `Service.ServiceContainer.TrackSubmitted` | agentguard-testbed/src/aegisledger/api.py:457-467 | the transaction is tracked, for this proposal and chain, before the record moves to SUBMITTED; a conflicting registration changes nothing |
| `Service.ServiceContainer.ExecuteProposal` | agentguard-testbed/src/aegisledger/api.py:389-500 | an unknown proposal, another principal, a chain without backend, another stored execution, and without one a record that is not RESERVED or has no decision, is refused before anything is signed or changed; on success the stored execution is the requested one and submitted, with the exact lifecycle state, tracked entry (this proposal, its chain) and journal of a first execution and of a retry; in every case the safety of the crash protocol is kept and stored bytes never change |
| `ServiceRuns.ServeAll` | agentguard-testbed/src/aegisledger/api.py:278-500 | over every run of submissions, executions and polls from empty stores each tracked transaction carries the id of the proposal whose stored bytes have its hash, and that proposal's chain |
| `ServiceRuns.Serve` | agentguard-testbed/src/aegisledger/api.py:278-500 | every single call or poll keeps that, whatever it meets |
| `StoppedWorkers.LosesTracking` | agentguard-testbed/src/aegisledger/api.py:424-489 | a run: two workers stop, the third reports success, and the broadcast transaction is untracked with its record still RESERVED |
| `ValueSafety.RunIsSound` | agentguard-testbed/src/aegisledger/api.py:278-374 | in every run decisions repeat their records, and every accepted request used the stored decision of its reservation's owner |
| `ValueSafety.ReservationSpentOnce` | agentguard-testbed/src/aegisledger/signing.py:173-181 | no reservation is spent by two accepted requests |
| `ValueSafety.GenuineOrCollision` | agentguard-testbed/src/aegisledger/signing.py:159-162 | the accepted proposal is the recorded one, or two proposals have the same hash |
| `ValueSafety.DecisionsMatchRecords` | agentguard-testbed/src/aegisledger/api.py:278-305 | over every run with fresh ids a stored decision names the hash and reservation of its record and allows it exactly when the record was not denied |
| `ValueSafety.AcceptedWerePermitted` | agentguard-testbed/src/aegisledger/api.py:278-416 | end to end: over every run with fresh ids, unless a proposal hash collided, every accepted payload was submitted under a policy that allows what its bytes do: a transfer pays a recipient of that policy at most its cap per transaction, a swap calls a contract it lists, on an enabled chain |
| `ValueSafety.CountedWeighs` | agentguard-testbed/src/aegisledger/signing.py:61-233 | an accepted payload moves exactly what its live reservation holds |
| `ValueSafety.AcceptedValueWithinCap` | agentguard-testbed/src/aegisledger/state.py:133-216 | end to end: over every run and every rolling window, unless a proposal hash collided, the decoded value (or the number) of all accepted, unreverted transfer payloads of a scope whose proposal has not expired is at most the cap, and that of all of them exceeds it by at most the expired ones |
| `ValueSafety.WithinCapUnlessLapsed` | agentguard-testbed/src/aegisledger/state.py:133-238 | so it is within the cap if none of the counted proposals expired |
| `ValueSafety.StepIsCurrentExactly` | agentguard-testbed/src/aegisledger/state.py:203-238 | a step leaves every accepted payload with an unexpired proposal exactly when they were so and the step is prompt: no proposal named by an accepted request expires, no request of an expired proposal is accepted |
| `ValueSafety.RunIsCurrentExactly` | agentguard-testbed/src/aegisledger/state.py:203-238 | over every run: no accepted payload belongs to an expired proposal exactly when every step was prompt |
| `ValueSafety.PromptRunWithinCap` | agentguard-testbed/src/aegisledger/api.py:278-416 | in every run of prompt steps everything accepted is within the cap, for every scope and window |
| `ExpiryRuns.LateExpiryDoublesCap` | agentguard-testbed/src/aegisledger/state.py:203-238 | a run for every positive cap below 2^256: submit, accept, expire, submit, accept: twice the cap in one window, with no collision |
| `ExpiryRuns.LateAcceptanceDoublesCap` | agentguard-testbed/src/aegisledger/api.py:410-416 | a run for every positive cap below 2^256: submit, expire, submit, accept, accept, with the same outcome |
| `ExpiryRuns.WithinCapExactly` | agentguard-testbed/src/aegisledger/state.py:203-238 | over all runs the accepted value stays within the cap exactly under both guards: neither may an accepted proposal expire, nor an expired one be accepted |

## Left out

- PostgreSQL adapters and migrations: only the in-memory stores are modelled; `CrashSafety` takes the decision and execution stores to be durable, as the SQL ones are.
- Ed25519, secp256k1, SHA-256, Keccak and RFC 8785 canonical JSON: function parameters.
- HTTP routes, body limits, authentication, gRPC and JSON-RPC clients, settings and metrics.
- Hex text, letter case and pydantic parsing: records are already validated, and the address a text names is a function parameter.
- Fields nothing looks at: record timestamps, transaction ids, enclave evidence; what an audit event of the service says beyond its kind, proposal and actor.
- Reservation ids are positions in the list of reservations, which says that a fresh UUID never collides.
- The local ledger's mempool authorization (`submit`, nonces, signatures): blocks are proved for any mempool.
- The Rust signer's own parsing and binding checks: the reference gate is modelled instead.
- Anchoring services, retention stores, attestations, policy registry, experiments, console and release tooling: outside the path from proposal to settlement.
- Mandates.MandateLedger.ActiveMandate: the interpreter's stack depth is a parameter.
- Mandates.MandateLedger.RegisterMandate: a child's spending is not charged to its parent, so no tree-wide budget is claimed.
- Rlp.DecodeComplete: for encodings shorter than 2^64 bytes, the longest that eight length bytes can announce.
- RateLimit.LimiterBound: seconds are exact integers, not floating-point differences.
- ReplayFile.LoadReplayState: that the path is a regular file and its permissions are not modelled; decision nonces and accounts are ordered as numbers and bytes rather than as text.
- Execution.SignerService.SignAuthorizedTransaction: nonces are unbounded integers; `CrashSafety.NoncesStaySmall` bounds them by the number of steps.
- Service.ServiceContainer.ExecuteProposal: the process-wide lock is not modelled; the crash protocol allows any interleaving of workers. The transaction hash is a function of the raw bytes.
- CrashSafety.RunKeepsSafe: a service with in-memory artifact stores loses them at a restart and is not covered.
- LocalChain.BlockKeepsBacking: excludes transactions of the pool account, swaps of a token for itself and negative swaps.
- LocalChain.BlockEffects: the same transactions are excluded; a transfer alone is covered from any ledger.
