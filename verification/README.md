# Opaque: a verified model

A Dafny model of the parts of the broker whose correctness is a matter of state and history, with the
guarantees they make proved for every input and every run. `dafny verify dfyconfig.toml` checks it.

**The scope authority ledger** (`Scope*.dfy`, on `Order.dfy`). A durable forest of scopes: reserving an
attempt permanently charges every ancestor or none, a dispatch is claimed once, outcomes never refund,
revocation and expiry cover subtrees, time is a stored high-water mark, a restart turns unfinished
attempts UNKNOWN, and an append-only log shadows the tables. `ScopeLedger` gives the transactions as
functions of the tables, `ScopeAnswers` the whole answer of each call in terms of the forest and its
attempts; `ScopeStorage.ScopeStore` carries them out row by row, with a savepoint, and is proved to
compute exactly those functions. `ScopeConsistency.Consistent` says over whole tables what a coherent
ledger is; it is proved to hold in every reachable ledger, and the offline evidence validator
(`ScopeEvidence`, `ScopeEventCheck`, `ScopeValidation`) is proved to accept exactly the consistent
ledgers. Runs are arbitrary sequences of calls with arbitrary arguments, guards and clock readings,
crashes before commit, lost acknowledgements and reopenings. The contract checks of `scope.rs`
(`ScopeContracts`) are passed to the ledger as function values: the ledger is proved for all checks that
satisfy `ScopeTypes.Lawful`, and the shipped ones are proved lawful.

**The SSH host ledger and broker control** (`Ssh*.dfy`). Two writers over one grants table, with a clock
that may read anything. Runs interleave command-line and signed grants and revocations, reservations, any
claims presented to finish, and restarts. `SshSteps` says what each step does to the rows and tells a
grant's life from the steps of a run.

**FIDO2 approvals** (`Fido2*.dfy`, `ApprovalRounds.dfy`). The credential store, the two-phase approval
rounds shared by the FIDO2 factor and the device server, and their composition. Encodings, hashing and
signatures are function values that may be anything.

**Evidence analyses and gates** (`Audit*.dfy`, `TokenTrees.dfy`, `Cfg*.dfy`, `CoverageRatchet.dfy`). The
bounded anomaly tracker against an unbounded one and against the records themselves, the replay-tolerant
export checker, the reader of Rust compile conditions against their meaning under every configuration,
and the exact coverage ratchet.

Where code and comment could be read differently the code is followed. `Lawful` asks nothing of child
budgets beyond what `validate_child_of` enforces. Grant ids, policy names, scope ids, digests and bounded
values are checked as the source checks them.

Two promises hold only under a condition, which is proved exact. A repeated assertion is refused by its
counter if and only if the authenticator counts (`Fido2Theorems.RepeatedAtOnce`; `UncountedRepeats` is an
assertion accepted twice). What then keeps one touch from approving twice is that challenges are fresh
(`Fido2Approvals.OneTouchOneApproval`; `SharedChallenge` shows it fail without). An approval answers its
waiter's own challenge if and only if the request id was not begun again while the responder was between
lookup and answer (`ApprovalRounds.ReusedRequest` shows it fail, `ApprovalRounds.MatchesUnlessRestarted`
is the condition, `ApprovalRounds.AnswersOwnChallenge` the case the brokers rely on).

## Model

| member | source | states |
|---|---|---|
| ScopeContracts.CanonGrantIdempotent | crates/opaque-core/src/scope.rs:113-187 | a canonical grant canonicalises to itself, so stored grants compare equal |
| ScopeContracts.CanonActionIdempotent | crates/opaque-core/src/scope.rs:256-292 | the same for prepared actions |
| ScopeContractLaws.CanonGrantExact | crates/opaque-core/src/scope.rs:113-187 | a grant has a canonical form exactly when every name, digest, text, limit and list is as the contract bounds it, nothing is repeated and it fits its size; another version is told apart |
| ScopeContractLaws.CanonActionExact | crates/opaque-core/src/scope.rs:256-292 | the same for prepared actions |
| ScopeContractLaws.CanonGrantForm | crates/opaque-core/src/scope.rs:113-187 | the canonical form is the same grant with every list sorted |
| ScopeContractLaws.CanonActionForm | crates/opaque-core/src/scope.rs:256-292 | the same for prepared actions |
| ScopeContractLaws.ChildExact | crates/opaque-core/src/scope.rs:193-235 | a child is accepted exactly when both grants are canonical and it narrows its parent in every respect, whatever order lists were written in |
| ScopeContractLaws.LineTightens | crates/opaque-core/src/scope.rs:208-228 | along a line of any length no descendant escapes a policy, approval or evaluator check of an ancestor |
| ScopeContractLaws.FitsExact | crates/opaque-core/src/scope.rs:298-318 | an action fits a grant exactly when both are canonical, it names that grant and every value it sets is allowed |
| ScopeContractLaws.AdmitsExact | crates/opaque-core/src/scope.rs:390-445 | evidence admits an action exactly when it is bound to it, fresh, reviewed as required and fully evaluated |
| ScopeContractLaws.AdmitsRefused | crates/opaque-core/src/scope.rs:390-445 | which error refused evidence meets first: its version, the action, its binding, its review, its receipts |
| ScopeContractLaws.EvaluatorsRefused | crates/opaque-core/src/scope.rs:425-443 | repeated checks are invalid, otherwise the first refused receipt decides, otherwise a check without a receipt is missing evidence |
| ScopeContracts.ChildNarrows | crates/opaque-core/src/scope.rs:193-235 | a child accepted under a parent has no resource, field value, time, delegation or budget the parent lacks |
| ScopeContracts.AdmitsFits | crates/opaque-core/src/scope.rs:390-445 | accepted evidence is fresh, ends with the grant, and its action lies inside the grant |
| ScopeContracts.StandardLawful | crates/opaque-core/src/scope.rs:112-445 | the shipped checks satisfy every law the ledger relies on, for every codec |
| ScopeForest.ChainIsLine | crates/opaque-bounded-work/src/scope_store.rs:756-773 | on a sound table the bounded walk never fails for a stored scope and returns exactly its line of ancestors |
| ScopeForest.ActiveIsLine | crates/opaque-bounded-work/src/scope_store.rs:774-787 | the active walk succeeds exactly when every ancestor is unrevoked and inside its window |
| ScopeForest.LineNarrows | crates/opaque-bounded-work/src/scope_store.rs:769-772 | narrowing composes along a line of any length |
| ScopeStorage.ReadChain | crates/opaque-bounded-work/src/scope_store.rs:756-773 | the walking loop ends and computes the specified chain or error |
| ScopeStorage.ReadActiveChain | crates/opaque-bounded-work/src/scope_store.rs:774-787 | computes the specified active chain, whose rows are stored rows with distinct ids |
| ScopeStorage.SortedIds | crates/opaque-bounded-work/src/scope_store.rs:749-755 | lists a set of ids in the one strictly rising order |
| ScopeStorage.ReadEvidence | crates/opaque-bounded-work/src/scope_store.rs:826-858 | succeeds exactly when every row loads, and then describes the ledger exactly, rows in order |
| ScopeStorage.VerifyAll | crates/opaque-bounded-work/src/scope_store.rs:860-868 | accepts exactly the consistent ledgers, whatever is in the tables |
| ScopeStorage.ScopeStore.constructor | crates/opaque-bounded-work/src/scope_store.rs:188-198 | a new database is empty and consistent |
| ScopeStorage.ScopeStore.AppendEvent | crates/opaque-bounded-work/src/scope_store.rs:788-815 | appends the next sequence number, or fails and changes nothing when 64-bit numbers are used up |
| ScopeStorage.ScopeStore.ChargeChain | crates/opaque-bounded-work/src/scope_store.rs:317-321 | saving the chain row by row charges every scope of the chain once and no other |
| ScopeStorage.ScopeStore.IssueBody | crates/opaque-bounded-work/src/scope_store.rs:244-287 | computes the issue transaction: idempotent answer, refusals in order, or a stored row with its event |
| ScopeStorage.ScopeStore.FindDuplicate | crates/opaque-bounded-work/src/scope_store.rs:304-308 | the answer to a duplicate does not depend on which matching row is found |
| ScopeStorage.ScopeStore.ReserveBody | crates/opaque-bounded-work/src/scope_store.rs:303-327 | computes the reserve transaction over the whole ancestry |
| ScopeStorage.ScopeStore.ClaimBody | crates/opaque-bounded-work/src/scope_store.rs:338-365 | computes the claim transaction |
| ScopeStorage.ScopeStore.FinishBody | crates/opaque-bounded-work/src/scope_store.rs:375-401 | computes the finish transaction |
| ScopeStorage.ScopeStore.RevokeBody | crates/opaque-bounded-work/src/scope_store.rs:406-421 | computes the revoke transaction; revoking again changes nothing |
| ScopeStorage.ScopeStore.Begin | crates/opaque-bounded-work/src/scope_store.rs:599-607 | refuses unreadable metadata and a clock behind the stored time, otherwise stores the time |
| ScopeStorage.ScopeStore.Transact | crates/opaque-bounded-work/src/scope_store.rs:594-616 | a failed body leaves exactly the observed time; a successful one leaves exactly its tables |
| ScopeStorage.ScopeStore.Invoke | crates/opaque-bounded-work/src/scope_store.rs:235-423 | every public call leaves exactly the specified tables and reply, and a consistent ledger |
| ScopeStorage.ScopeStore.InterruptOne | crates/opaque-bounded-work/src/scope_store.rs:210-226 | an unfinished attempt becomes UNKNOWN with one interruption event, any other row is untouched |
| ScopeStorage.ScopeStore.InterruptAll | crates/opaque-bounded-work/src/scope_store.rs:209-227 | recovers every attempt in id order, or fails where the specification fails |
| ScopeStorage.ScopeStore.Open | crates/opaque-bounded-work/src/scope_store.rs:202-233 | opens exactly when the specification does, with all recovery committed or nothing changed, and leaves a consistent ledger |
| ScopeStorage.ScopeStore.ExportEvidence | crates/opaque-bounded-work/src/scope_store.rs:436-449 | an open ledger exports evidence that describes it exactly, and is refused only for exceeding the 64 MiB bound |
| ScopeStorage.ExportsExtend | crates/opaque-core/src/scope_evidence.rs:165-218 | exports taken at any two points of any run are valid and the later extends the earlier |
| ScopeRuns.ApplyKept | crates/opaque-bounded-work/src/scope_store.rs:235-423 | any call, whatever its arguments, guard and outcome, keeps consistency and only evolves the ledger |
| ScopeRuns.RecoverCounts | crates/opaque-bounded-work/src/scope_store.rs:209-227 | recovery changes just the listed unfinished rows and fails only if the log cannot hold one event for each |
| ScopeTheorems.OpenExact | crates/opaque-bounded-work/src/scope_store.rs:202-233 | a consistent ledger opens if and only if the owner matches and the log has room; afterwards nothing is unfinished |
| ScopeTheorems.ReachableConsistent | crates/opaque-bounded-work/src/scope_store.rs:134-616 | every reachable ledger is consistent, and each later one evolves each earlier one |
| ScopeTheorems.FailureIsClockOnly | crates/opaque-bounded-work/src/scope_store.rs:605-616 | a failed call changes nothing except, at most, the observed time |
| ScopeAdmission.IssueExact | crates/opaque-bounded-work/src/scope_store.rs:235-288 | exactly when a scope is issued; narrowing alone keeps ancestries short, so the explicit depth check refuses nothing |
| ScopeAdmission.ReserveExact | crates/opaque-bounded-work/src/scope_store.rs:292-328 | exactly when a proposal is accepted: the same action again, or no collision, an active ancestry whose every subtree has fewer attempts than its limit and room for the resource, and evidence and guard that admit it |
| ScopeAdmission.ClaimExact | crates/opaque-bounded-work/src/scope_store.rs:331-366 | exactly when a dispatch is claimed: the attempt is reserved and still fully authorised at that moment |
| ScopeAdmission.FinishExact | crates/opaque-bounded-work/src/scope_store.rs:369-402 | exactly when an outcome is recorded; acceptance only for a claimed attempt |
| ScopeAdmission.RevokeExact | crates/opaque-bounded-work/src/scope_store.rs:405-422 | exactly when a revocation succeeds |
| ScopeAdmission.OutcomeStands | crates/opaque-bounded-work/src/scope_store.rs:368-402 | a recorded outcome is what every later reader sees; no run rewrites or refunds it |
| ScopePaths.LoadScopeExact | crates/opaque-bounded-work/src/scope_store.rs:687-707 | a scope row is returned exactly when it is stored under its own id, canonical and carries its own digest; absence and an invalid grant are told apart |
| ScopePaths.LoadActionExact | crates/opaque-bounded-work/src/scope_store.rs:718-738 | the same for action rows |
| ScopePaths.ChainExact | crates/opaque-bounded-work/src/scope_store.rs:756-773 | on any table the walk succeeds exactly on a readable path from the scope to a root, at most nine rows long, each narrowing the next |
| ScopePaths.ActiveExact | crates/opaque-bounded-work/src/scope_store.rs:774-787 | the ancestry is active exactly when the walk succeeds and every row is unrevoked and inside its window |
| ScopePaths.UnreadableRefused | crates/opaque-bounded-work/src/scope_store.rs:235-422 | on any table a row that does not read is never acted on: its own error is the answer |
| ScopePaths.StaleRefused | crates/opaque-bounded-work/src/scope_store.rs:594-617 | no call changes a ledger whose owner is invalid, whose time is negative or whose time is ahead of the call; any other call records its time |
| ScopePaths.FreshExact | crates/opaque-bounded-work/src/scope_store.rs:188-200 | a new ledger holds nothing and takes any call of its owner that is not dated before time zero |
| Order.LessExact | crates/opaque-bounded-work/src/scope_store.rs:749-751 | the order of listings is that of the first place two ids differ, a prefix first |
| ScopeAnswers.IssueAnswer | crates/opaque-bounded-work/src/scope_store.rs:235-288 | the whole answer of issuing: the error of the first reason against it, or the row now stored, with every table |
| ScopeAnswers.ReserveAnswer | crates/opaque-bounded-work/src/scope_store.rs:292-328 | the whole answer of reserving: the error of the first reason against it, or the row now stored; every ancestor is charged once and no other scope |
| ScopeAnswers.ClaimAnswer | crates/opaque-bounded-work/src/scope_store.rs:331-366 | the whole answer of a dispatch claim: the error of the first reason against it, or the claimed row now stored |
| ScopeAnswers.FinishAnswer | crates/opaque-bounded-work/src/scope_store.rs:369-402 | the whole answer of recording an outcome: why it is refused, or the ended row now stored |
| ScopeAnswers.RevokeAnswer | crates/opaque-bounded-work/src/scope_store.rs:405-422 | the whole answer of a revocation: a missing scope, the row as it was, or the row marked now |
| ScopeAnswers.RecoverLog | crates/opaque-bounded-work/src/scope_store.rs:209-227 | recovery logs one interruption per unfinished attempt, in id order and without a time |
| ScopeTheorems.SingleDispatch | crates/opaque-bounded-work/src/scope_store.rs:329-366 | no attempt is claimed twice, whatever is retried, lost, interrupted or restarted in between |
| ScopeTheorems.NoClaimOnceMoved | crates/opaque-bounded-work/src/scope_store.rs:209-227 | an attempt that was claimed, finished or interrupted is never claimed again |
| ScopeTheorems.LookupIrrelevant | crates/opaque-bounded-work/src/scope_store.rs:304-308 | every row the duplicate lookup can return leads to the same answer |
| ScopeTheorems.ReserveAgain | crates/opaque-bounded-work/src/scope_store.rs:290-308 | an accepted proposal repeated after any further run returns its current record and charges nothing |
| ScopeTheorems.Attenuated | crates/opaque-bounded-work/src/scope_store.rs:309-311 | every charged attempt lies inside the grant of every ancestor it charges |
| ScopeTheorems.ChargedWithinGrant | crates/opaque-bounded-work/src/scope_store.rs:317-321 | charged resources are always among the granted ones |
| ScopeTheorems.WithinWindows | crates/opaque-bounded-work/src/scope_store.rs:774-787 | in every reachable ledger, whenever a scope was issued, an attempt charged or a dispatch claimed, every scope above it existed, was inside its window and unrevoked |
| ScopeTheorems.ShippedLedger | crates/opaque-core/src/scope.rs:112-445 | the ledger with its own contract checks is consistent over every run |
| ScopeAccounting.Conservation | crates/opaque-bounded-work/src/scope_store.rs:309-325 | in every reachable ledger each scope is charged exactly for the attempts and resources of its subtree, within its limits, and parents add up from children |
| ScopeAccounting.AncestryBounded | crates/opaque-bounded-work/src/scope_store.rs:756-768 | every reachable ancestry is acyclic and at most MAX_DEPTH + 1 long, so the walk's guards never fire, and the log issues every ancestor strictly before the scope |
| ScopeHistory.TrailDecidesState | crates/opaque-bounded-work/src/scope_store.rs:338-401 | an attempt's events decide its state: accepted only after a claim, UNKNOWN without an end only after an interruption |
| ScopeHistory.LogRefinesTables | crates/opaque-bounded-work/src/scope_store.rs:788-815 | over every run sequences are 1..n, logs only grow, times never fall, and the log's account of each row is that row |
| ScopeInactivity.DeadStaysQuiet | crates/opaque-bounded-work/src/scope_store.rs:774-787 | below a revoked or expired scope no run ever adds a scope, a charge or a dispatch claim |
| ScopeInactivity.FailureExpires | crates/opaque-bounded-work/src/scope_store.rs:605-607 | a call at or past a live scope's expiry ends it for good, even if the call is refused, exactly when its argument canonicalises for this owner |
| ScopeEvidence.CheckRows | crates/opaque-core/src/scope_evidence.rs:262-292 | passes exactly when every row is canonical under its digest and no request identity repeats |
| ScopeEvidence.Ancestry | crates/opaque-core/src/scope_evidence.rs:401-425 | the climbing loop ends and computes the specified ancestry |
| ScopeEvidence.CheckScopes | crates/opaque-core/src/scope_evidence.rs:295-319 | passes exactly when every scope fits its ancestors' windows and its own limits |
| ScopeEvidence.ScopesChecked | crates/opaque-core/src/scope_evidence.rs:295-319 | those checks hold if and only if the table is a sound forest whose rows are in order |
| ScopeEvidence.CountOne | crates/opaque-core/src/scope_evidence.rs:378-387 | counts one attempt against every scope of its chain and no other |
| ScopeEvidence.CheckActions | crates/opaque-core/src/scope_evidence.rs:320-388 | passes exactly when every action fits its chain, and tallies every subtree |
| ScopeEvidence.CheckCharges | crates/opaque-core/src/scope_evidence.rs:389-396 | passes exactly when recorded charges equal the subtree counts |
| ScopeEventCheck.CheckPlace | crates/opaque-core/src/scope_evidence.rs:440-464 | one event's number, scope, time and uniqueness, exactly |
| ScopeEventCheck.CheckAuthority | crates/opaque-core/src/scope_evidence.rs:465-492 | admissions pass exactly when every ancestor is issued and unrevoked by the order of the log |
| ScopeEventCheck.CheckContents | crates/opaque-core/src/scope_evidence.rs:493-542 | times, digests and lifecycle order agree with the rows, exactly |
| ScopeEventCheck.VerifyEvents | crates/opaque-core/src/scope_evidence.rs:427-571 | one pass over the log decides that it is correct and complete for the tables |
| ScopeValidation.Validate | crates/opaque-core/src/scope_evidence.rs:240-398 | evidence is accepted if and only if its rows are listed in order and it describes a consistent ledger |
| ScopeValidation.ExtendsIsEvolves | crates/opaque-core/src/scope_evidence.rs:171-217 | between consistent ledgers the comparison holds if and only if one evolves the other, including the charges and times it does not compare |
| ScopeValidation.ValidateExtension | crates/opaque-core/src/scope_evidence.rs:168-218 | an extension is accepted if and only if both exports are valid and the later evolves the earlier |
| ScopeAdapter.HistoricalRevocation | examples/ax-scope/adapter.py:178-184 | the climb ends, reports a revocation exactly when the ledger's own ancestry has one, and then no call is admitted at any time |
| ScopeAdapter.SelectAction | examples/ax-scope/adapter.py:152-157 | one logical request selects at most one retained action, so the ambiguity error never arises |
| SshStore.HostLedger.Issue | packaging/ssh-host/host_guard.py:84-92 | inserts exactly when ids, names, expiry and duration are valid and the id is new |
| SshStore.HostLedger.Revoke | packaging/ssh-host/host_guard.py:94-98 | computes the revocation whose effect SshSteps.RevokeStep states |
| SshStore.HostLedger.Reserve | packaging/ssh-host/host_guard.py:124-148 | computes the reservation or the first applicable denial, with its receipt |
| SshStore.HostLedger.Finish | packaging/ssh-host/host_guard.py:161-184 | computes the release decision from the stored grant, whatever the claim says |
| SshStore.HostLedger.Recover | packaging/ssh-host/host_guard.py:114-122 | one restart receipt for each reserved grant, in any order, and all of them unknown |
| SshStore.HostLedger.Apply | packaging/ssh-host/broker_control.py:218-254 | a signed message takes effect together with its nonce, or nothing is written |
| SshTheorems.RunLater | packaging/ssh-host/host_guard.py:84-184 | over every run rows, receipts, authority and nonces are never removed or rewritten and grants only move forward |
| SshTheorems.ReservedOnce | packaging/ssh-host/host_guard.py:124-148 | no grant is ever reserved twice |
| SshTheorems.OneSettlement | packaging/ssh-host/host_guard.py:114-184 | a grant has exactly one settling receipt once ended and none before, a restart receipt exactly when it ended unknown |
| SshTheorems.ReleaseJustified | packaging/ssh-host/host_guard.py:161-184 | a result leaves only for a healthy probe on a grant reserved earlier under that reservation, unrevoked and unexpired at the decision |
| SshTheorems.ReleasedOnce | packaging/ssh-host/host_guard.py:161-184 | a grant releases at most one result, whatever claims are presented |
| SshTheorems.CancellationAgrees | packaging/ssh-host/host_guard.py:150-159 | for every claim a run handed out, polling reports no cancellation exactly when finishing at that moment would release the result |
| SshTheorems.RevokedForGood | packaging/ssh-host/host_guard.py:94-98 | once revoked, a grant is never reserved and never releases a result |
| SshTheorems.BrokerRevocationFinal | packaging/ssh-host/broker_control.py:234-252 | after a broker revocation the id is never reserved, released or granted again, whether its grant came before, later or never |
| SshTheorems.RevocationApplies | packaging/ssh-host/broker_control.py:225-252 | exactly when a broker revocation takes effect; it never touches a command-line grant |
| SshTheorems.GrantRevokeConfluent | packaging/ssh-host/broker_control.py:227-252 | whatever runs between a grant and its revocation, both orders of delivery leave the same authority and a revoked grant, and the same grant table if and only if the grant was not reserved in between |
| SshTheorems.NonceOnce | packaging/ssh-host/broker_control.py:227-227 | a nonce takes effect at most once and its replay changes nothing |
| SshTheorems.AuthorityBrief | packaging/ssh-host/broker_control.py:200-207 | over every run a grant is reserved, and releases a result, only within 305 seconds of the clock that checked the step that admitted it |
| SshSteps.GrantStep | packaging/ssh-host/host_guard.py:84-92 | a command-line grant is inserted exactly when its id is a canonical UUID, its names match their pattern, it is brief and new; then the row is as given |
| SshSteps.RevokeStep | packaging/ssh-host/host_guard.py:94-98 | a command-line revocation marks its grant revoked and changes no other field or row; an unknown id changes nothing |
| SshSteps.CliRevocationFinal | packaging/ssh-host/host_guard.py:94-98 | from that step on, no run reserves the grant or releases a result under it |
| SshSteps.ReserveStep | packaging/ssh-host/host_guard.py:124-148 | a reservation succeeds exactly on a grant for that destination, unrevoked, unexpired and unused; a denial writes one receipt with the first reason and leaves the grants |
| SshSteps.FinishStep | packaging/ssh-host/host_guard.py:161-184 | releases exactly for a healthy probe on a held, unrevoked, unexpired grant; completes exactly the grant held; the receipt says why |
| SshSteps.CancellationExact | packaging/ssh-host/host_guard.py:150-159 | polling reports loss, then revocation, then expiry |
| SshSteps.RestartStep | packaging/ssh-host/host_guard.py:114-122 | turns exactly the reserved grants unknown, with one receipt for each |
| SshSteps.ControlStep | packaging/ssh-host/broker_control.py:218-254 | a message takes effect exactly when it is prompt, its nonce is new and it names a new id or revokes a grant of its own manifest and expiry; what it then writes, and that otherwise nothing is written |
| SshSteps.ReservedWhen | packaging/ssh-host/host_guard.py:124-148 | over every run: a reservation succeeds if and only if some step admitted the grant for that destination, no step since revoked or reserved it, and it has not expired |
| Fido2Theorems.ParseEncoded | crates/opaque-approval/src/fido2.rs:199-224 | parsing inverts encoding, whatever extension data follows |
| Fido2Theorems.EncodeParsed | crates/opaque-approval/src/fido2.rs:199-224 | whatever parses is the encoding of what was read |
| Fido2Manager.Manager.Position | crates/opaque-approval/src/fido2.rs:445-451 | finds the first credential with an id |
| Fido2Manager.Manager.VerifyAndCommit | crates/opaque-approval/src/fido2.rs:601-663 | computes the commit: counter and binding together, or an error and no change |
| Fido2Manager.Manager.ValidateAndStore | crates/opaque-approval/src/fido2.rs:518-561 | computes the registration whose acceptance Fido2Steps.RegisterExact states |
| Fido2Manager.Manager.Forget | crates/opaque-approval/src/fido2.rs:422-431 | removes exactly the credential with the id |
| Fido2Theorems.CommitExact | crates/opaque-approval/src/fido2.rs:601-793 | an assertion is accepted exactly when its credential is registered, it is genuine for this key, challenge and site with a fresh counter, and it suits the requested binding; otherwise nothing changes |
| Fido2Theorems.RunDistinct | crates/opaque-approval/src/fido2.rs:407-419 | credential ids stay unique over every run |
| Fido2Theorems.RunKeeps | crates/opaque-approval/src/fido2.rs:656-661 | while registered, a credential keeps its key, its counter never falls and its binding never changes |
| Fido2Theorems.NoReplay | crates/opaque-approval/src/fido2.rs:757-764 | while registered, no assertion whose counter does not exceed an accepted positive one is accepted |
| Fido2Theorems.RepeatedAtOnce | crates/opaque-approval/src/fido2.rs:757-764 | an accepted assertion is accepted again at once if and only if its counter is zero |
| Fido2Theorems.UncountedRepeats | crates/opaque-approval/src/fido2.rs:757-764 | a concrete assertion with counter zero is accepted and leaves the store as it was |
| Fido2Theorems.BindingImmutable | crates/opaque-approval/src/fido2.rs:619-627 | once bound, a credential satisfies only that binding and keeps it |
| Fido2Steps.RegisterExact | crates/opaque-approval/src/fido2.rs:518-561 | a registration is accepted exactly when its bytes were made for this site with the user present, its key is usable and its id is new; then exactly that unbound credential is added, otherwise nothing changes; which error is reported |
| Fido2Steps.RemoveExact | crates/opaque-approval/src/fido2.rs:422-431 | removal leaves exactly the credentials with other ids, and fails exactly when there is none |
| Fido2Steps.RemovedRefused | crates/opaque-approval/src/fido2.rs:422-431 | from a removal on, and until it is registered again, nothing of that credential is accepted |
| Fido2Steps.CommitWrites | crates/opaque-approval/src/fido2.rs:656-661 | an accepted assertion writes its counter, and the binding only if one was asked for, to its own credential |
| Fido2Steps.BoundByStep | crates/opaque-approval/src/fido2.rs:619-661 | from an accepted binding on, the credential satisfies that binding and no other |
| Fido2Steps.VerifyRefusals | crates/opaque-approval/src/fido2.rs:715-793 | exactly when an absent user, an old counter or a bad signature is reported |
| Fido2Steps.CommitRefusals | crates/opaque-approval/src/fido2.rs:606-618 | exactly when an invalid binding or a missing credential is reported |
| Fido2Steps.BindingRefusal | crates/opaque-approval/src/fido2.rs:619-627 | exactly when a binding mismatch is reported |
| ApprovalRounds.AnsweredOnce | crates/opaque-approval/src/factors.rs:680-711 | over every run, in both styles, no waiter is answered twice |
| ApprovalRounds.AnswersOwnChallenge | crates/opaque-approval/src/factors.rs:680-711 | with request ids used once, every answer was verified against the waiter's own challenge |
| ApprovalRounds.ReusedRequest | crates/opaque-approval/src/factors.rs:637-645 | a request id begun again during a response breaks that link |
| ApprovalRounds.MatchesUnlessRestarted | crates/opaque-approval/src/approval_server.rs:619-661 | with distinct challenges, an answer matches its waiter if and only if the request was not begun again in between |
| ApprovalRounds.StillAnswerable | crates/opaque-approval/src/approval_server.rs:619-641 | whatever runs meanwhile, rejected responses and other requests included, the first response that verifies reaches an open round's waiter if and only if no step began, ended, expired or consumed that round |
| ApprovalRounds.AnsweredInTime | crates/opaque-approval/src/factors.rs:684-694 | over every run, whatever is answered was looked up before the deadline of a round begun for that request |
| ApprovalRounds.RoundTable.BeginRoundFor | crates/opaque-approval/src/factors.rs:628-647 | makes the protocol's begin step: a waiter that was never answered is parked under the request with its challenge and deadline, and no other round changes |
| ApprovalRounds.RoundTable.Challenge | crates/opaque-approval/src/approval_server.rs:622-629 | makes the lookup step: the challenge exactly of a round that is there and not past its deadline, a missing round told apart from an expired one |
| ApprovalRounds.RoundTable.Take | crates/opaque-approval/src/factors.rs:703-710 | makes the consume step: exactly when the round is there and unspent, hands out the channel of a waiter never answered before, and leaves the round spent or gone |
| ApprovalRounds.RoundTable.EndRound | crates/opaque-approval/src/factors.rs:650-652 | makes the end step: the round is gone, whoever is still answering it |
| ApprovalRounds.RoundTable.ExpirePending | crates/opaque-approval/src/approval_server.rs:697-700 | makes the expiry step: exactly the rounds not past their deadline remain, unchanged |
| Fido2Approvals.ApprovedByOwnChallenge | crates/opaque-approval/src/factors.rs:677-711 | rounds and store together, with registrations, bindings and removals in between: a waiter is answered at most once, by an assertion signed for its own challenge |
| Fido2Approvals.OneTouchOneApproval | crates/opaque-approval/src/factors.rs:677-711 | with request ids and challenges used once, no assertion approves two waiters, whether or not its authenticator counts |
| Fido2Approvals.RepeatedApproval | crates/opaque-approval/src/factors.rs:677-711 | an assertion delivered twice was delivered for one challenge, and its authenticator does not count or was removed |
| Fido2Approvals.SharedChallenge | crates/opaque-approval/src/factors.rs:677-711 | a concrete run in which two rounds given one challenge share one uncounted assertion |
| AuditMeaning.BuildReport | scripts/audit_anomalies.py:82-149 | the pass computes the findings and pending count of the tracker with the shipped capacity |
| AuditAnomalies.BoundedSize | scripts/audit_anomalies.py:118-127 | the pending map never exceeds its capacity |
| AuditAnomalies.BoundedWithin | scripts/audit_anomalies.py:118-149 | what the bounded tracker holds and finds, evictions aside, the unbounded one holds and finds too |
| AuditAnomalies.EvictionExact | scripts/audit_anomalies.py:120-123 | eviction is reported if and only if unbounded memory would have exceeded the capacity; otherwise the reports are equal |
| AuditAnomalies.OldestForgotten | scripts/audit_anomalies.py:118-127 | what the bounded tracker still holds are the newest open requirements, in order |
| AuditAnomalies.EvictionsExact | scripts/audit_anomalies.py:120-123 | an eviction is reported exactly for each record that needed room, under its own number |
| AuditMeaning.HeldMeaning | scripts/audit_anomalies.py:118-140 | what is held for a request is its latest open requirement and what approvals since then said |
| AuditMeaning.FindingsExact | scripts/audit_anomalies.py:99-149 | with enough memory each rule reports exactly the records that explain it: an uncovered success, a success under another action, a contradicting approval, a recorded loss |
| AuditMeaning.FindingsSound | scripts/audit_anomalies.py:99-149 | with any memory every finding but an eviction is explained by the records, and none is lost unless eviction is reported |
| AuditExport.InspectExport | scripts/verify_audit_evidence.py:176-200 | the loop computes the specified records or the first defect |
| AuditExport.InspectExact | scripts/verify_audit_evidence.py:176-200 | accepted exactly when repeats are identical and first deliveries are gap-free with distinct events; they are the result |
| AuditExport.DefectExact | scripts/verify_audit_evidence.py:176-200 | the defect reported is that of the first delivery that cannot follow those before it, and which one it is |
| AuditExport.ReplayInvariant | scripts/verify_audit_evidence.py:184-189 | delivering a record again anywhere later changes neither result nor defect |
| AuditExport.CrossCheckExact | scripts/verify_audit_evidence.py:240-248 | two accepted snapshots cross-check exactly when they are the same records in the same order |
| AuditExport.MismatchExact | scripts/verify_audit_evidence.py:240-248 | a difference in range is reported before a difference in records, each exactly when it holds |
| TokenTrees.FindGroup | scripts/rust_coverage_scope.py:94-111 | the stack loop computes the specified group |
| TokenTrees.GroupFinds | scripts/rust_coverage_scope.py:94-111 | every bracketed token tree is found, whatever surrounds it |
| TokenTrees.GroupSound | scripts/rust_coverage_scope.py:94-111 | whatever is returned is one bracketed tree closed by its own bracket |
| TokenTrees.FlatUnique | scripts/rust_coverage_scope.py:94-111 | a balanced token sequence is the spelling of one forest only |
| CfgConditions.SplitParts | scripts/rust_coverage_scope.py:149-159 | the loop computes the parts between top-level commas |
| CfgConditions.ReadCondition | scripts/rust_coverage_scope.py:114-139 | the recursive reading computes the specified value |
| CfgConditions.ReadsBack | scripts/rust_coverage_scope.py:114-139 | reading balanced tokens gives their three-valued truth with test off and everything else unknown |
| CfgConditions.Readable | scripts/rust_coverage_scope.py:114-139 | balanced tokens are refused exactly when a string literal stands for the bracket of an all, any or not |
| CfgConditions.LiteralBracket | scripts/rust_coverage_scope.py:114-139 | such tokens exist: balanced, and refused |
| CfgConditions.ConditionSound | scripts/rust_coverage_scope.py:114-139 | whatever the tokens, a definite reading means they spell one forest and that it holds or fails as read under every configuration with test off |
| CfgConditions.Unbalanced | scripts/rust_coverage_scope.py:114-139 | tokens that spell no forest are refused exactly if they start a call that is never closed, and undecided otherwise |
| CfgAttributes.EffectiveAttributes | scripts/rust_coverage_scope.py:142-167 | the loop computes the specified attributes or gives up |
| CfgAttributes.AttributesAgree | scripts/rust_coverage_scope.py:142-167 | for all balanced attributes, when the reader does not give up, the cfg and path attributes kept are those in force, in order, under every configuration with test off |
| CfgAttributes.ReaderGivesUp | scripts/rust_coverage_scope.py:142-167 | exactly when the reader gives up: a cfg_attr reached by expansion lacks its parts, has an unreadable condition, or has an undecided one that guards the source scope |
| CfgAttributes.ReaderKeeps | scripts/rust_coverage_scope.py:142-167 | otherwise it keeps exactly the attributes known to be in force, in order |
| CfgAttributes.NoGroup | scripts/rust_coverage_scope.py:145-148 | whatever its tokens, a cfg_attr without a group is refused, and any other attribute kept |
| CfgAttributes.GroupDecides | scripts/rust_coverage_scope.py:148-148 | nothing after the group of a cfg_attr is looked at |
| CoverageRatchet.NeededLeast | scripts/check_coverage_policy.py:222-232 | a reported gap is the least further coverage that meets the floor, at least one and never more than what is uncovered |
| CoverageRatchet.GapLeast | scripts/check_coverage_policy.py:222-232 | every gap the policy reports is real, and its additional_covered is exactly what is missing |
| CoverageRatchet.GapsExact | scripts/check_coverage_policy.py:218-233 | a gap is reported exactly for each floor that is missed, tier before baseline before trusted, against that floor |
| CoverageRatchet.Evaluate | scripts/check_coverage_policy.py:195-242 | passes exactly when the packages are distinct, measured and include a kernel, the baseline has exactly their rows, the history passed, and every package meets its tier, baseline and trusted floors; refusals and invalid verdicts exactly otherwise, with every gap in order |
| CoverageRatchet.EvaluateRows | scripts/check_coverage_policy.py:211-235 | the loop stops at the first unmeasured package, or decides every row and collects every gap in order |
| CoverageRatchet.MeetsRatios | scripts/check_coverage_policy.py:23-24 | those demands in exact ratios: kernels complete, 85 percent of branches for enforcement and 70 for general code, and no axis below the baseline or the trusted floor |
| CoverageRatchet.RefreshHolds | scripts/check_coverage_policy.py:387-411 | every accepted refresh drops no package, lowers no ratio and passes the history check |
| CoverageRatchet.RefreshExact | scripts/check_coverage_policy.py:377-412 | a refresh is accepted exactly when every row is measured, no package is dropped and either no ratio falls or the new packages are complete kernels; which rows it then holds |
| CoverageRatchet.RefreshedPasses | scripts/check_coverage_policy.py:377-412 | against the baseline it just produced, a run passes exactly when it meets the tiers, the trusted floors and the floors it had before |
| CoverageRatchet.PassingRefreshes | scripts/check_coverage_policy.py:377-412 | a passing run is always accepted by a refresh as measured, and passes again against its own record |
| CoverageRatchet.AdmissibleHolds | scripts/check_coverage_policy.py:358-362 | the history check means exactly that no package is dropped and no ratio falls |
| CoverageRatchet.RatchetHolds | scripts/check_coverage_policy.py:327-374 | along any chain of accepted baselines no package disappears and no floor falls |
| CoverageRatchet.NewPackagesStayComplete | scripts/check_coverage_policy.py:391-403 | a package admitted by a refresh is completely covered then and ever after |

## Left out

- SQLite, file custody, locks, permissions and TLS: a transaction is atomic and calls are serialised; storage errors are not modelled.
- JSON, base64, hashing, HMAC, signatures and P-256: function values that may be anything; the integrity tag of the credential file is not modelled.
- Counters of the offline validator are unbounded; its refusal of a 64-bit overflow cannot arise on evidence of any storable size.
- ScopeStorage.ScopeStore.Open: an unreadable row and a failed validation are both refusals in its contract, which fixes the error kind only for owners and metadata.
- The columns of `scope_actions` that repeat fields of the stored record are one with the record.
- `verify_reviews`, checkpoints and review receipts: authentication of historical signatures, not state.
- `get_scope`, `get_action`, `get_request`, `events` and `snapshot`: read-only projections.
- The probe subprocess of the SSH guard, its polling and framing: a run is a reservation followed by any finding.
- Expiry in the SSH ledger is checked at each commit only; with a clock that may run backwards it is not permanent.
- Receipts record the clock at which they were written; that reading is not modelled.
- Field-by-field validation of the signed SSH manifest: messages are verified before they reach the ledger model.
- Removal of a credential ends its counter guarantees; re-enrolment starts a new credential.
- Time in approval rounds is a deadline compared with an arbitrary reading.
- AuditMeaning.BuildReport: health counters, recorded alerts, review signals and finding digests are left out; a finding is its rule, record and related record.
- The lexer, module discovery and path resolution of the Rust source reader.
- Provenance, source identity and native-target checks of coverage baselines: a baseline that fails them is a missing one, and a history is its floors and whether its checks passed.
- Task stores, pairing, push, vault and provider transports, the review user interfaces and packaging.
