# EP-Governance: verified model

A Dafny model of the governed-execution core of EP-Governance and proofs about it. An agent proposes an
action; policy admits it, refuses it or asks for approval; the service issues a signed single-use token; a
proxy claims the token, runs the adapter and commits what was realised as a node on a branch; reconcilers settle
what was left uncertain; every step is recorded in a hash-chained audit log per lattice.

## How it is built

* **Tables and transactions.** `Graph` (lattices, branches, nodes, edges), `Ledger` (transitions, approval
  requests, authorizations) and `Audit` (events and heads) say what one operation does to one group of tables.
  `Transactions` says which operations each engine call combines: one change to the graph, one to the ledger
  and at most one audit event, all or nothing.
* **Protocol.** `Protocol` puts proxies, reconcilers and callers side by side. A step is one transaction, one
  read or one adapter run. A proxy's head read and its commit, and the phases of a reconciliation, are separate
  steps, so any steps of others may come between them. `Run` is any interleaving of any number of activities.
* **Invariant and theorems.** `LedgerTheorems`, `Lineage` and `ProtocolInvariant` hold what every step keeps.
  `ExecutionTheorems`, `FlagTheorems`, `HistoryTheorems` and `Receipts` state what follows for every run.
  `SampleRuns` has short concrete runs that end where a promise is not kept.
* **Decisions.** `CallTheorems` says of each call exactly when it goes through, the one change it then makes and the
  event it writes; `DecisionTheorems` where a proposal lands, what a commit is built on, and that work which nobody
  interferes with succeeds. `PolicyMeaning` says rule by rule when a policy applies. None of these conditions is
  stated through the function that the model decides by.
* **Imperative form.** `Database` has the tables as fields and the repositories' guarded statements as methods.
  `Engines` carries out each call statement by statement and rolls back when a statement fails; each method is
  proved to do exactly its transaction of `Transactions`. `Runtime` takes the protocol's steps on the real
  tables, and `Proxy` is one proxy executing one token from start to end.
* **Hashed text.** `JsonText` and `JsonReader` are the canonical writer and a full reader (with white space,
  escapes, surrogate pairs and repeated keys); `Canonical`, `Audit` and `Tokens` rest on their round trip.
  `Formats` fixes the formats to the letter.
* **The rest.** `PolicyEngine`/`PolicyMeaning`/`PolicyTheorems`, `Positional`/`Xid`/`XidGenerator`, `RateLimiter`,
  `Resources`, `Transfer`/`TransferTheorems`/`ImportTheorems`.

SHA-256 is any injective function on text that never yields the genesis value or the empty text. Signing is any
pair of functions for which what was signed verifies and signatures are not empty. Clock readings, drawn ids,
what the adapter does, database aborts, glob matching and CEL evaluation are inputs, so the results hold for
every choice of them. None stands for a raised error or a refusal.

## What turned out false of the code

Each comes with its exact condition and with an input for which it fails. The runs of `SampleRuns` start from the
empty database and hold under every proper configuration, and `SampleConfigIsProper` shows one with and one
without the index on keys.

* A retry under the same idempotency key after a failed, cancelled, expired or denied transition is required
  by rule EP-TRANSITION-014 and allowed by src/ep_governance/transitions.py:121-129,
  but migrations/sqlite/001_init.sql:206 puts the key under a unique index, so the insertion is refused. The
  index is a parameter of the model; `ProposalCommitsExactlyWhen` gives the exact condition with and without it,
  `RetryIsRefusedByTheIndex` a run for both.
* docs/audit-format.md:266-298 says that verification checks the numbering and the audit head. The code
  (src/ep_governance/audit.py:345-373) checks neither: a log cut short verifies, and any numbering does
  (`AnyNumberingPasses`). `CutLogPassesAndOnlyHeadShowsIt` and `AcceptedLogIsTheKeptOneIffHeadMatches` say exactly
  what the head adds.
* docs/audit-format.md:155 says that a new lattice gets an audit head. Project creation
  (src/ep_governance/cli.py:306-321) writes none; without one no proposal in that lattice goes through
  (`ProposalCommitsExactlyWhen`, `FreshLatticeRefusesProposals`). Setting up a head is a step of its own in the model.
* src/ep_governance/transitions.py:10-11 says that every state change is recorded as an audit event. A claim and an
  expiry record none; all others do (`StageChangesAreAuditedExceptTwo`; `AfterClaim`, `ExpiryWritesNoEvent`).
* Exceptions are meant to lift denials. They can also remove a policy that requires approval
  (`ExceptionCanRemoveApprovalRequirement`, `ListsBothExample`; `DroppedExactly` says when).
* An uncertain transition is always flagged for review, but a settled one can be flagged too. A commit leaves the
  flag up exactly when the transition was uncertain (`CommitLeavesFlagUpExactlyWhen`, `LateCommitEndsFlagged`). And
  where two reconcilers work on one transition, the one whose commit failed may give up after the other has
  settled it, which raises the flag on a succeeded or failed one (`TwoReconcilersEndFlagged`). These are the only
  ways (`SettledIsFlaggedExactlyAfter`), and only the end of a reconciliation lowers a flag
  (`FlagIsLoweredExactlyBy`).
* A normalized path normalized again without encoding can change: exactly when the decoded path contains another
  escape (`NormalizingTwiceIsStableExactly`, `NormalizingTwiceCanChange`).
* An imported branch has no head and version 1, which is right exactly when the package has no node in it; an
  imported node is never superseded, which is right exactly when the package has no edge from it to another of its
  nodes (`ImportedBranchIsCountedExactlyWhenEmpty`, `ImportedStatusIsRightExactlyForTips`, `TwoNodesExample`). The
  lattices that were there stay as sound as they were (`ImportLeavesOthersSound`).

## Model

| member | source | states |
|---|---|---|
| ExecutionTheorems.AdapterRunsAtMostOnce | src/ep_governance/proxy/base.py:430-474 | in every interleaving the adapter runs at most once per transition, and only if exactly one authorization was spent on it |
| ExecutionTheorems.ExactlyOneAuthorizationIsSpent | src/ep_governance/authorizations.py:709-753 | a transition that is executing, uncertain, succeeded or failed has exactly one used authorization, any other has none, however many tokens were issued and presented |
| ExecutionTheorems.OneExecutorPerTransition | src/ep_governance/db/repositories.py:677-702 | no two proxies ever execute the same transition |
| ExecutionTheorems.ClaimMeetsCurrentPolicy | src/ep_governance/proxy/base.py:334-413 | a claim presents the very text that was issued, for the payload hash and audience of its token, with a valid payload and before the expiry; with a policy engine it goes through only if current policy allows or warns and the matched policy versions equal those of the token |
| ExecutionTheorems.ClaimNeedsAStandingPolicy | src/ep_governance/proxy/base.py:334-413 | evaluated over a policy list, a claim succeeds only if no deny that applies stands and a standing policy of the highest priority, which applies, allows or warns |
| ExecutionTheorems.IssuedTokenIsClaimedExactlyWhen | src/ep_governance/authorizations.py:666-753 | presenting an issued token claims it exactly when it is unused and unexpired, its transition is authorized, payload hash and audience are the token's, the payload is valid, and current policy, if asked, allows or warns under the token's policy versions |
| ExecutionTheorems.StageHistoryIsShort | src/ep_governance/transitions.py:60-99 | over a whole run the stages of a transition are a path in the stage machine of at most five changes in which only the last can be terminal |
| ExecutionTheorems.StageChangesHaveTheirCauses | src/ep_governance/transitions.py:470-541 | each stage is reached only by its few steps: a proposal lands by the effect of policy, nobody decides their own action, no agent approves, only the agent or an administrator cancels, only a token presented for its own payload and audience starts execution, and only a run adapter, an operator or a reconciler settles it |
| ExecutionTheorems.WaitingHasOnePendingRequest | src/ep_governance/transitions.py:373-404 | a transition waiting for approval has exactly one pending request; a pending request without one is left by a withdrawal |
| ExecutionTheorems.ApprovedBySomebodyElse | src/ep_governance/transitions.py:485-521 | what once waited for approval and is now authorized or further was approved by a principal other than its agent |
| ExecutionTheorems.UncertainIsFlagged | src/ep_governance/transitions.py:884-896 | an uncertain transition is flagged for review even under concurrent reconcilers, and success, node and exit status go together |
| FlagTheorems.CommitLeavesFlagUpExactlyWhen | src/ep_governance/branches.py:169-191 | in every reachable state a commit that goes through leaves the flag up exactly when the transition was uncertain before it |
| FlagTheorems.SettledIsFlaggedExactlyAfter | src/ep_governance/transitions.py:1041-1146 | in every state that satisfies the invariant, so in every reachable one, exactly which steps leave a settled transition flagged: a commit of an uncertain one, a reconciler giving up on one that is settled, and any step but the conclusion of its reconciliation if it was flagged before |
| FlagTheorems.FlagIsLoweredExactlyBy | src/ep_governance/transitions.py:1101-1129 | a flag is lowered exactly when a reconciliation of that transition is concluded as succeeded or failed |
| FlagTheorems.FlagMeansReviewable | src/ep_governance/transitions.py:884-896 | in every reachable state a flagged transition, and one that a reconciler still works on, is uncertain, succeeded or failed |
| SampleRuns.LateCommitEndsFlagged | src/ep_governance/branches.py:169-191 | a run in which a proxy commits after an operator marked the transition, which ends succeeded and flagged |
| SampleRuns.TwoReconcilersEndFlagged | src/ep_governance/transitions.py:1041-1068 | a run in which one reconciler fails the transition and another then gives up, which ends failed and flagged |
| SampleRuns.RetryIsRefusedByTheIndex | migrations/sqlite/001_init.sql:206 | a run in which a cancelled transition is proposed again: refused with the unique index, pending without |
| SampleRuns.FreshLatticeRefusesProposals | src/ep_governance/cli.py:306-321 | a run in which the first proposal in a lattice just created changes nothing |
| SampleRuns.AfterClaim | src/ep_governance/authorizations.py:709-753 | a run that ends with a claim: the transition is executing and no event was written |
| SampleRuns.ExpiryWritesNoEvent | src/ep_governance/cli.py:1162-1183 | a run that ends with an expiry: the transition is expired and no event was written |
| ExecutionTheorems.OneLiveTransitionPerKey | src/ep_governance/transitions.py:238-244 | per idempotency key at most one transition is proposed, pending, authorized or executing; under the unique index there is only one at all |
| ExecutionTheorems.ProposalCommitsExactlyWhen | src/ep_governance/transitions.py:236-246 | exactly when a proposal is inserted: key free, or its newest holder failed, cancelled, expired, denied or uncertain and no unique index; branch known, id new, audit head present |
| ExecutionTheorems.RepeatedProposalChangesNothing | src/ep_governance/transitions.py:1199-1206 | a repeated proposal changes nothing and is answered with the newest transition of its key |
| DecisionTheorems.ProposalLandsByItsEffect | src/ep_governance/transitions.py:275-439 | the new row is denied exactly if the effect is deny, authorized exactly if it is allow or warn, and otherwise, or without a judge, pending with one pending request; nothing else changes |
| DecisionTheorems.ProposalLandsByItsPolicies | src/ep_governance/transitions.py:277-306 | over a policy list: denied exactly if judging none raises and a deny that applies is not lifted; authorized only under a standing, applying policy of the highest priority that allows or warns |
| DecisionTheorems.VersionsAreOfTheMatched | src/ep_governance/proxy/base.py:393-400 | the recorded versions are those of the matched policies, the last one of each id, zero where there is none |
| DecisionTheorems.ReadHeadBuildsOn | src/ep_governance/proxy/base.py:535-561 | after a run that worked a proxy commits against the head and version its transition states, else against those it reads, in its branch's lattice |
| DecisionTheorems.ReadForReviewBuildsOn | src/ep_governance/transitions.py:1000-1032 | a reconciler does the same, except that what its caller states comes first |
| DecisionTheorems.BuiltCommitGoesThroughExactlyWhen | src/ep_governance/branches.py:98-125 | such a commit goes through exactly when the transition is executing or uncertain, what was stated is so, the ids are unused and the lattice has a log |
| DecisionTheorems.CommitRealises | src/ep_governance/branches.py:126-191 | after it the transition has succeeded with the node, which carries branch, agent and summary and is the head of the branch one version on |
| DecisionTheorems.ReviewLeftAloneSucceeds | src/ep_governance/transitions.py:985-1146 | a reconciler that is left alone and that nothing stands in the way of commits what its caller describes and lowers the flag |
| DecisionTheorems.ReviewLeftAloneFails | src/ep_governance/transitions.py:1101-1120 | one that finds the work undone ends the transition as failed without the flag |
| HistoryTheorems.StepRefinesHistory | src/ep_governance/branches.py:115-166 | refinement: every step is, on the history, nothing, the birth of a branch at the tip of another or at nothing, or one node appended to one branch |
| HistoryTheorems.HistoryOnlyGrows | src/ep_governance/branches.py:115-166 | whatever steps are taken, every branch keeps its fork point and its nodes in place |
| HistoryTheorems.BranchTellsItsHistory | src/ep_governance/db/repositories.py:186-251 | version minus one counts the branch's nodes, the head is the last or the fork point, and walking edges back from the head visits exactly those nodes in reverse and stops at the fork point |
| HistoryTheorems.GraphIsAForest | src/ep_governance/branches.py:126-157 | edges run from older to newer nodes of one lattice, in-degree is at most one, no path is a cycle, and a node is superseded exactly when it has a successor |
| HistoryTheorems.NoUpdateIsLost | src/ep_governance/proxy/base.py:543-573 | a commit that goes through builds on the branch exactly as it was when it had the expected version |
| HistoryTheorems.CommitGoesThroughExactlyWhen | src/ep_governance/branches.py:98-125 | the exact condition under which a commit goes through |
| HistoryTheorems.NodesMatchSuccesses | src/ep_governance/branches.py:169-191 | nodes and succeeded transitions are in bijection through the result node, which carries the transition's branch, agent and summary |
| HistoryTheorems.NodesAreCounted | src/ep_governance/branches.py:169-191 | there are as many nodes as succeeded transitions |
| HistoryTheorems.LogsAreAlwaysWellKept | src/ep_governance/audit.py:187-283 | in every reachable state each log is numbered 1 to n, its head holds n and the last hash, and it verifies |
| HistoryTheorems.LogsOnlyGrow | src/ep_governance/audit.py:242-283 | every earlier log is a prefix of the later one |
| HistoryTheorems.HeadFixesTheLog | src/ep_governance/audit.py:321-373 | of all lists of events that verify, exactly the kept log ends in the hash the head holds |
| HistoryTheorems.StageChangesAreAuditedExceptTwo | src/ep_governance/transitions.py:1224-1292 | each stage change appends one event to the log of its branch's lattice, of the kind of the new stage, with transition and verdict in its stored payload and in the name of who decided, except a claim and an expiry, which append none |
| HistoryTheorems.FlagChangesAreAudited | src/ep_governance/transitions.py:1046-1146 | a change of the flag that no stage change comes with appends one event that says which |
| Receipts.LogsTellTheHistory | src/ep_governance/branches.py:193-211 | the commit events in the logs are exactly the commits, one per node, each true of the place of its node in its branch, the head before and the version after |
| Receipts.ReadingReadsReceipts | src/ep_governance/audit.py:242-268 | a commit event read back from stored text says what was written, and no other event is mistaken for one |
| ProtocolInvariant.ApplyKeepsInv | src/ep_governance/db/transactions.py:39-59 | the invariant of database, activities and adapter runs is kept by every step of anybody |
| ProtocolInvariant.RunKeepsInv | src/ep_governance/db/transactions.py:39-59 | and so by every run |
| ProtocolInvariant.ClaimIsOfTheIssuedToken | src/ep_governance/authorizations.py:694-717 | a claim that passes the checks presents the stored token, text and fields |
| ProtocolInvariant.AttemptKeepsSound | src/ep_governance/branches.py:95-211 | a transaction that commits keeps the tables sound across all tables |
| Stages.LegalPathsAreShort | src/ep_governance/transitions.py:60-99 | a legal path is bounded by the rank it starts with, and terminal stages absorb |
| Stages.LegalChangesAre | src/ep_governance/transitions.py:60-99 | exactly the sixteen listed stage changes are legal, and the terminal stages are those that allow none |
| Stages.AllowsAnotherAttempt | src/ep_governance/transitions.py:106-129 | exactly uncertain, failed, cancelled, expired and denied transitions allow a new one with their key |
| LedgerTheorems.EveryOperationMovesLegally | src/ep_governance/transitions.py:768-794 | rows are never removed, keep what identifies them, and change stage only as the machine allows |
| LedgerTheorems.PerformKeepsApprovals | src/ep_governance/db/repositories.py:954-1013 | every operation keeps requests in step with stages, one per transition, decided by others than the agent |
| LedgerTheorems.PerformKeepsOutcomes | src/ep_governance/transitions.py:824-912 | every operation keeps exit status, result node, summary and flag in step with the stage |
| LedgerTheorems.PerformKeepsClaims | src/ep_governance/db/repositories.py:792-851 | every operation keeps used authorizations and transitions past their claim in one-to-one correspondence |
| LedgerTheorems.PerformKeepsKeys | src/ep_governance/transitions.py:106-129 | every operation keeps at most the newest transition of a key live |
| LedgerTheorems.ExistingIsNewest | src/ep_governance/transitions.py:1191-1222 | the idempotency lookup finds the newest transition with the key |
| Graph.PerformKeepsSound | src/ep_governance/db/repositories.py:186-321 | every operation on the graph tables keeps references, forest, counts, chains and status |
| Lineage.PerformRefines | src/ep_governance/branches.py:115-166 | every operation on the graph tables is one of the possible changes of an append-only history |
| Lineage.WalkFromHeadVisitsTheLineage | src/ep_governance/branches.py:139-157 | walking back from a head visits the lineage in reverse and stops at its root |
| Lineage.NoCycles | src/ep_governance/branches.py:139-154 | no path through the dependency edges returns to where it began |
| Engines.BranchCommitter.Commit | src/ep_governance/branches.py:52-217 | the nine steps leave exactly the commit transaction's state, or on any failure the state before |
| Engines.TransitionEngine.Propose | src/ep_governance/transitions.py:231-439 | proposing leaves exactly its transaction's state and answers with the existing or the new transition |
| Engines.TransitionEngine.Approve | src/ep_governance/transitions.py:470-541 | approving decides the pending request, authorizes and records it, or changes nothing |
| Engines.TransitionEngine.DenyApproval | src/ep_governance/transitions.py:569-632 | denying decides the pending request, denies and records it, or changes nothing |
| Engines.TransitionEngine.Cancel | src/ep_governance/transitions.py:665-727 | cancelling withdraws and records it, or changes nothing; the request stays pending |
| Engines.TransitionEngine.Expire | src/ep_governance/cli.py:1162-1183 | expiring moves the stage without an event, or changes nothing |
| Engines.TransitionEngine.RecordResult | src/ep_governance/transitions.py:824-912 | recording a failure or an unknown outcome, or changing nothing |
| Engines.TransitionEngine.ConcludeReview | src/ep_governance/transitions.py:1046-1146 | the flag and the event after a review's commit failed or succeeded |
| Engines.TransitionEngine.FailReviewed | src/ep_governance/transitions.py:1101-1120 | a review that ends in failure, in one transaction |
| Engines.AuthorizationEngine.Issue | src/ep_governance/authorizations.py:431-499 | a token is sealed with its policy versions and stored under the hash of the text handed out |
| Engines.AuthorizationEngine.VerifyAndClaim | src/ep_governance/authorizations.py:666-765 | the authorization is spent and the transition started, both or neither |
| Engines.ProjectAdmin.CreateProject | src/ep_governance/cli.py:307-321 | lattice and main branch, both or neither |
| Engines.ProjectAdmin.CreateBranch | src/ep_governance/cli.py:338-366 | a branch starts from the head of a branch of its own lattice, or from nothing |
| Database.Database.UpdateHead | src/ep_governance/db/repositories.py:222-240 | moves the head and counts the version up exactly if the version is the expected one |
| Database.Database.UpdateStage | src/ep_governance/db/repositories.py:677-702 | changes the stage exactly if it is the expected one |
| Database.Database.ClaimAuthorization | src/ep_governance/db/repositories.py:792-851 | spends exactly an unused, unexpired authorization with the presented hash |
| Database.Database.DecideRequest | src/ep_governance/db/repositories.py:974-1013 | decides exactly a pending request |
| Database.Database.FindPending | src/ep_governance/db/repositories.py:954-972 | finds the newest pending request of a transition |
| Database.Database.FindByKey | src/ep_governance/transitions.py:1191-1222 | finds the newest transition with a key |
| Database.Database.MarkSuperseded | src/ep_governance/db/repositories.py:313-321 | supersedes a committed node and nothing else |
| Database.Database.WriteEvent | src/ep_governance/audit.py:187-283 | appends one chained event and moves the head, or fails where there is no head |
| Runtime.Runtime.Take | src/ep_governance/proxy/base.py:345-628 | a step carried out on the tables is the protocol's step |
| Runtime.Runtime.RunAll | src/ep_governance/proxy/base.py:345-628 | so any sequence of steps on the tables is a run of the protocol |
| Proxy.GovernedProxy.Execute | src/ep_governance/proxy/base.py:345-628 | executing a token does what the proxy's steps in the protocol do; a refused token changes nothing; left alone, a claimed transition ends succeeded with its node as the new head exactly if the adapter worked, the commit was not aborted and nothing stood in its way, failed if the adapter failed, and otherwise uncertain and flagged with the graph unchanged |
| Proxy.LeftAloneItEnds | src/ep_governance/proxy/base.py:430-628 | the same of the proxy's run in the protocol, from any sound state |
| CallTheorems.ApprovalGoesThroughExactlyWhen | src/ep_governance/transitions.py:470-541 | an approval goes through exactly if the transition waits, is not the approver's own and the approver is no agent; it decides the one pending request and authorizes |
| CallTheorems.DenialGoesThroughExactlyWhen | src/ep_governance/transitions.py:569-632 | a denial goes through exactly if the transition waits and is not the decider's own; it refuses the pending request and denies |
| CallTheorems.CancellationGoesThroughExactlyWhen | src/ep_governance/transitions.py:665-727 | a cancellation goes through exactly before the start, for the agent or an administrator, and changes the stage alone |
| CallTheorems.ExpiryGoesThroughExactlyWhen | src/ep_governance/cli.py:1162-1183 | an expiry goes through exactly while the transition waits or is authorized, and changes the stage alone |
| CallTheorems.OutcomeGoesThroughExactlyWhen | src/ep_governance/transitions.py:824-912 | a failure or unknown outcome is recorded exactly while the transition executes, with its exit status, summary and flag |
| CallTheorems.FailingReviewGoesThroughExactlyWhen | src/ep_governance/transitions.py:1101-1120 | a reconciler settles as failed exactly what is executing or uncertain |
| CallTheorems.ConcludingReviewFlags | src/ep_governance/transitions.py:1046-1146 | the end of a review by a commit changes the flag of its transition alone |
| CallTheorems.IssueGoesThroughExactlyWhen | src/ep_governance/authorizations.py:431-499 | a token is issued exactly if its branch and transition are there and its id is new; the sealed token is stored unused under the hash of its text |
| CallTheorems.ClaimChanges | src/ep_governance/authorizations.py:709-753 | a claim spends one unused authorization and starts its authorized transition, and changes nothing else |
| CallTheorems.ProjectIsCreatedExactlyWhen | src/ep_governance/cli.py:307-321 | a project is created exactly if it has no lattice and the ids are new, with one branch at version 1 and no log |
| CallTheorems.BranchIsCreatedExactlyWhen | src/ep_governance/cli.py:338-366 | a branch is created exactly if its lattice is there and its id is new, at the head of a sibling or at nothing |
| Audit.Verify | src/ep_governance/audit.py:345-373 | accepts exactly the logs that verify; otherwise stops at the first bad row and raises only on an unreadable payload |
| Audit.WritingKeepsLogWellKept | src/ep_governance/audit.py:187-283 | writing an event keeps numbering, head and chain, after the payload went through text and back, and the row is the event as drafted |
| Audit.LastHashDeterminesLog | src/ep_governance/audit.py:79-101 | two logs that verify and end in the same hash are equal event by event and of the same lattice |
| Audit.CutLogPassesAndOnlyHeadShowsIt | src/ep_governance/audit.py:321-373 | every prefix of a log verifies, and only comparing with the head shows the cut |
| Audit.AcceptedLogIsTheKeptOneIffHeadMatches | src/ep_governance/audit.py:321-373 | an accepted log is the kept one exactly when its last hash is the head's |
| Audit.AnyNumberingPasses | src/ep_governance/audit.py:345-373 | for any sequence number some accepted log carries it |
| JsonReader.ReadsValueBack | src/ep_governance/canonical.py:35-50 | reading canonical text gives the value and stops where the text stops |
| JsonReader.LoadReturnsWhatWasWritten | src/ep_governance/audit.py:403-422 | loading what was stored gives the value that was stored |
| JsonReader.TextIsInjective | src/ep_governance/canonical.py:35-50 | different values have different canonical text |
| JsonReader.WrittenTextIsStable | src/ep_governance/canonical.py:35-50 | loading canonical text and writing it again gives the same text |
| Canonical.SameTextIffSameNormalForm | src/ep_governance/canonical.py:86-113 | values have the same canonical text exactly when they normalize alike |
| Canonical.InsertionOrderDoesNotMatter | src/ep_governance/canonical.py:35-50 | the insertion order of a mapping does not show |
| Canonical.KeysOfDifferentKindsCollide | src/ep_governance/canonical.py:86-113 | an integer key and its decimal text as a key are not told apart |
| Canonical.PolicySetHashIsInjective | src/ep_governance/canonical.py:65-78 | equal policy-set hashes mean equal maps from policy id to version |
| Formats.SampleText | src/ep_governance/canonical.py:35-50 | canonical text to the letter: sorted keys, no white space, plain numbers, lower-case literals |
| Formats.EscapesAre | src/ep_governance/canonical.py:35-50 | exactly which characters are escaped, and how |
| Formats.SamplePolicySet | src/ep_governance/canonical.py:65-78 | a policy set is hashed as the text of its pairs in the order of the ids |
| Formats.NothingElseMayFollow | src/ep_governance/audit.py:403-422 | text with anything but white space after a value is not read |
| Formats.UnitsDecode | src/ep_governance/audit.py:403-422 | an escape of four hexadecimal digits of either case stands for the character with their value |
| Tokens.SignedTokenReadsBack | src/ep_governance/authorizations.py:197-241 | a signed token reads back as itself |
| Tokens.TokensAreReadExactly | src/ep_governance/authorizations.py:806-886 | a text is read as a token exactly if it is an object with every field of the token and a signature, not empty, that verifies over all other fields; it passes exactly if, moreover, now is not later than the expiry |
| Tokens.StoredHashFixesToken | src/ep_governance/authorizations.py:694-717 | a text with the stored hash is the issued text and reads back as the issued token |
| Tokens.StoredHashesDiffer | src/ep_governance/authorizations.py:474-475 | different tokens are stored under different hashes |
| Transactions.ConfigIsProper | src/ep_governance/authorizations.py:435-475 | the token codec and the policy-set hash meet what the protocol needs of them |
| PolicyEngine.Engine.EvaluateAction | src/ep_governance/policy_engine.py:91-212 | the engine's loops compute the evaluation that the theorems are about |
| PolicyEngine.Engine.MatchPolicies | src/ep_governance/policy_engine.py:218-307 | the matching policies in order, or the error of the first that raises |
| PolicyEngine.Engine.ComputeOverrides | src/ep_governance/policy_engine.py:399-486 | the override set, with the fallback from matched denials to all policies |
| PolicyMeaning.JudgedExactly | src/ep_governance/policy_engine.py:218-307 | a policy matches exactly if it is active and within its validity, its own project, branch or agent is the context's, a pattern of it covers the action and one a resource, and its conditions are met; judging raises exactly if the context lacks what a current policy is scoped to, or the expression of an otherwise matching one raises |
| PolicyMeaning.BeforeExactly | src/ep_governance/policies.py:214-233 | times compare as text after every Z at their end is dropped, by the first character that differs |
| PolicyMeaning.LiftsExactly | src/ep_governance/policy_engine.py:399-486 | an exception qualifies exactly if it is an agent-scoped allow with an end, a justification and an approver, and lists a global policy |
| PolicyTheorems.EvaluationMeaning | src/ep_governance/policy_engine.py:133-212 | effect and conflict flag are those of an order-free reference definition over the policies that apply and are not lifted; the reported matches are those that apply; if judging any raises, approval is required |
| PolicyTheorems.OrderDoesNotMatter | src/ep_governance/policy_engine.py:133-212 | reordering the policies changes neither effect nor conflict flag |
| PolicyTheorems.DenyExactly | src/ep_governance/policy_engine.py:157-185 | the effect is deny exactly when judging none raises and some deny that applies is not lifted by an exception that applies too |
| PolicyTheorems.PriorityNeverDecidesDenial | src/ep_governance/policy_engine.py:151-185 | changing priorities never creates or removes a denial |
| PolicyTheorems.OverrideSetExactly | src/ep_governance/policy_engine.py:399-486 | exactly which policies the override set names |
| PolicyTheorems.SomethingIsLeft | src/ep_governance/policy_engine.py:140-149 | an overriding policy is never overridden, so the branch for an empty rest is never taken |
| PolicyTheorems.PermissionNeedsAStandingPolicy | src/ep_governance/policy_engine.py:186-212 | allow and warn come from a standing policy of the highest priority that applies, and never by default |
| PolicyTheorems.ExceptionCanRemoveApprovalRequirement | src/ep_governance/policy_engine.py:428-458 | an exception that also lists a policy requiring approval removes that too |
| PolicyTheorems.ListsBothExample | src/ep_governance/policy_engine.py:428-458 | there are policies for which that happens |
| PolicyTheorems.DroppedExactly | src/ep_governance/policy_engine.py:399-486 | exactly when a policy that applies is dropped |
| Xid.Encode | src/ep_governance/xid.py:122-139 | the bit loop writes the 96 bits and four zero bits in base 32 |
| Xid.Decode | src/ep_governance/xid.py:98-119 | the bit loop reads the upper 96 of 100 bits, and any malformed string raises |
| Xid.DecodingUndoesEncoding | src/ep_governance/xid.py:98-139 | every identifier survives being written and read |
| Xid.EncodingUndoesDecodingExactly | src/ep_governance/xid.py:98-139 | a string survives being read and written exactly when it ends in 0 or g |
| Xid.StringsSortLikeBytes | src/ep_governance/xid.py:184-194 | the order of the strings is the order of the bytes |
| XidGenerator.Generator.New | src/ep_governance/xid.py:84-95 | one id from the clamped clock and the advanced counter, or the overflow error |
| XidGenerator.TimestampsNeverDecrease | src/ep_governance/xid.py:84-95 | embedded timestamps never decrease, whatever the clock reads |
| XidGenerator.RunRepeatsExactly | src/ep_governance/xid.py:84-95 | two ids of a run are equal exactly when their timestamps are and they lie a multiple of 2^24 apart |
| XidGenerator.SuccessorIsGreater | src/ep_governance/xid.py:84-95 | the next id is greater except at a counter wrap within one timestamp |
| XidGenerator.OverflowIsForever | src/ep_governance/xid.py:84-95 | once the timestamp overflows every later call fails |
| Formats.AlphabetIs | src/ep_governance/xid.py:25 | the alphabet, symbol by symbol |
| Formats.IdentifierLayout | src/ep_governance/xid.py:94 | four bytes of time, three of the machine, two of the process, three of the counter, high byte first |
| Formats.NextIdentifier | src/ep_governance/xid.py:84-95 | the time is the clock's, or one more than the last where it went back; the counter goes up by one and wraps; later times than four bytes hold raise |
| RateLimiter.RateLimiter.Check | src/ep_governance/proxy_service.py:257-268 | trims the client's queue, decides, and touches no other client |
| RateLimiter.QueueIsRecentHistory | src/ep_governance/proxy_service.py:257-268 | after each call the queue is the full acceptance history filtered to the call's window |
| RateLimiter.NeverMoreThanTheLimit | src/ep_governance/proxy_service.py:257-268 | no window of the configured length, wherever it ends, holds more accepted calls than the limit |
| RateLimiter.RefusedExactlyWhenWindowIsFull | src/ep_governance/proxy_service.py:257-268 | a call is refused exactly when the window ending with it holds the limit |
| RateLimiter.ClientsAreIndependent | src/ep_governance/proxy_service.py:254-268 | what a client's queue holds and which of its calls are accepted depends on that client's calls alone |
| RateLimiter.NoClientExceedsTheLimit | src/ep_governance/proxy_service.py:254-268 | however the calls of the clients are interleaved, no client gets more than the limit accepted in any window |
| RateLimiter.ClientIsRefusedExactlyWhenFull | src/ep_governance/proxy_service.py:254-268 | among interleaved clients a call is refused exactly when its client already has the limit accepted in the window ending with it |
| Resources.DecodingUndoesEncoding | src/ep_governance/resources.py:162-169 | decoding an encoded path gives it back, whatever its bytes |
| Resources.RefusedExactlyWhenRelative | src/ep_governance/resources.py:143-155 | a path is refused exactly when, decoded, it has a piece between slashes that is one dot or two |
| Resources.RefusedAsFileExactly | src/ep_governance/resources.py:287-303 | it is refused as a file exactly when, moreover or instead, all its pieces are empty |
| Resources.SplitIsUnique | src/ep_governance/resources.py:150 | the pieces are the only ones without slashes that join to the text |
| Resources.EscapesDecode | src/ep_governance/resources.py:146-147 | an escape with digits of either case stands for its byte |
| Resources.OthersStay | src/ep_governance/resources.py:146-147 | everything else stays as it is |
| Resources.EncodesExactly | src/ep_governance/resources.py:162-169 | exactly letters, digits and four marks are kept; other bytes become upper-case escapes |
| Resources.EncodedNormalPathIsStable | src/ep_governance/resources.py:143-169 | normalizing the encoding of a normalized path gives that path |
| Resources.CanonicalFileIsIdempotent | src/ep_governance/resources.py:287-311 | canonicalizing a canonical file path changes nothing |
| Resources.CanonicalFilesDiffer | src/ep_governance/resources.py:287-311 | canonical forms are equal exactly when the normalized paths are |
| Resources.UnquoteShortensExactly | src/ep_governance/resources.py:146-147 | decoding shortens a path exactly when it contains an escape, and otherwise changes nothing |
| Resources.NormalizingTwiceIsStableExactly | src/ep_governance/resources.py:143-159 | normalizing again is stable exactly when the decoded path contains no further escape |
| Resources.NormalizingTwiceCanChange | src/ep_governance/resources.py:143-159 | a path for which it is not |
| Transfer.TransferImporter.ImportAsFork | src/ep_governance/transfer.py:396-458 | the three loops compute the import; in every case, failures with partial commits included, no row that was there changes |
| ImportTheorems.ImportGoesThroughExactlyWhen | src/ep_governance/transfer.py:396-458 | a well-formed package is imported exactly if the project has no lattice, the new ids are unused and different, and its inner edges are of a known kind and no loops |
| TransferTheorems.ImportIsIsomorphic | src/ep_governance/transfer.py:404-458 | ids are mapped one to one to unused ids, branch membership is kept, nodes carry the importing agent or their own, and between copies there are exactly the package's edges |
| TransferTheorems.ImportKeepsAcyclic | src/ep_governance/transfer.py:436-458 | an acyclic package stays acyclic |
| TransferTheorems.ExportHasBothEnds | src/ep_governance/transfer.py:305-321 | an export of a sound graph has both ends of every edge it collects |
| TransferTheorems.ExportIsAcyclic | src/ep_governance/transfer.py:291-340 | an export of a sound graph has no cycle |
| TransferTheorems.ForkCopiesTheWholeLattice | src/ep_governance/transfer.py:291-340 | exporting a lattice of a sound graph and importing it copies all of its nodes and edges |
| ImportTheorems.ImportedBranchHasItsCopies | src/ep_governance/transfer.py:414-434 | an imported branch has the copies of the package's nodes of that branch, in package order |
| ImportTheorems.ImportedBranchIsCountedExactlyWhenEmpty | src/ep_governance/transfer.py:407-412 | an imported branch's version and head describe it exactly when no node of the package lies in it |
| ImportTheorems.ImportedStatusIsRightExactlyForTips | src/ep_governance/transfer.py:426-434 | an imported node's status is right exactly when the package has no edge from it to one of its nodes |
| ImportTheorems.TwoNodesExample | src/ep_governance/transfer.py:407-434 | a package of one branch with two linked nodes, for which both are wrong |
| ImportTheorems.ImportLeavesOthersSound | src/ep_governance/transfer.py:404-458 | after an import every lattice that was there has the same lineages, counts, chains, in-degrees and right status, and no edge to a copy |

## Left out

* Cryptography, key files and key encryption: abstracted as said above.
* Isolation levels and dialects: each transaction is atomic and serialisable. Reads that can only refuse early
  (the proxy's check of the stage before the claim, the deployment capability checks) are not steps.
* Import is not a step of the protocol: an imported lattice does not satisfy the invariant (see above). What is
  proved of the other lattices is their state after an import, not the steps taken on them later.
* A proxy configured without a transition engine or a branch committer.
* `record_result` with status success has no caller in the repository and is not modelled.
* Foreign keys to principals and policies, uniqueness of event ids, and descriptive columns (tool, payload,
  risk, budgets, timestamps of rows, execution attempt ids, the approval-to-policy association).
* Parsing of actions into types and resources: classifiers are inputs. A classifier that raises is a call that
  does not happen.
* The one clock reading per policy in policy matching is one reading per evaluation; validity times are
  compared as text, as the code does.
* Token fields of JSON types other than those issued are unreadable in the model; timestamps compare as text of
  one format, so a malformed expiry is not distinguished.
* Floats, dates and byte strings in canonical JSON; text is a sequence of characters, so UTF-8 encoding of the
  hashed text and decoding of percent-escapes to Unicode are not modelled (paths are bytes).
* Policies inside a transfer package, its content hash, the check for prohibited content, and rows of mappings.
* The rate limiter reads its clock just before it takes its lock; here both are one step, so readings come in the
  order of the calls.
* Reseeding of the identifier counter after a fork of the process, and how machine id and process id are found.
* HTTP, MCP and command-line plumbing, adapters, risk ledger, embeddings, dashboards and deployment checks.
- Engines.ProjectAdmin.InitAudit: no code in the repository sets up an audit head, so this models a step of the environment and has no row.
- Canonical.SameTextIffSameNormalForm: the value type has no floats, dates, byte strings or the fallback to `str`, so it says nothing of values that hold those.
- Resources.CanonicalFileIsIdempotent: covers the path of a file resource; the host part and the parsing of the URI are not modelled.
- Resources.CanonicalFilesDiffer: covers the path of a file resource; two resources that differ only in their host are not told apart.
