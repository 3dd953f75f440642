# GhostAPI core: a verified model

GhostAPI guards what autonomous agents do to real systems: it collects independent human
approvals, runs an approved action once, keeps tamper-evident ledgers, brokers
credentials, infers and compares API contracts, redacts secrets from output streams and
ingests reports. This project models the parts of it that have to be right under crashes,
retries and interleaving, or for every input, and proves what they promise.

## How to read it

| part | modules |
|---|---|
| approvals and the action gateway, one crash-prone protocol | `ApprovalInbox`, `InboxLifecycle`, `ActionGateway`, `ApprovedExecution`, `RequestTerms`, `ExecutionSafety`, `ExecutionAuthority`, `InboxAnswers`, `InboxWrites`, `GatewayAnswers`; in place: `InboxStore`, `GatewayStore` |
| contract inference, merge and diff | `Schemas`, `ContractInference`, `InferenceTight`, `ContractDiff`, `DiffSeverity`, `DiffLocations` |
| streaming secret redactor | `Redactor`, `RedactorSecrets` |
| outbox dispatcher and report worker | `ReportJobs`, `JobFinality`, `JobSettling`, `JobAnswers`; in place: `JobStore` |
| action ledger | `ActionLedger`, `LedgerHistory`, `LedgerAnswers`; in place: `LedgerStore` |
| credential broker | `CredentialBroker`, `BrokerExecution`, `BrokerAnswers`; in place: `BrokerStore` |
| canonical JSON | `CanonicalJson`, `JsonText` |
| report ingest and cleanup | `ReportIngest`, `IngestAnswers`; in place: `IngestStore` |
| attack paths and blast radius | `AttackPaths`, `PathEdges`, `BlastRadius` |
| policy globs | `Glob` |

Protocols are state machines: a total function applies one event to a state, an event that
the code would refuse changes nothing, and `Run` (or `RunFrom`, `After`) folds any sequence of
events. Main theorems quantify over all such sequences. The modules named "in place" hold
the imperative form of the same operations, classes and loops whose `ensures` tie them to
those functions. The modules `RequestTerms`, `InboxAnswers`, `InboxWrites`, `GatewayAnswers`,
`InferenceTight`, `DiffSeverity`, `DiffLocations`, `RedactorSecrets`, `JobAnswers`,
`LedgerAnswers`, `BrokerAnswers`, `JsonText`, `IngestAnswers` and `PathEdges` say from the data
alone, with the limits written out, which answer every operation gives; they do not use the
functions that compute it.

## Modelling decisions

- A locked read-modify-write of a store file, and an SQL transaction, is one atomic step. A
  crash may come between any two steps. `execute` of the inbox keeps its lock from first read
  to last write, so no other inbox operation runs inside it; a crash releases the lock.
- SHA-256 is a datatype constructor, hence injective, with genesis values that differ from
  every other hash. In `ReportIngest` the hash of a request is its canonical text.
- Clocks, random ids, the adapter, the vault, the executor, verifiers, quota and project
  lookups are parameters of the events, so theorems hold for every answer they give. Report
  ids in `ReportIngest` are taken to be fresh.
- Letter case in `Redactor` is ASCII, and each step takes one character; `Glob` is for
  characters of one code unit. Outside that, `toLowerCase` can change lengths and a pattern
  is walked by code points but a value by code units.
- Numbers in `CanonicalJson` stand for their shortest decimal text, strings are UTF-16 code
  units. `stableJson` of the hosted service prints the same text for JSON data.
- Findings of a contract diff form a set: the code sorts them before it returns them.

## Where the code does less than one may expect

- A worker that outlives its lease can undo a completed job, since the failure path writes
  without a condition (`JobFinality.LateWorkerUndoesCompletion`). Once one worker wrote late,
  even a worker within its lease that holds the claim can bury a completed job
  (`HolderBuriesCompletion`). `FinalityExactly` says of every run exactly when settled receipts
  are final, and `ReportJobs.TimelyWorkersAreSafe` that no worker outliving its lease is enough.
- A worker that stops on its last attempt strands the receipt for good
  (`JobSettling.JobsGetStranded`); `SettlesUnlessStranded` says that nothing else does.
- Merging enums intersects them and so can reject values that one side accepts
  (`Schemas.MergeOfEnumsLosesValues`); `MergeOfEnumsExact` says exactly when. Inferred schemas
  have no enums (`ContractInference.FoldSound`), so folding observations never reaches that branch.
- A clean request diff may still reject a value that carried an undeclared field
  (`ContractDiff.CleanRequestNeedsDeclaredFields`); `CleanRequestExact` says exactly which.
- A report resent after its idempotency row expired, while the report is still stored, is
  neither accepted nor answered as a duplicate (`ReportIngest.LateRetryIsRefused`);
  `AcceptedExactlyWhen` gives the exact condition.
- A request that the policy allows is still not stored when its escalation time lies after the
  expiry of its action, or when its action was requested before, even if that request was
  superseded (`InboxWrites.NewRequestIsStored` gives the exact condition).
- A number followed by a character that continues it cannot be read back
  (`CanonicalJson.UniquelyDecodable` is an equivalence); inside canonical text that never happens.

## Model

| member | source | states |
|---|---|---|
| `ExecutionSafety.StartedAtMostOnce` | src/actions/gateway.ts:519-722 | in every run of inbox and gateway, with a crash possible between any two durable writes, no two starts of the adapter share an action id |
| `ExecutionSafety.StartedOnlyIfApproved` | src/approvals/approvalInbox.ts:311-361 | every started action is that of a consumed request with two approvals where its policy calls updates critical or its confidence is below the policy's minimum, and with one otherwise, all before escalation and expiry, by approvers who differ pairwise in id, principal and independence key, none of them the actor or its workload; the policy's terms hold of it and it was consumed before it expired |
| `ExecutionAuthority.StartedByItsActor` | src/approvals/approvalInbox.ts:431-460 | whoever began the execution in which the adapter is started is the action's own actor and workload and named the approved request's policy |
| `ExecutionAuthority.StartedInTime` | src/actions/gateway.ts:614-627 | every start was preceded by a durable attempt within the life of the approval that an inbox request issued for this action, and before the action expired |
| `ExecutionAuthority.AnswerIsRecorded` | src/actions/gateway.ts:628-683 | the receipt written after the adapter answered says committed with its proof, unknown outcome or error, as it answered |
| `ExecutionAuthority.VerificationIsRecorded` | src/actions/gateway.ts:684-720 | the receipt written after verification says verified with its proof, or failed keeping the committed proof |
| `RequestTerms.RequestsAreFair` | src/approvals/approvalInbox.ts:986-1035 | in every reachable state every request was created on its policy's terms, needs two approvals exactly where the policy says so, has the expiry and escalation the policy sets, and its approvals and consumption kept to them |
| `RequestTerms.RefreshFair` | src/approvals/approvalInbox.ts:1272-1287 | after a refresh what is pending is before escalation and expiry, what is approved before expiry |
| `InboxAnswers.AskingDecides` | src/approvals/approvalInbox.ts:236-309 | for an action without a live request a new one is made exactly when action, policy and context are in bounds, the policy permits it and the actor has room in the window; it starts pending on the policy's terms |
| `InboxAnswers.AskingAgain` | src/approvals/approvalInbox.ts:236-309 | an action with a live request gets that one back and no second is made |
| `InboxAnswers.ApprovalDecides` | src/approvals/approvalInbox.ts:311-361 | a pending request takes an approval exactly from an outsider who has not approved yet, in time; the artifact comes with the first approval, or with the second where two are needed |
| `InboxAnswers.VerdictDecides` | src/approvals/approvalInbox.ts:558-603 | a request is rejected or revoked exactly while it is open, and ends as asked |
| `InboxAnswers.EditDecides` | src/approvals/approvalInbox.ts:379-413 | a request can be superseded exactly as long as its approval is not consumed |
| `InboxAnswers.BeginningDecides` | src/approvals/approvalInbox.ts:415-487 | an execution begins exactly when the caller is the request's actor and workload under its policy, the window has room, and the request is executing, executed, or approved and unexpired |
| `InboxAnswers.VelocityCounts` | src/approvals/approvalInbox.ts:1014-1024 | the velocity is the number of the actor's other live requests since the cutoff |
| `InboxWrites.NewRequestIsStored` | src/approvals/approvalInbox.ts:708-846 | a new request is stored exactly when its escalation is not after the action's expiry, inbox and audit trail have room, and neither its id nor its action was ever requested |
| `InboxWrites.ChangesAreStored` | src/approvals/approvalInbox.ts:639-641 | a decided approval, verdict, edit or refresh is stored unless the audit trail is full, and then nothing is |
| `InboxWrites.ConsumptionIsStored` | src/approvals/approvalInbox.ts:476-487 | so is the consumption of an approval |
| `InboxWrites.FinishStores` | src/approvals/approvalInbox.ts:498-515 | a verified execution ends with the request executed under the receipt's hash and the receipt handed back, unless the write fails or the audit trail is full |
| `InboxWrites.CatchStores` | src/approvals/approvalInbox.ts:516-535 | the catch block closes the request exactly when the gateway has a failed receipt for its action |
| `InboxWrites.ChainExactly` | src/approvals/approvalInbox.ts:890-901 | a chain is intact exactly when each record has its number, the hash of the record before it and its own hash |
| `GatewayAnswers.SubmitDecides` | src/actions/gateway.ts:468-510 | handing over an action succeeds exactly with its own record, or with none under its id, an outsider's approval for it and nothing run out; then one requested receipt is recorded |
| `GatewayAnswers.AttemptDecides` | src/actions/gateway.ts:614-627 | an attempt is recorded exactly when there was none before and nothing has run out |
| `GatewayAnswers.ResumeDecides` | src/actions/gateway.ts:558-613 | a verified record answers its receipt; an attempted one is committed, if it was not, and verified exactly when the adapter can prove what happened |
| `GatewayAnswers.ReplayReturns` | src/approvals/approvalInbox.ts:463-475 | replaying an executed request always hands its receipt back |
| `GatewayAnswers.VouchesExactly` | src/approvals/approvalInbox.ts:193-228 | in every run the inbox vouches for an approval exactly when it holds the request that issued it, for this action, executing or executed |
| `GatewayAnswers.RecordsAreChained` | src/actions/gateway.ts:918-967 | in every run a stored record is a linked chain of receipts for one action, approved by an outsider, commits and verifications with proof and failures with their reason |
| `ExecutionSafety.DeadNeverStarts` | src/approvals/approvalInbox.ts:415-535 | once a request is rejected, revoked, timed out, expired or superseded, no continuation of the run ever starts its action, and none did before |
| `ExecutionSafety.ReceiptHistories` | src/actions/gateway.ts:558-720 | every stored receipt history has one of eight shapes, at most five long, so the receipt limit is never reached, and passes the stored-action checks |
| `ExecutionSafety.VerifiedIsFinal` | src/actions/gateway.ts:558-559 | a record that ends in `verified` is the same record after any further events |
| `ExecutionSafety.OneReceiptPerAction` | src/approvals/approvalInbox.ts:463-515 | all receipts ever handed back for an action are one and the same verified receipt, and an executed request stores exactly its hash |
| `ExecutionSafety.RequestLifecycle` | src/approvals/approvalInbox.ts:735-846 | consumption is recorded exactly for executing, executed and failed requests; at most three decisions; replaying the intact audit chain yields each request's status |
| `ExecutionSafety.PendingNeverExpires` | src/approvals/approvalInbox.ts:1272-1287 | no step takes a pending request to expired |
| `ExecutionSafety.AtMostThreeChanges` | src/approvals/approvalInbox.ts:379-413 | over any run a request changes status at most three times |
| `ExecutionSafety.VelocityOverRuns` | src/approvals/approvalInbox.ts:1014-1024 | with one policy, any closed interval of the window's length holds the creation times of at most `maxActions` live requests of an actor; no assumption on the clock |
| `ApprovedExecution.StepInv` | src/approvals/approvalInbox.ts:415-535 | every step keeps the joint invariant of inbox, gateway store and running process, and moves requests only forward |
| `ApprovedExecution.RunInv` | src/approvals/approvalInbox.ts:193-228 | the joint invariant holds in every reachable state |
| `ApprovedExecution.BeginInv` | src/approvals/approvalInbox.ts:415-487 | consuming an approval before execution keeps the joint invariant |
| `ApprovedExecution.SubmitInv` | src/actions/gateway.ts:468-510 | so does recording the action with its requested receipt |
| `ApprovedExecution.ResumeInv` | src/actions/gateway.ts:558-613 | so does resuming a record that a crash left behind: nothing is attempted twice |
| `ApprovedExecution.AttemptInv` | src/actions/gateway.ts:614-627 | so does the attempt receipt that must be durable before the adapter is called |
| `ApprovedExecution.AdapterDoneInv` | src/actions/gateway.ts:628-683 | so does recording what the adapter answered |
| `ApprovedExecution.VerifyInv` | src/actions/gateway.ts:684-720 | so does recording the verification |
| `ApprovedExecution.FinishInv` | src/approvals/approvalInbox.ts:498-515 | so does storing the receipt's hash with the executed request |
| `ApprovedExecution.CatchInv` | src/approvals/approvalInbox.ts:516-535 | so does the failure write of the catch block |
| `InboxLifecycle.RequestKeeps` | src/approvals/approvalInbox.ts:236-309 | a new request keeps every request good and the audit chain telling each status |
| `InboxLifecycle.ApproveKeeps` | src/approvals/approvalInbox.ts:311-361 | an approval keeps them, including the independence of all approvals and the artifact issued with the last one |
| `InboxLifecycle.DecideKeeps` | src/approvals/approvalInbox.ts:558-603 | a rejection or revocation keeps them |
| `InboxLifecycle.SupersedeKeeps` | src/approvals/approvalInbox.ts:379-413 | superseding a request for an edit keeps them |
| `InboxLifecycle.RefreshKeeps` | src/approvals/approvalInbox.ts:1272-1287 | timing out and expiring requests keeps them, moves requests only forward and consumes nothing |
| `InboxStore.RefreshAll` | src/approvals/approvalInbox.ts:1272-1287 | the loop over all requests computes the refresh that the invariants are proved of |
| `InboxStore.CountApprovals` | src/approvals/approvalInbox.ts:311-361 | the loop counts the approvals among the decisions |
| `InboxStore.ValidateAuditChain` | src/approvals/approvalInbox.ts:890-901 | the loop accepts exactly the intact audit chains |
| `InboxStore.LocalApprovalInbox.Write` | src/approvals/approvalInbox.ts:639-641 | given a new state that keeps the lifecycle invariant and moves no request back whenever it validates, the stored inbox keeps both, and it changes as a whole or not at all, exactly as the validation decides |
| `InboxStore.ValidateState` | src/approvals/approvalInbox.ts:708-734 | the passes over requests, ids, action hashes and audit trail accept exactly the valid inboxes |
| `InboxStore.AllUnique` | src/approvals/approvalInbox.ts:720-727 | collecting what was seen decides exactly whether a list has no repetition |
| `InboxStore.LocalApprovalInbox.Ask` | src/approvals/approvalInbox.ts:236-309 | the new state is the committed request operation (`InboxAnswers.AskingDecides` says which, and how many approvals it asks for); the inbox stays valid and no request moves back |
| `InboxStore.LocalApprovalInbox.Approve` | src/approvals/approvalInbox.ts:311-361 | likewise for an approval |
| `InboxStore.LocalApprovalInbox.DecideTerminal` | src/approvals/approvalInbox.ts:558-603 | likewise for a rejection or revocation |
| `InboxStore.LocalApprovalInbox.SupersedeForEdit` | src/approvals/approvalInbox.ts:379-413 | likewise for superseding |
| `ActionGateway.FindLatestReceipt` | src/actions/gateway.ts:1167-1176 | the backward loop finds the last receipt of a status, or that there is none |
| `ActionGateway.AppendedOk` | src/actions/gateway.ts:969-1014 | appending a well-formed receipt keeps the record valid and adds exactly its status |
| `ActionGateway.ShapeTells` | src/actions/gateway.ts:558-613 | for the eight shapes, the latest-receipt lookups that `execute` branches on determine where the record stands |
| `GatewayStore.LastHashCommits` | src/actions/gateway.ts:969-1003 | the hash of the last receipt of a valid record determines the action and the whole receipt history |
| `GatewayStore.ValidateStoredAction` | src/actions/gateway.ts:918-967 | the loop accepts exactly the records whose approval, links, hashes and classifications agree |
| `GatewayStore.StoredAction.constructor` | src/actions/gateway.ts:468-510 | a fresh record is valid and holds one requested receipt |
| `GatewayStore.StoredAction.AppendReceipt` | src/actions/gateway.ts:1005-1014 | the record stays valid, grows by exactly the new status, or is unchanged when full |
| `Schemas.InferSound` | src/contracts/contract.ts:720-759 | the inferred schema is enum-free with required fields declared, and its value conforms to it, at any depth (`InferenceTight.InferTight` adds that it accepts no more than it must) |
| `Schemas.InferElementsSound` | src/contracts/contract.ts:726-738 | every element of an array conforms to the merged element schema |
| `Schemas.MergeUpperBound` | src/contracts/contract.ts:761-802 | what conforms to either inferred schema conforms to their merge, at every depth |
| `Schemas.MergeInferred` | src/contracts/contract.ts:761-802 | merging inferred schemas gives an inferred schema |
| `Schemas.MergeIdempotent` | src/contracts/contract.ts:761-802 | merging a schema with itself changes nothing |
| `Schemas.MergeCommutes` | src/contracts/contract.ts:761-802 | merge is commutative on inferred schemas |
| `Schemas.MergeAssociates` | src/contracts/contract.ts:761-802 | merge is associative on inferred schemas |
| `Schemas.MergeOfEnumsExact` | src/contracts/contract.ts:761-802 | for all schemas, enums at any depth included: what either side describes is described by the merge exactly when it lies in every intersection of enums it meets |
| `Schemas.MergeOfEnumsLosesValues` | src/contracts/contract.ts:771-778 | two enums whose merge rejects a value that one of them accepts |
| `Schemas.StrictImpliesLax` | src/contracts/contract.ts:761-802 | reading an array schema without items as "only empty arrays" accepts no more than reading it as "any array" |
| `ContractInference.ContractFromScenario` | src/contracts/contract.ts:193-229 | the loop over the interactions computes the fold that `FoldSound`, `FoldTight` and `FoldIgnoresOrder` are about, or fails exactly when it does |
| `ContractInference.FoldSound` | src/contracts/contract.ts:198-221 | after any list of interactions, every observed request and response body conforms to the final schema of its operation and status |
| `ContractInference.FoldExact` | src/contracts/contract.ts:198-221 | the contract has exactly the operations and statuses that were observed |
| `ContractInference.FoldIgnoresOrder` | src/contracts/contract.ts:198-229 | every permutation of the interactions gives the same contract |
| `InferenceTight.FoldTight` | src/contracts/contract.ts:193-229 | for every operation and status the schema is set exactly when bodies were observed; it has a type exactly when all of them have it; for objects a field is declared, and required, exactly when every observed body has it; the same below each shared field and over all elements |
| `InferenceTight.ContractAcceptsExactly` | src/contracts/contract.ts:193-229 | a body conforms to the finished contract exactly when it looks like the bodies observed for that operation, or status: their common type, every field they share, and so on below |
| `InferenceTight.AcceptsExactly` | src/contracts/contract.ts:720-802 | the same for any tight schema |
| `InferenceTight.MergeTight` | src/contracts/contract.ts:761-802 | merging the tight schemas of two lists of bodies gives the tight schema of both together |
| `InferenceTight.InferTight` | src/contracts/contract.ts:720-759 | the schema inferred from one body is the tight one |
| `InferenceTight.InferElementsTight` | src/contracts/contract.ts:726-738 | so is the schema of an array's elements |
| `InferenceTight.InferRefusesExactly` | src/contracts/contract.ts:720-759 | inference fails exactly for bodies nested too deep or with an object of more than a hundred fields |
| `InferenceTight.FoldRefusesExactly` | src/contracts/contract.ts:193-229 | the fold fails exactly when some observed body does |
| `ContractDiff.CleanUnfolds` | src/contracts/contract.ts:804-902 | a schema diff has no breaking or uncertain finding exactly when the two schemas agree locally and all diffs below are clean |
| `ContractDiff.CleanRequestExact` | src/contracts/contract.ts:804-902 | after a clean request diff, a value accepted before is accepted after exactly when its newly declared fields fit the new declarations, at any depth |
| `ContractDiff.CleanRequestAccepts` | src/contracts/contract.ts:804-902 | in particular every value with declared fields only stays accepted, and keeps declared fields only |
| `ContractDiff.CleanRequestNeedsDeclaredFields` | src/contracts/contract.ts:879-889 | a clean request diff and a value with an undeclared field that is no longer accepted |
| `ContractDiff.CleanResponseExact` | src/contracts/contract.ts:804-947 | a response diff is clean exactly when both schemas have the same normal form |
| `ContractDiff.SameNormalSameValues` | src/contracts/contract.ts:904-947 | schemas with the same normal form accept the same values |
| `ContractDiff.CleanResponseSame` | src/contracts/contract.ts:804-947 | after a clean response diff both schemas accept exactly the same values |
| `ContractDiff.CleanContractsCompatible` | src/contracts/contract.ts:342-452 | a clean contract diff keeps every operation and its statuses, keeps accepting a request accepted before exactly when its newly declared fields fit, and accepts the same responses |
| `DiffLocations.ContractLocates` | src/contracts/contract.ts:342-452 | a finding is in the comparison of two contracts exactly when it names an endpoint or status on one side only, or a change of a shared schema, at its own location and with its own severity |
| `DiffLocations.DiffLocates` | src/contracts/contract.ts:804-947 | the findings of two schemas are exactly their changes, each at its location below shared properties and items of agreeing types, with the severity it has for requests or responses |
| `DiffSeverity.ContractUnbrokenExactly` | src/contracts/contract.ts:342-452 | no finding is breaking exactly when every endpoint and status is still there and nothing is taken away from a shared schema |
| `DiffSeverity.NoBreakingExactly` | src/contracts/contract.ts:804-947 | two schemas have no breaking finding exactly when types agree, no enum value is lost, no field becomes required in a request or stops being so in a response, no response property goes, and so on below |
| `DiffSeverity.DiffExactly` | src/contracts/contract.ts:804-947 | a kind of finding occurs exactly when that change is somewhere in the schemas, and only with its own severity |
| `DiffSeverity.OperationUnbroken` | src/contracts/contract.ts:342-452 | the same for one endpoint with its request and statuses |
| `ContractDiff.PushSchemas` | src/contracts/contract.ts:804-902 | the recursive push into the shared list adds exactly the findings of the diff, which `DiffLocations.DiffLocates` says from the schemas |
| `ContractDiff.PushOwn` | src/contracts/contract.ts:839-889 | the pushes of one node add exactly its own findings, with the severities that `DiffLocations.DiffLocates` states |
| `ContractDiff.PushEnum` | src/contracts/contract.ts:904-947 | the enum comparison adds exactly the enum findings |
| `ContractDiff.PushPerField` | src/contracts/contract.ts:842-889 | the loop over fields adds one finding per field |
| `ContractDiff.PushMissing` | src/contracts/contract.ts:923-946 | the loop over values adds one finding per value missing on the other side |
| `Redactor.StreamingEqualsReference` | src/egress/run.ts:554-616 | for every way of cutting the input the machine writes what the reference writes for the whole text; what that is, `RedactorSecrets.SecretIsHidden` and `PlainTextPasses` say |
| `RedactorSecrets.SecretIsHidden` | src/egress/run.ts:561-586 | behind the first secret word, in any letter case, the whole run of key characters (or of non-space after the authorization scheme) disappears: the output is the text before, the mask and the redacted rest |
| `RedactorSecrets.OutputIgnoresSecret` | src/egress/run.ts:554-616 | two inputs that differ only in the secret give the same output, however they are cut |
| `RedactorSecrets.PlainTextPasses` | src/egress/run.ts:561-609 | text in which no secret word occurs goes through unchanged |
| `Redactor.BufferIsLongestPartialSuffix` | src/egress/run.ts:588-607 | what is held back is always the longest suffix of the current segment that is a proper prefix of a pattern, at most ten characters |
| `Redactor.RedactedIsClean` | src/egress/run.ts:61-69 | the output contains none of the seven key prefixes in any letter case, and every "bearer " in it is followed by the mask |
| `Redactor.StreamingRedactor.SafeSuffixLength` | src/egress/run.ts:588-602 | the maximum over the patterns is the longest suffix that is a proper prefix of any of them |
| `Redactor.StreamingRedactor.LongestPartial` | src/egress/run.ts:593-599 | the inner loop finds the longest suffix that is a proper prefix of one pattern |
| `Redactor.StreamingRedactor.FlushSafePrefix` | src/egress/run.ts:588-607 | writes all but that suffix and keeps it |
| `Redactor.StreamingRedactor.ConsumeCharacter` | src/egress/run.ts:561-586 | one turn of the loop is one step of the machine |
| `Redactor.StreamingRedactor.Write` | src/egress/run.ts:561-586 | a chunk is fed character by character |
| `Redactor.StreamingRedactor.Flush` | src/egress/run.ts:609-615 | what was written is then the reference's output for the whole text, without key prefixes and with every authorization word masked; that the secrets themselves are gone is `RedactorSecrets.SecretIsHidden` |
| `ReportJobs.AttemptsBounded` | hosted/src/worker.ts:44-119 | in every interleaving with crashes an event is leased at most `maxAttempts` times and a receipt claimed at most `workerMaxAttempts` times |
| `ReportJobs.TimelyWorkersAreSafe` | hosted/src/worker.ts:139-212 | if no worker writes after its lease, completed and dead-letter receipts are final and every report's status agrees with its receipt |
| `JobFinality.ReportsAlwaysAgree` | hosted/src/worker.ts:139-270 | in every interleaving, however late any worker writes, each report's status agrees with the receipt of its event, and a receipt has a lease exactly while in processing |
| `JobFinality.FinalityExactly` | hosted/src/worker.ts:194-208 | over any run, whatever was settled at any moment stays as it was at every later moment exactly when no failure write meets a completed receipt, or a dead-lettered one that it means to retry |
| `JobFinality.StepKeepsFinalExactly` | hosted/src/worker.ts:36-270 | in every state and for every event, settled receipts stay exactly unless the event is a completion or failure write that meets one settled otherwise |
| `ReportJobs.FencedFinality` | hosted/src/worker.ts:139-212 | finality needs only that no overtaken worker writes |
| `ReportJobs.FencedAgrees` | hosted/src/worker.ts:139-212 | in such runs a worker whose claim is the latest finds its receipt in processing under its own lease |
| `JobFinality.LateWorkerUndoesCompletion` | hosted/src/worker.ts:194-208 | a published job that one worker completes and a late one turns back to failed |
| `JobFinality.HolderBuriesCompletion` | hosted/src/worker.ts:139-208 | a published job whose completion is buried by a worker that is within its lease and holds the claim, after another worker wrote late |
| `JobFinality.FailureOverwritesExactly` | hosted/src/worker.ts:194-208 | in any state, a failure write keeps settled receipts exactly when its event has no receipt, or one that is not settled, or one it rewrites to what it is |
| `JobFinality.CompletionOverwritesExactly` | hosted/src/worker.ts:139-192 | the same for a completion |
| `JobSettling.SettlesUnlessStranded` | hosted/src/worker.ts:214-270 | in every reachable state an accepted event has a continuation that completes or dead-letters it exactly unless it is stranded: on its last attempt, in processing, with no worker left |
| `JobSettling.StrandedForever` | hosted/src/worker.ts:231-263 | a stranded receipt stays as it is in every continuation |
| `JobSettling.JobsGetStranded` | hosted/src/worker.ts:214-270 | whatever the limits, some run strands a published job |
| `JobAnswers.SettledAnswersDuplicate` | hosted/src/worker.ts:244-248 | in every run redelivering a settled event is answered as a duplicate and changes nothing |
| `JobAnswers.ClaimAnswers` | hosted/src/worker.ts:214-270 | in any state a claim gives exactly the answer the receipt calls for, and mismatch, duplicate and lease active write nothing |
| `JobAnswers.ClaimWrites` | hosted/src/worker.ts:214-270 | a claim takes one attempt under a lease of five minutes and moves the report on, or dead-letters what is spent |
| `JobAnswers.FailureVerdict` | hosted/src/worker.ts:194-212 | a failure is put back exactly when it can be retried and attempts are left, and otherwise ends the job |
| `JobAnswers.CompletionVerdict` | hosted/src/worker.ts:139-192 | a completion goes through exactly while the receipt is in processing, and otherwise becomes a failure without retry |
| `JobAnswers.DispatchWrites` | hosted/src/worker.ts:44-80 | a dispatch buries exactly the events without attempts left and leases for a minute exactly those it picked that are due |
| `JobAnswers.DispatchAbandonsExactly` | hosted/src/worker.ts:45-59 | it abandons exactly the accepted reports of buried events |
| `JobAnswers.PublishWrites` | hosted/src/worker.ts:82-119 | a publish marks the event dispatched; a failed one waits again or is buried with its last attempt |
| `JobAnswers.CloseWrites` | hosted/src/worker.ts:104-119 | the report of a buried event is abandoned exactly if it was still accepted |
| `JobStore.SettledKeepsReceipts` | hosted/src/worker.ts:82-119 | the dispatcher's loop leaves receipts, attempts and the events' reports alone |
| `JobStore.HostedTables.LeaseBatch` | hosted/src/worker.ts:44-80 | at most the limit of events is leased, each for one attempt more: the oldest eligible ones that are not locked, and all of them unless the batch is full |
| `JobStore.HostedTables.BuryRows` | hosted/src/worker.ts:45-59 | the passes over rows and reports bury exactly the events without attempts left and abandon exactly their accepted reports |
| `JobStore.HostedTables.LeaseRows` | hosted/src/worker.ts:60-79 | the walk in order of creation leases exactly the first eligible unlocked rows |
| `JobStore.HostedTables.SettleBatch` | hosted/src/worker.ts:82-119 | the loop over the batch writes what each publish calls for |
| `JobStore.HostedTables.ClaimReport` | hosted/src/worker.ts:214-270 | the answer follows from the receipt alone: duplicate exactly when completed or dead-lettered, lease active exactly when in processing with a running lease or no attempts left, dead-lettered exactly when failed without attempts left, claimed exactly otherwise, mismatch exactly for another event; refusals change nothing |
| `JobStore.HostedTables.CompleteReport` | hosted/src/worker.ts:139-192 | where the tables agree it succeeds exactly while the receipt is in processing; they still agree afterwards and no settled receipt changes; otherwise nothing changes |
| `JobStore.HostedTables.RecordFailure` | hosted/src/worker.ts:198-208 | where the tables agree they still do, with the receipt failed or dead-lettered, and settled receipts survive exactly when this one was not settled or is rewritten to what it was |
| `ActionLedger.RunOk` | src/ledger/actionLedger.ts:171-374 | after any sequence of records, retention changes, holds and deletion requests by any tenants, with the rotations they force, every tenant's chain verifies, limits hold and no entry is an orphan |
| `ActionLedger.StepOk` | src/ledger/actionLedger.ts:887-968 | every single operation keeps that |
| `ActionLedger.RotationExact` | src/ledger/actionLedger.ts:924-944 | rotation keeps all chains intact; a tenant with retention and no hold keeps exactly the contents inside its own retention, in order; any other keeps its very entries |
| `ActionLedger.RelinkLinks` | src/ledger/actionLedger.ts:946-968 | relinking gives an intact chain with the same contents in the same order |
| `ActionLedger.HeadCommits` | src/ledger/actionLedger.ts:904-921 | two intact chains of a tenant with the same head hash are the same entries |
| `ActionLedger.SameHeadSameEntries` | src/ledger/actionLedger.ts:1013-1049 | in any two verified states a tracked tenant with the same head hash has the same entry sequence |
| `LedgerHistory.ShieldedHistoryOnlyGrows` | src/ledger/actionLedger.ts:924-944 | whatever any tenant does, the entries of a tenant under a hold, until it is released, or without retention, until one is set, stay and only grow at the end |
| `LedgerHistory.RecordIsIdempotent` | src/ledger/actionLedger.ts:171-190 | recording an action again changes nothing and another hash under its id is refused, even if the first recording forced a rotation |
| `LedgerAnswers.GovernanceDecides` | src/ledger/actionLedger.ts:304-374 | retention, hold and deletion requests are refused exactly for a retention outside one day to ten years, a deletion under a hold, or no place for the tenant or entry |
| `LedgerAnswers.HoldRefusesDeletion` | src/ledger/actionLedger.ts:352-374 | a deletion request under a hold changes nothing |
| `LedgerAnswers.GovernanceSets` | src/ledger/actionLedger.ts:304-374 | an operation that goes through leaves its tenant with exactly the flags asked for and everybody else's as they were |
| `LedgerAnswers.GovernanceRecords` | src/ledger/actionLedger.ts:887-922 | with room it appends its one entry to the tenant's history and touches no other |
| `LedgerAnswers.RecordAppendsAll` | src/ledger/actionLedger.ts:171-257 | with room, a new action's stages are appended all, in order, under its id and hash, to its tenant's history only |
| `LedgerAnswers.AppendFlags` | src/ledger/actionLedger.ts:887-944 | an appended entry, with the rotation it may force, changes nobody's retention, hold or deletion mark |
| `LedgerStore.RelinkTenantChain` | src/ledger/actionLedger.ts:946-968 | the loop with its running hash yields an intact chain with the same contents |
| `LedgerStore.VerifyTenantState` | src/ledger/actionLedger.ts:999-1056 | the loop answers valid exactly for an untracked tenant or an intact count, chain and head |
| `LedgerStore.Draft.RotateForRetention` | src/ledger/actionLedger.ts:924-944 | the loop over tenants, relinking in place, is the rotation |
| `LedgerStore.Draft.AppendEntry` | src/ledger/actionLedger.ts:887-922 | appends to the tenant's chain, after a rotation when full, or refuses |
| `LedgerStore.Draft.GetOrCreateTenant` | src/ledger/actionLedger.ts:970-989 | finds the tenant, adds a fresh one, or refuses when full |
| `LedgerStore.Draft.RecordAction` | src/ledger/actionLedger.ts:171-257 | all stages are appended, or the existing timeline answers, or the operation fails |
| `LedgerStore.Draft.ConfigureRetention` | src/ledger/actionLedger.ts:304-327 | sets the retention and records it |
| `LedgerStore.Draft.SetLegalHold` | src/ledger/actionLedger.ts:329-350 | sets the hold and records it |
| `LedgerStore.Draft.RequestDeletion` | src/ledger/actionLedger.ts:352-374 | refused under a hold, recorded once |
| `BrokerExecution.UnrevokedGrantsAreCurrent` | src/credentials/credentialBroker.ts:238-364 | in every reachable store an unrevoked grant carries the current version of its unrevoked credential and does not outlive it |
| `BrokerExecution.ExecutorRunsAtMostOnce` | src/credentials/credentialBroker.ts:366-468 | the executor is called at most once per grant, in every interleaving and with every crash |
| `BrokerExecution.SecretWasCurrent` | src/credentials/credentialBroker.ts:419-520 | at each call, and at each check passed while running, there was a state of this run, that of the last activity check, in which grant and credential were good, the grant was the caller's own, its provider and scopes within the executor's, its receipt in execution, and the secret in hand was behind the credential's vault reference |
| `BrokerExecution.ReceiptTellsWhetherItRan` | src/credentials/credentialBroker.ts:522-553 | a failed receipt's executor was never called, an executed one's was |
| `BrokerExecution.SettledReceiptsAreFinal` | src/credentials/credentialBroker.ts:522-553 | a receipt that left `executing` never changes again |
| `BrokerExecution.RunInv` | src/credentials/credentialBroker.ts:212-553 | the invariant over store, executions in progress and calls made holds in every reachable state, including all checks made when the store is read back |
| `BrokerAnswers.BeginDecides` | src/credentials/credentialBroker.ts:374-418 | an execution starts exactly for the caller's own good grant without receipt, at the credential's version and within the executor's provider and scopes; an executed grant answers its receipt |
| `BrokerAnswers.IssueDecides` | src/credentials/credentialBroker.ts:290-364 | a grant is issued exactly to the owner or with break-glass authorization, for at most fifteen or five minutes within credential and workload, at the current version |
| `BrokerAnswers.RotateDecides` | src/credentials/credentialBroker.ts:238-269 | rotation is refused exactly for a missing or revoked credential or a past expiry; it counts the version up and revokes exactly the credential's grants |
| `BrokerAnswers.RevokeDecides` | src/credentials/credentialBroker.ts:271-288 | revocation marks the credential and revokes exactly its grants |
| `BrokerAnswers.RegisterDecides` | src/credentials/credentialBroker.ts:212-236 | registration is refused exactly for a known key, a full store or an expiry before creation; it starts at version one |
| `BrokerAnswers.EndIsRecorded` | src/credentials/credentialBroker.ts:522-553 | the receipt says executed, unknown or failed as the execution ended |
| `BrokerAnswers.OnlyCheckedSecretsAreUsed` | src/credentials/credentialBroker.ts:419-468 | the secret is read from the reference the execution started with, and the executor is called only after an activity check that passed |
| `BrokerAnswers.CheckDecides` | src/credentials/credentialBroker.ts:470-520 | the activity check passes exactly while grant, caller, credential, version, executor and receipt are good; otherwise the execution fails before the call |
| `BrokerAnswers.GrantsKeepTerms` | src/credentials/credentialBroker.ts:290-364 | in every reachable store every grant was issued for at most fifteen minutes, or five with broken glass, on its credential's provider, project, environment and scopes, and to its owner unless glass was broken |
| `CredentialBroker.RotateOk` | src/credentials/credentialBroker.ts:238-269 | rotation keeps the store consistent, changes the vault reference only with the version and loses nothing |
| `CredentialBroker.RevokeOk` | src/credentials/credentialBroker.ts:271-288 | so does revocation |
| `CredentialBroker.IssueOk` | src/credentials/credentialBroker.ts:290-364 | so does issuing a grant |
| `CredentialBroker.BeginOk` | src/credentials/credentialBroker.ts:374-418 | so does starting an execution |
| `CredentialBroker.CompleteOk` | src/credentials/credentialBroker.ts:522-553 | so does completing one |
| `BrokerStore.Find` | src/credentials/credentialBroker.ts:1367-1379 | the search over the list finds the one record with the key, or that there is none |
| `BrokerStore.RevokeGrantsOf` | src/credentials/credentialBroker.ts:261-267 | the loop over all grants revokes exactly those of the credential |
| `BrokerStore.Broker.RegisterCredential` | src/credentials/credentialBroker.ts:212-236 | the lists change as the registration of the abstract store |
| `BrokerStore.Broker.RotateCredential` | src/credentials/credentialBroker.ts:238-269 | likewise for rotation |
| `BrokerStore.Broker.RevokeCredential` | src/credentials/credentialBroker.ts:271-288 | likewise for revocation |
| `BrokerStore.Broker.IssueGrant` | src/credentials/credentialBroker.ts:290-364 | likewise for issuing |
| `BrokerStore.Broker.BeginExecution` | src/credentials/credentialBroker.ts:374-418 | likewise for the first transaction of an execution, with its three answers |
| `BrokerStore.Broker.IsActive` | src/credentials/credentialBroker.ts:470-520 | answers exactly whether grant, credential, version, scopes and receipt still allow the execution |
| `BrokerStore.Broker.CompleteExecution` | src/credentials/credentialBroker.ts:522-553 | settles an executing receipt or changes nothing |
| `CanonicalJson.UniquelyDecodable` | src/actions/gateway.ts:1236-1253 | a reader recovers value and remaining text from the printed value followed by any text, exactly unless a number runs on |
| `CanonicalJson.SameTextIffSameMeaning` | src/ledger/actionLedger.ts:1329-1346 | two values print the same text exactly when they are equal up to key order |
| `CanonicalJson.SameMeaningSameText` | src/actions/gateway.ts:1236-1253 | equal up to key order implies the same text, and the same verdict on being JSON data |
| `CanonicalJson.KeyOrderIsIrrelevant` | src/actions/gateway.ts:1246-1250 | adding an object's properties in another order leaves the text alone |
| `CanonicalJson.StringReadsBack` | src/actions/gateway.ts:1237-1238 | every string, lone surrogates included, is read back from its escaped form as section 7 of RFC 8259 has it |
| `CanonicalJson.PrintIsWellFormed` | src/ledger/actionLedger.ts:1325-1346 | the text has no lone surrogate, so its UTF-8 encoding before hashing loses nothing |
| `CanonicalJson.SortSorts` | src/actions/gateway.ts:1246-1248 | sorting distinct keys gives the same keys in strictly ascending code-unit order |
| `JsonText.EscapeIsShortest` | src/actions/gateway.ts:1237-1238 | of all ways to write a character inside a JSON string the printed one is the shortest, and with lower-case digits the only one of its length |
| `JsonText.PlainTextIsUnescaped` | src/actions/gateway.ts:1237-1238 | text without quotes, backslashes, control characters and lone surrogates is printed as it is |
| `JsonText.WellFormedIsPaired` | src/ledger/actionLedger.ts:1325-1346 | a text has no lone surrogate exactly when every leading one is followed by a trailing one and every trailing one follows a leading one |
| `JsonText.PrintIsPaired` | src/ledger/actionLedger.ts:1325-1346 | so every printed text is, whatever lone surrogates the value holds |
| `JsonText.NumeralsAreDecimal` | src/actions/gateway.ts:1239-1242 | a character can continue a number exactly when it is a digit, sign, point or exponent mark |
| `JsonText.BelowIsCodeUnitOrder` | src/actions/gateway.ts:1246-1248 | keys are ordered by the first code unit in which they differ, a prefix first |
| `ReportIngest.RetriesAreIdempotent` | hosted/src/reports.ts:60-107 | an accepted key answers, until a cleanup finds it expired and whatever else happens, duplicate with the original report exactly when the request is the same JSON up to key order, otherwise conflict |
| `ReportIngest.LedgerNamesReports` | hosted/src/cleanup.ts:8-17 | in every run of ingests, rollbacks and cleanups each ledger row names an existing report of its project with its hash, and no two rows the same one |
| `ReportIngest.OneEventPerReport` | hosted/src/reports.ts:128-139 | exactly one outbox event was ever committed for each report, and it is still there unless swept after it settled |
| `ReportIngest.SameHashIffSameRequest` | hosted/src/reports.ts:71-72 | request hashes agree exactly for the same run id and the same payload up to key order |
| `ReportIngest.AcceptedExactlyWhen` | hosted/src/reports.ts:60-141 | after any run, with the environment willing and fresh ids, an ingest is accepted exactly when its key is not in the ledger and the project stores no report that an earlier step accepted for the same JSON up to key order |
| `ReportIngest.StoredReportsWereAccepted` | hosted/src/reports.ts:115-127 | every stored report was accepted by a step of the run and still carries that step's project, run id and hash |
| `ReportIngest.LateRetryIsRefused` | hosted/src/cleanup.ts:9-17 | after any run, once its ledger row is gone, a report that is still stored, finished or not, is refused by the table's uniqueness and changes nothing |
| `ReportIngest.LateRetryHappens` | hosted/src/cleanup.ts:9-17 | for any key and report, finished or not, a cleanup after the window gets there |
| `ReportIngest.RefusalChangesNothing` | hosted/src/db.ts:24-39 | an ingest that is not accepted leaves every table as it was |
| `IngestAnswers.IngestDecides` | hosted/src/reports.ts:60-141 | each answer is given exactly when its check is the first to fail, and an acceptance inserts ledger row for seven days, report and event |
| `IngestAnswers.CleanupDecides` | hosted/src/cleanup.ts:8-20 | a cleanup deletes exactly the expired ledger rows, then the reports finished long enough ago that no row names, and the events of those or settled over thirty days ago |
| `IngestAnswers.HashedObject` | hosted/src/reports.ts:71-72 | what is hashed is the object of schema version, run id and payload under these names |
| `ReportIngest.StepInv` | hosted/src/db.ts:24-39 | every transaction, committed or rolled back, and every worker's write keeps ledger, reports and events consistent |
| `IngestStore.Database.AcceptReport` | hosted/src/reports.ts:60-141 | the inserts in order, with a rollback on failure, are the ingest transaction |
| `IngestStore.Database.RunCleanup` | hosted/src/cleanup.ts:8-20 | row by row: no expired ledger row is left, every row left still names its report, every event its report, and a report is gone exactly when it was finished long enough ago and no ledger row left names it |
| `IngestStore.Database.DeleteReports` | hosted/src/cleanup.ts:12-17 | deleting reports one by one, each with its events, leaves exactly the reports that are to be kept and their events |
| `AttackPaths.CompletePathsAreTheJoin` | src/inventory/analysis.ts:94-247 | each six-step chain is listed as complete exactly as often as the product of the multiplicities of its links |
| `AttackPaths.EveryPathIsAWalk` | src/inventory/analysis.ts:94-247 | every listed path follows stored links from the agent, carries the fresh edges along it, and is complete exactly when it arrives; the others end at a missing record |
| `PathEdges.EdgesLieAlong` | src/inventory/analysis.ts:258-272 | a path carries only fresh edges of the tenant between its consecutive steps, at most one for each two, the first one stored, in order |
| `PathEdges.EdgesExactly` | src/inventory/analysis.ts:258-272 | two consecutive steps have an edge on the path exactly when a fresh stored edge joins them |
| `AttackPaths.FindAttackPaths` | src/inventory/analysis.ts:58-247 | the nested loops list exactly these paths and count the incomplete ones |
| `BlastRadius.ComputeBlastRadius` | src/inventory/analysis.ts:274-423 | one entry per resource that is reached or exposed; each counts the complete paths through it and lists their side effects once; one that no complete path reaches lists exactly its recorded side effects; the counts add up to the number of complete paths |
| `BlastRadius.AdjacentIsUnreached` | src/inventory/analysis.ts:387-421 | the entry of an exposed resource that no complete path reaches counts no path and lists, as often as linked, exactly the recorded side effects of the tenant's first record of it |
| `BlastRadius.SumPaths` | src/inventory/analysis.ts:302-386 | the same for the loop over the paths |
| `Glob.GlobMatches` | src/policy/policy.ts:549-563 | the in-place one-row table answers exactly the recursive meaning of the pattern |
| `Glob.SameFromEnd` | src/policy/policy.ts:549-563 | reading a pattern from either end gives the same matches |
| `Glob.StarCuts` | src/policy/policy.ts:553-557 | a star matches exactly the runs after which the rest of the pattern matches |

## Left out

- File locks, atomic writes, path and symlink checks, byte limits and file formats: I/O, taken as atomic steps.
- Ed25519 signatures, UUIDs, timestamp text, identifier patterns and the long record validators: flat checks without a hard property.
- Safety controller, synthetic worlds and compensation: the adapter and its admission are arbitrary environment steps.
- Inbox `execute` and gateway `execute` are steps on values rather than one imperative method, because a crash may fall between any two of their writes; aliasing inside one step is not captured.
- ApprovedExecution.StepInv: claims nothing about liveness, since a crash may leave a request executing for good.
- JobSettling.SettlesUnlessStranded: says that a job can settle, not that it will; nothing forces a worker to run.
- Cleanup of the outbox and of job receipts is part of `ReportIngest` (outbox) but not of `ReportJobs`.
- Scenario evaluation inside the worker, quotas, authentication and routing of the hosted service: answers of the environment.
- A concurrent cleanup between the two statements of a conflicting ingest: the transaction is atomic here.
- Entries returned by `recordAction`: they can be stale after a rotation in the same call; the model is of the stored state.
- Exports, incident fixtures and access authorization of the ledger: thin wrappers.
- The creation, rotation and last-use times of credentials beyond what a check reads, and break-glass approval records: data carried along.
- Display names, rule texts, provider ids, resource types and sensitivity in attack paths and blast radius: data carried along.
- OpenAPI and HAR import, provider capabilities and contract validation: contracts are taken after the fold and before validation.
- Network and report policies, CLI, dashboard, MCP, AI generation, evidence formatting, eval scoring, cache and fault lab: plumbing or easy.
