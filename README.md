# Approval workflow engine of the reimbursement tracker, in Dafny

This project models the backend core of an expense-reimbursement tracker in
Dafny and proves properties of the model. Employees file expenses. A
company's approval rules say who must approve them. Approvers decide their
tasks one by one. The engine then works out whether the expense is Approved,
Rejected or still Waiting Approval.

The model follows the four core pieces of the backend:

- **Decision processor** (`src/services/approvalService.js`).
  - `decideApproval` runs its guards in the source's order, writes the task
    row, then writes the expense status only when the expense is resolved
    (`Approval.Decide`, `Approval.DecideApproval`).
  - `determineExpenseStatus`: any rejection wins; a pending mandatory task
    blocks; otherwise either a minimum approval percentage or unanimity
    decides (`Resolution.ResolveStatus`).
- **Assignment builder and expense guards**
  (`Backend/src/services/expenseService.js`).
  - `buildApproverEntries` puts the manager first, copies the rule's
    approvers, and de-duplicates keeping the first occurrence of each
    approver.
  - `createExpenseApprovals` replaces an expense's approval tasks.
  - `createExpense` and `updateExpense` are modelled with their validation
    order, their transaction and their rollback.
  - `roundToTwo`.
- **Rule registry** (`src/services/ruleService.js`).
  - `createRule` validation.
  - `ensureRuleBelongsToCompany`.
  - `addApprovers`: its checks, then a delete-and-insert that replaces the
    rule's approver set.
  - `getRuleApprovers`, ordered by `COALESCE(sequence, 999999), id`.
  - `listRules`, which groups approver rows under their rules.
- **Authorisation guard** (`Backend/src/middlewares/auth.js`).
  - `auth(required)` splits the Authorization header on single spaces and
    stores the verified payload on the request.
  - `requireRole` is a case-insensitive membership test.

How the pieces are written:

- **Database.** The whole database is one `Store` object. Keyed tables are
  maps; the two scanned row tables hold their rows in sequences.
- **Services.** Each service is a method that changes the store. Its
  `ensures` ties the result and the new store to a pure specification
  function (`Decide`, `CreateOutcome`, `UpdateOutcome`, `ValidateRule`,
  `AddApproversRefusal`, `ApproverEntries`, `Authentication`).
- **Lemmas.** These state what the source promises about those functions.
- **Transactions.** A transaction takes a snapshot of every table and
  restores it on any error. The id counter, like a PostgreSQL sequence, is
  not rolled back.
- **Loops.** Loops in the source become `while`/`for` loops with
  invariants: the sequencing gate, the de-duplication, the task inserts, the
  column collection and the `listRules` grouping.

Files:

| file | module | contents |
|---|---|---|
| common.dfy | Common | Option, Result, the typed errors, ASCII case mapping |
| domain.dfy | Domain | rows of the tables: users, companies, rules, rule approvers, expenses, approval tasks |
| store.dfy | Store | the `Store` class, table validity, transaction snapshot and rollback, task selection |
| resolution.dfy | Resolution | `determineExpenseStatus` |
| ordering.dfy | Ordering | the approver order and its uniqueness |
| rules.dfy | Rules | the rule registry |
| assignment.dfy | Assignment | `buildApproverEntries`, `createExpenseApprovals` |
| approval.dfy | Approval | `decideApproval` and its sequencing gate |
| expenses.dfy | Expenses | `roundToTwo`, `createExpense`, `updateExpense` |
| auth.dfy | Auth | `auth(required)`, `requireRole` |

Behaviour of the code that the model keeps:

- **Mixed sequencing.** A rule may mix numbered and unnumbered approvers.
  When at least one approver is numbered, the unnumbered ones keep a null
  sequence beside the numbered ones (expenseService.js:87,106). The gate in
  decideApproval compares numbered tasks only (approvalService.js:69-71).
- **addApprovers check order.** An empty or non-array list is refused
  before the rule is looked up (ruleService.js:40-45).
- **Rule check in decideApproval.** decideApproval checks that the
  expense's rule belongs to the employee's company, and fails with NotFound
  if it does not (approvalService.js:57).
- **When the status is written.** The expense status is written only when
  the resolution is Approved or Rejected (approvalService.js:102-104).
  Otherwise the response repeats the stored status.

## Model

| member | source | states |
|---|---|---|
| Resolution.ResolveStatus | src/services/approvalService.js:112-140 | determineExpenseStatus; definition, no ensures; properties in RejectionWins, MandatoryBlocks, PercentageRule, UnanimityRule, ResolvedIsTerminal and ResolveIgnoresOrder |
| Resolution.RejectionWins | src/services/approvalService.js:118-120 | the expense resolves to Rejected exactly when some approval task is Rejected, whatever the rule |
| Resolution.MandatoryBlocks | src/services/approvalService.js:122-125 | with no rejection, one pending mandatory task leaves the status unresolved |
| Resolution.PercentageRule | src/services/approvalService.js:127-133 | with a minimum percentage and no rejection or pending mandatory task, the result is Approved iff there are tasks and approved/total*100 reaches the minimum; otherwise it is unresolved |
| Resolution.UnanimityRule | src/services/approvalService.js:135-139 | without a minimum percentage, the result is Approved iff every task is Approved |
| Resolution.ResolvedIsTerminal | src/services/approvalService.js:112-140 | the resolution is unresolved, Approved or Rejected, never Draft or Waiting Approval |
| Resolution.CountsPartition | src/services/approvalService.js:113-116 | the approved, rejected and pending counts add up to the number of tasks |
| Resolution.CountPositive | src/services/approvalService.js:118 | a count is positive iff some task has that decision |
| Resolution.CountAll | src/services/approvalService.js:135 | a count is at most the total, and equals it iff every task has that decision |
| Resolution.ResolveIgnoresOrder | src/services/approvalService.js:90-100 | the resolution depends only on the multiset of task rows, so the unordered query cannot change it |
| Approval.Decide | src/services/approvalService.js:24-110 | decideApproval on the tables at BEGIN, its guards in order and then Commit; definition, no ensures; properties in OnlyAssigneeDecides, DecisionWritesOneTask, StatusFollowsResolution, DecidingTwiceFails, ClosedExpenseFrozen and DecideKeepsValid |
| Approval.Commit | src/services/approvalService.js:77-106 | the writes after the guards: the task UPDATE, the re-query, the resolution and the conditional status UPDATE; definition, no ensures; properties in WriteDecision, and through Decide in DecisionWritesOneTask and StatusFollowsResolution |
| Approval.DecidedTask | src/services/approvalService.js:77-88 | the task row after the UPDATE; definition, no ensures; properties in WriteDecision, and through Decide in DecisionWritesOneTask |
| Approval.GatePasses | src/services/approvalService.js:67-75 | the sequencing gate; definition, no ensures; properties in FindPriorPending, GateOrdersStages and UnsequencedNeverBlocks |
| Approval.Blocks | src/services/approvalService.js:70-71 | a numbered task ahead of the target that is not Approved; definition, no ensures; properties in FindPriorPending, and through GatePasses in GateOrdersStages |
| Approval.SeqValue | src/services/approvalService.js:70 | a null sequence compared with `<` counts as 0; definition, no ensures; properties in GateOrdersStages |
| Approval.ParseDecision | src/services/approvalService.js:25-27 | only the names "Approved" and "Rejected" are accepted, each as the decision it names, never Pending |
| Approval.DecisionRoundTrip | src/services/approvalService.js:25 | parsing a decision's name gives the decision back for Approved and Rejected and nothing for Pending |
| Approval.FindPriorPending | src/services/approvalService.js:67-75 | the search finds no blocker iff the sequencing gate passes, and a blocker it finds is a numbered task of the expense ahead of the target that is not Approved |
| Approval.GateOrdersStages | src/services/approvalService.js:67-75 | when the gate passes, every numbered task with a smaller sequence than the target is Approved |
| Approval.UnsequencedNeverBlocks | src/services/approvalService.js:67-68 | when no task of the expense is numbered, the gate always passes |
| Approval.Locate | src/services/approvalService.js:30-43 | the located row is the task with the requested id, joined with its expense and the filing employee's company; there is none exactly when no task has that id or its expense or employee is missing, as the inner joins drop it |
| Approval.LocateFindsRow | src/services/approvalService.js:30-43 | in a consistent database the query finds the task with the requested id exactly when the employee who filed its expense exists |
| Approval.WithUser | src/services/approvalService.js:90-96 | the join with users keeps exactly the tasks whose approver exists |
| Approval.OnlyAssigneeDecides | src/services/approvalService.js:24-75 | a successful decision means all of these held: a valid decision name, the task exists, the caller is its assignee, it was Pending, the expense was Waiting Approval, the rule belongs to the company, and the gate passed |
| Approval.DecisionWritesOneTask | src/services/approvalService.js:77-104 | the committed task table is the old one with only the target row replaced by that row with the parsed decision, the comments or null and the decision time, which is the returned task; the expense table is the old one with only the task's expense given the returned status; no other table changes |
| Approval.StatusFollowsResolution | src/services/approvalService.js:90-106 | the stored and returned expense status is the resolution of the updated tasks, or the unchanged Waiting Approval when unresolved |
| Approval.RejectionRejectsExpense | src/services/approvalService.js:100-106 | a successful rejection by an existing user always leaves the expense Rejected |
| Approval.DecidingTwiceFails | src/services/approvalService.js:49-51 | a second valid decision on the same task after a successful one fails with AlreadyDecided |
| Approval.ClosedExpenseFrozen | src/services/approvalService.js:53-55 | no decision succeeds on a task whose expense is not Waiting Approval |
| Approval.DecideKeepsValid | src/services/approvalService.js:77-104 | a successful decision keeps the tables consistent: distinct keys, no orphaned task |
| Approval.DecideApproval | src/services/approvalService.js:24-110 | the service returns the specification's error and leaves the store untouched, or returns its outcome and stores exactly its tables |
| Approval.WriteDecision | src/services/approvalService.js:77-106 | the write step stores the decided task and, when resolved, the new expense status exactly as the specification's effect says, and returns its outcome; the id counter is untouched |
| Approval.DecideTwice | src/services/approvalService.js:49-51 | on the store, deciding the same task twice in a row fails the second time once the first succeeded |
| Store.Store.Restore | src/db/transaction.js:10-17 | rolling back restores every table to its contents at the start of the transaction and keeps the id counter |
| Ordering.SortByRank | src/services/ruleService.js:137 | the result is a permutation of the rows sorted by sequence with null as 999999, ties broken by id |
| Ordering.NullSequenceLast | src/services/ruleService.js:137 | an approver with a sequence below 999999 comes before every approver without a sequence |
| Ordering.BeforeTotal | src/services/ruleService.js:137 | two rows with different ids are always strictly ordered one way |
| Ordering.SortedUnique | src/services/ruleService.js:137 | with distinct ids there is only one sorted arrangement of a set of rows, so the order of the query is fully determined |
| Rules.RuleOfCompany | src/services/ruleService.js:31-37 | ensureRuleBelongsToCompany; definition, no ensures; properties in RuleLookup |
| Rules.AddApproversRefusal | src/services/ruleService.js:39-60 | the refusals of addApprovers in order; definition, no ensures; properties in AddApprovers, with its duplicate and company tests justified by DuplicateCheck and CompanyCheck |
| Rules.StoredApprover | src/services/ruleService.js:64-72 | the inserted rule_approvers row; definition, no ensures; properties in NewApproverRows |
| Rules.RuleLookup | src/services/ruleService.js:31-37 | the lookup fails with NotFound exactly when the rule is missing or belongs to another company, and always when no rule id is given |
| Rules.RuleApproversOf | src/services/ruleService.js:130-141 | the rule's approver rows are exactly the rows of that rule whose user exists, in the sequence-then-id order |
| Rules.ValidateRule | src/services/ruleService.js:5-25 | every refusal is BadRequest; an accepted rule carries the company, the given name and manager flag, and the description or null |
| Rules.NameRequiredFirst | src/services/ruleService.js:6-8 | the refusal is NameRequired exactly when the name is missing or empty |
| Rules.PercentageValidated | src/services/ruleService.js:10-19 | with a name, the rule is accepted iff the percentage is absent or a number in [0, 100], and the stored percentage is that number or null |
| Rules.CreateRule | src/services/ruleService.js:5-29 | an invalid rule changes nothing; a valid one is inserted under a fresh id, and nothing else changes |
| Rules.DuplicateCheck | src/services/ruleService.js:47-51 | the set of approver ids is as large as the list exactly when no approver id repeats |
| Rules.CompanyCheck | src/services/ruleService.js:53-60 | for distinct ids, the count of company members equals the list length iff every approver is a user of the company |
| Rules.NewApproverRows | src/services/ruleService.js:64-72 | each inserted row keeps the approver id, the sequence only when it is a number, and the truthiness of isMandatory, under consecutive fresh ids |
| Rules.AddApprovers | src/services/ruleService.js:39-76 | the error is the specification's refusal, in the source's order; a refusal changes nothing; success deletes the rule's rows and appends one new row per input |
| Rules.InsertApprovers | src/services/ruleService.js:64-74 | the insert loop appends exactly the new approver rows after the kept ones and advances the id counter by their number, changing no other table |
| Rules.ReplaceAll | src/services/ruleService.js:62-74 | after the replace, the rule's rows are exactly the new rows and every other rule's rows are unchanged |
| Rules.GroupRules | src/services/ruleService.js:102-122 | the grouping returns each rule once, in the fetched order, with exactly its rows in fetched order |
| Rules.GroupedIsRuleOrder | src/services/ruleService.js:90-120 | the rows grouped under a rule from the all-rules query equal that rule's own query |
| Rules.ListRules | src/services/ruleService.js:78-123 | every rule of the company appears once, and with its own approver rows in sequence-then-id order |
| Assignment.Candidates | Backend/src/services/expenseService.js:85-109 | the manager entry and the copied rule approvers before de-duplication; definition, no ensures; properties in EntriesCoverApprovers and EntriesFromCandidates, and through ApproverEntries in ManagerRequired and ManagerFirst |
| Assignment.DedupFrom | Backend/src/services/expenseService.js:111-119 | the Set filter that keeps the first entry per approver; definition, no ensures; properties in DedupFromSpec, DedupFromOrder and DedupFromIdentity, and through KeptAt in DedupKeepsFirst |
| Assignment.ApproverEntries | Backend/src/services/expenseService.js:85-120 | buildApproverEntries; definition, no ensures; properties in EntriesCoverApprovers, EntriesFromCandidates, NothingDropped and UnsequencedEntries |
| Assignment.AssignmentRefusal | Backend/src/services/expenseService.js:211-215 | the refusal of createExpenseApprovals: a missing manager, or no approvers; definition, no ensures; properties in EmptyRuleRefused and AssignOutcomeTasks |
| Assignment.AssignOutcome | Backend/src/services/expenseService.js:209-228 | createExpenseApprovals on a snapshot of the tables; definition, no ensures; properties in AssignOutcomeTasks |
| Assignment.ManagerRequired | Backend/src/services/expenseService.js:89-92 | building fails exactly when the rule needs the manager and the employee has none, with BadRequest |
| Assignment.EntriesCoverApprovers | Backend/src/services/expenseService.js:85-120 | the entries have distinct approvers, and their approvers are the rule's approvers plus the manager when the rule needs one |
| Assignment.EntriesFromCandidates | Backend/src/services/expenseService.js:103-119 | each entry is the first candidate for its approver, and is either the manager entry or the entry of a rule approver |
| Assignment.ManagerFirst | Backend/src/services/expenseService.js:93-100 | a manager not listed by the rule comes first, mandatory, with sequence 0 when the rule is sequenced and null otherwise |
| Assignment.NothingDropped | Backend/src/services/expenseService.js:103-119 | without the manager and with distinct approvers, the entries are the rule's approvers in order |
| Assignment.UnsequencedEntries | Backend/src/services/expenseService.js:87-106 | when no approver of the rule is numbered, no entry has a sequence |
| Assignment.DedupFromSpec | Backend/src/services/expenseService.js:111-119 | the filter keeps one entry per approver not yet seen, and that entry is the first occurrence |
| Assignment.DedupFromOrder | Backend/src/services/expenseService.js:111-119 | the filter keeps entries in input order: entry k of its result is the input entry at position p[k], with p strictly increasing |
| Assignment.AssignOutcomeTasks | Backend/src/services/expenseService.js:209-228 | replacing the tasks fails exactly when building refuses (missing manager, or no approvers), with that refusal; on success the entries are non-empty, the expense's tasks are exactly their new pending tasks, and other expenses' tasks and every other table are unchanged |
| Assignment.DedupKeepsFirst | Backend/src/services/expenseService.js:111-119 | each position the filter keeps holds an approver not seen before that no earlier entry has, so the first occurrence wins by position |
| Assignment.DedupFromIdentity | Backend/src/services/expenseService.js:111-119 | a list without repeats passes the filter unchanged |
| Assignment.FromRuleIds | Backend/src/services/expenseService.js:103-109 | copying the rule's approvers keeps exactly their approver ids |
| Assignment.ScanHasSequence | Backend/src/services/expenseService.js:87 | the loop finds a numbered approver exactly when the rule has one |
| Assignment.ScanManagerListed | Backend/src/services/expenseService.js:93 | the loop finds the manager exactly when the rule lists them |
| Assignment.DedupLoop | Backend/src/services/expenseService.js:112-119 | the loop with its set of seen approvers computes the filter's result |
| Assignment.BuildApproverEntries | Backend/src/services/expenseService.js:85-120 | the imperative builder computes the entries of the specification, error included |
| Assignment.NewTasks | Backend/src/services/expenseService.js:217-225 | one pending task per entry, with its approver, sequence and mandatory flag, under consecutive fresh ids |
| Assignment.EmptyRuleRefused | Backend/src/services/expenseService.js:213-215 | a rule without approvers is refused unless it adds the employee's manager |
| Assignment.CreateExpenseApprovals | Backend/src/services/expenseService.js:209-228 | the expense's tasks are always deleted; on success one new pending task per entry is appended, under fresh ids |
| Assignment.InsertTasks | Backend/src/services/expenseService.js:217-227 | the insert loop appends exactly the new tasks and advances the id counter by their number |
| Assignment.AssignedTasks | Backend/src/services/expenseService.js:209-228 | after the replace, the expense's tasks are exactly the new pending ones and every other expense's tasks are unchanged |
| Expenses.RoundToTwo | Backend/src/services/expenseService.js:20-22 | the result is within half a cent of the input and a whole number of cents |
| Expenses.RoundToTwoIdempotent | Backend/src/services/expenseService.js:20-22 | rounding a rounded amount changes nothing |
| Expenses.ParseStatus | Backend/src/services/expenseService.js:141-143 | only the four status names are accepted, each as the status it names |
| Expenses.StatusRoundTrip | Backend/src/services/expenseService.js:141 | parsing a status's name gives the status back |
| Expenses.CheckCreate | Backend/src/services/expenseService.js:136-163 | the checks before the transaction of createExpense; definition, no ensures; properties in CreateAccepted |
| Expenses.CreateAccepted | Backend/src/services/expenseService.js:136-157 | a new expense passes the checks iff its fields are filled, its status is valid, it has a rule when not Draft, its amount is positive and the company has a base currency; only the missing base currency is an internal error |
| Expenses.InitialStatus | Backend/src/services/expenseService.js:192 | a new expense is stored as Draft iff Draft was requested, and is never stored as Approved or Rejected |
| Expenses.CreateOutcome | Backend/src/services/expenseService.js:122-207 | createExpense on the tables at BEGIN; definition, no ensures; properties in CreateSucceeds, CreateRefusals and CreateCommits |
| Expenses.InsertOutcome | Backend/src/services/expenseService.js:165-204 | the transaction of createExpense; definition, no ensures; properties in InsertCommits |
| Expenses.CreateExpense | Backend/src/services/expenseService.js:122-207 | the result and the new store are createExpense's outcome on the tables at the start: its error with the store unchanged, or the new id with the committed tables |
| Expenses.CreateSucceeds | Backend/src/services/expenseService.js:136-215 | createExpense succeeds exactly when the request checks pass, the amount converts, a given rule is the company's, and a submitted expense's rule yields at least one approver |
| Expenses.CreateRefusals | Backend/src/services/expenseService.js:136-215 | the error is the first failure in source order: a request check, the converter's failure, NotFound for a rule outside the company, then the refusal to build the tasks |
| Expenses.CreateCommits | Backend/src/services/expenseService.js:165-203 | a committed createExpense stores the row with the rounded converted amount under the next id and keeps every other table; a Draft gets no tasks, a submission gets a non-empty list of pending tasks under the ids that follow |
| Expenses.InsertExpense | Backend/src/services/expenseService.js:165-204 | the transaction's result and tables are its specification's: a rule outside the company fails with NotFound and changes nothing; a Draft or rule-less request commits the row; a submission with a rule rolls everything back exactly when building the tasks refuses, with that refusal, and otherwise commits the row and the new tasks |
| Expenses.InsertCommits | Backend/src/services/expenseService.js:174-201 | a committed transaction inserts the row under the fresh id and, for a submission with a rule, appends a non-empty list of pending tasks under the ids that follow |
| Expenses.InsertRow | Backend/src/services/expenseService.js:174-201 | the INSERT stores the row under the next id; with a submission the store rolls back to the start of the transaction exactly when building the tasks refuses, and the error is that refusal |
| Expenses.AssignOnCreate | Backend/src/services/expenseService.js:199-201 | the error is exactly the refusal to build the tasks (a missing manager, or no approvers); on a refusal the store rolls back to the start of the transaction, otherwise the new expense gets its new pending tasks |
| Expenses.TasksAvoidFreshExpense | Backend/src/services/expenseService.js:199-210 | deleting the tasks of a freshly inserted expense removes nothing |
| Expenses.CollectFields | Backend/src/services/expenseService.js:252-269 | the column loop fails with the first refused rule, or collects one assignment per given field in column order |
| Expenses.ApplyColumns | Backend/src/services/expenseService.js:261-269 | applying the collected assignments sets exactly the given fields among the listed columns and keeps every other field |
| Expenses.ApplyFields | Backend/src/services/expenseService.js:324-331 | the UPDATE sets each given field, null included, and keeps every other field |
| Expenses.CheckUpdate | Backend/src/services/expenseService.js:230-316 | the checks of updateExpense before its transaction; definition, no ensures; properties in UpdateGuards, OnlySubmission and MoneyChange |
| Expenses.UpdateGuards | Backend/src/services/expenseService.js:231-242 | an update succeeds only on the caller's own Draft expense of their company; another owner is Forbidden and a non-Draft expense is BadRequest |
| Expenses.OnlySubmission | Backend/src/services/expenseService.js:311-316 | the only status change is to Waiting Approval, which means submission; any other filled status except Draft is refused |
| Expenses.MoneyChange | Backend/src/services/expenseService.js:271-309 | prices are recomputed iff an amount or currency is given; the stored currency is the upper-cased base currency, and a given amount is positive and rounded |
| Expenses.UpdateOutcome | Backend/src/services/expenseService.js:230-357 | updateExpense on the tables at BEGIN; definition, no ensures; properties in UpdateSucceeds, UpdateRefusals and UpdateCommits |
| Expenses.SaveOutcome | Backend/src/services/expenseService.js:320-357 | the transaction of updateExpense; definition, no ensures; properties in SaveUpdate, and through UpdateOutcome in UpdateCommits |
| Expenses.SubmitOutcome | Backend/src/services/expenseService.js:334-350 | the submission step of the transaction; definition, no ensures; properties in Submit, and through UpdateOutcome in UpdateSucceeds, UpdateRefusals and UpdateCommits |
| Expenses.UpdateExpense | Backend/src/services/expenseService.js:230-365 | the result and the new store are updateExpense's outcome on the tables at the start: its error with the store unchanged, or the patched row with the committed tables |
| Expenses.UpdateSucceeds | Backend/src/services/expenseService.js:230-350 | updateExpense succeeds exactly when its checks pass and, for a submission, the patched row or the body names a rule of the company that yields at least one approver |
| Expenses.UpdateRefusals | Backend/src/services/expenseService.js:230-350 | the error is the first failure in source order: a check before the transaction, then on submission a missing rule id (BadRequest), a rule outside the company (NotFound), then the refusal to build the tasks |
| Expenses.UpdateCommits | Backend/src/services/expenseService.js:320-357 | a committed update changes only the expense's row and, on submission, its tasks: the row is the patched one, in Waiting Approval when submitted; a submission leaves it a non-empty list of pending tasks; other expenses keep their tasks |
| Expenses.SaveUpdate | Backend/src/services/expenseService.js:320-357 | the patched row is stored; without submission that commits; with submission the result is the submission step's, and any failure of it restores every table to the start of the transaction |
| Expenses.Submit | Backend/src/services/expenseService.js:334-350 | no rule id fails with BadRequest and a rule outside the company with NotFound, both rolling back; a refusal to build the tasks rolls back with that refusal; otherwise the row is set to Waiting Approval and the expense's tasks are rebuilt |
| Expenses.AssignOnSubmit | Backend/src/services/expenseService.js:342-349 | the error is exactly the refusal to build the tasks; on a refusal the store is the one at the start of the transaction, otherwise the row is submitted and the tasks are replaced |
| Auth.Authentication | Backend/src/middlewares/auth.js:4-25 | auth(required) on the Authorization header; definition, no ensures; properties in RequiredRejectsMalformed, OptionalProceeds, InvalidTokenRejected and AuthenticatedIff |
| Auth.Split | Backend/src/middlewares/auth.js:7 | splitting a header gives at least one piece and no piece holds a space |
| Auth.SplitJoin | Backend/src/middlewares/auth.js:7 | joining the pieces with spaces gives the header back |
| Auth.JoinSplit | Backend/src/middlewares/auth.js:7 | splitting space-free pieces joined by spaces gives the pieces back |
| Auth.BearerToken | Backend/src/middlewares/auth.js:6-9 | an accepted token is non-empty and holds no space |
| Auth.BearerAccepted | Backend/src/middlewares/auth.js:6-9 | "Bearer" followed by a non-empty token is accepted with that token, whatever pieces follow |
| Auth.BearerShape | Backend/src/middlewares/auth.js:6-9 | every accepted header is "Bearer", a space, the token, and possibly more pieces |
| Auth.OtherSchemeRefused | Backend/src/middlewares/auth.js:9 | any scheme other than "Bearer" is refused |
| Auth.DoubleSpaceRefused | Backend/src/middlewares/auth.js:7-9 | two spaces after "Bearer" leave an empty token, which is refused |
| Auth.RequiredRejectsMalformed | Backend/src/middlewares/auth.js:9-12 | with required=true, a missing or malformed header is Unauthorized |
| Auth.OptionalProceeds | Backend/src/middlewares/auth.js:13-14 | with required=false, a missing or malformed header proceeds with no user |
| Auth.InvalidTokenRejected | Backend/src/middlewares/auth.js:17-20 | a well-formed header whose token does not verify is Unauthorized, whatever required is |
| Auth.AuthenticatedIff | Backend/src/middlewares/auth.js:17-23 | a user is set iff the header is well formed and its token verifies, and then the user is the token's payload |
| Auth.Request.Authenticate | Backend/src/middlewares/auth.js:4-25 | the middleware passes on the specification's error and leaves the request alone, or stores the specification's user on the request |
| Auth.RoleCheck | Backend/src/middlewares/auth.js:27-44 | requireRole; definition, no ensures; properties in AnonymousRejected, EmptyRolesAdmit, RoleMembership, RoleCaseInsensitive and RolesPreLowered |
| Auth.RoleName | Backend/src/middlewares/auth.js:33 | the lower-cased role of the user, empty when absent; definition, no ensures; properties in RoleMembership, and through RoleCheck in RoleCaseInsensitive |
| Auth.AnonymousRejected | Backend/src/middlewares/auth.js:29-31 | with no user the request is Unauthorized whatever the roles |
| Auth.EmptyRolesAdmit | Backend/src/middlewares/auth.js:34-35 | an empty role list admits every authenticated user |
| Auth.RoleMembership | Backend/src/middlewares/auth.js:33-42 | with roles listed, a user is admitted iff the lower-cased role equals some lower-cased listed role, and is Forbidden otherwise |
| Auth.RoleCaseInsensitive | Backend/src/middlewares/auth.js:33-36 | upper-casing the user's role or any listed role does not change the outcome |
| Auth.RolesPreLowered | Backend/src/middlewares/auth.js:33-36 | listing the roles already lower-cased changes no outcome, since requireRole lower-cases them itself |

## Left out

- SQL, the connection pool and row locking (`FOR UPDATE`) are not modelled. Each service runs to completion before the next begins, so concurrent requests are not covered.
- One id counter, `nextId`, stands for all the PostgreSQL sequences (expenses, approval tasks, rules, rule approvers). So the tasks of a new expense take the ids right after the expense's own id, where the database would number them from their own sequence; only uniqueness of ids matters to the model. The counter is not rolled back, just as `nextval` is not. The `created_at` ordering of listRules becomes an `order` parameter supplied by the caller.
- Resolution.ResolveStatus: the threshold is compared exactly (approved*100 >= pct*total), while the source computes `approved / total * 100` in floating point. For example, 57 of 100 approvals gives 56.99999999999999, which falls short of a 57% rule in the source but meets it here.
- Rules.ValidateRule: percentages are integers, with NaN as a separate case. Fractional percentages and Number() coercion of strings are not modelled.
- Expenses.RoundToTwo: rounds exact reals. Binary floating-point error in `Math.round(value * 100) / 100` is not modelled.
- Expenses.CreateExpense: an amount is either a number or unparseable. Number() coercion of strings is collapsed into these two cases.
- Expenses.UpdateExpense: a currency update is a string or null. `String(updates.currency)` of other JavaScript values is not modelled.
- The exchange-rate service (network fetch and time-limited cache) is not modelled. It becomes a function parameter, `convert`; a failed conversion is an error.
- Token verification (`verifyToken`, the jsonwebtoken library) is a function parameter, `verify`, that returns an optional payload.
- The clock is a parameter, `now`, for `decided_at`.
- Case mapping covers ASCII letters only. Unicode case mapping is not modelled.
- Backend/src/services/userService.js is not part of this model. The employee context that createExpense receives (id, company, manager, base currency) is a parameter. The `getUserById` re-read on submission reads the users table.
- The result of `getRuleApprovers` in decideApproval (approvalService.js:58) is never used by `determineExpenseStatus`, so it is not computed.
- Receipts are storage plumbing and are not modelled: `replaceReceipts`, `getReceiptsByExpenseIds`, and the receipt branches of createExpense and updateExpense.
- The read-only listing queries are SQL filters and are not modelled: `listPendingApprovals`, `listExpenses`, `getExpenseDetail` and `getRuleById`.
- Response shapes are not modelled: joined display columns (names, emails, roles) and `created_at` on returned rows.
