# Expense approval workflow — a Dafny model

This project models the core of an expense-management application.

- **The backend:**
  - Employees create expenses in their own currency.
  - The amount is converted to the company's base currency.
  - An approval rule chosen at creation decides who must approve it.
  - Managers and admins then approve or reject it, one approver at a time.
- **The web client:**
  - A session reducer holds who is signed in.
  - The sidebar shows the entries the user's role may use.
  - The router guards each page by sign-in state and role.

The modules follow the program's files:

| module | file | models |
|---|---|---|
| `Common` | `common.dfy` | user, company and rule identifiers; the three roles |
| `JsString` | `js_string.dfy` | the string operations the schemas rely on: `trim`, `toUpperCase`, `startsWith` |
| `ExpenseSchema` | `expense_schema.dfy` | the Expense record's enums, defaults and stored-value constraints |
| `Validation` | `validation.dfy` | the request schemas for expense creation, approval, rejection and rule creation, and the `validate` middleware |
| `ApprovalRules` | `approval_rule.dfy` | the approval-rule document: its defaults, `appliesToExpense` and `getNextApprover` (an in-place sort of its approver array) |
| `Expenses` | `expenses.dfy` | the expense routes: the exchange-rate fallback, the rule choice at creation, and the create, upload, submit, approve and reject handlers as methods of an `Expense` class |
| `AuthContext` | `auth_context.dfy` | the client's `initialState` and `authReducer` |
| `Sidebar` | `sidebar.dfy` | the navigation table, the role filter and `isActive` |
| `AppRoutes` | `app_routes.dfy` | the route table, `ProtectedRoute`, `PublicRoute` and what `App` renders |

By modelling choice:
- **Stateful code is imperative Dafny.**
  - `getNextApprover` sorts the rule's `array` in place. Its insertion-sort loop is proved equal to a stable sort function, `SortByOrder`. That function is proved to give a sorted permutation that keeps equal orders in their original order.
  - Each route handler is a method on an `Expense` object. Each method states:
    - the reply;
    - that nothing changes on failure;
    - the whole new state on success;
    - that it preserves the record's invariant (`Valid`). That invariant holds the schema's constraints and the workflow's bookkeeping. For example, a pending expense has an approver, and only a rejection ends the history.
- **The request schemas are issue lists.** A schema yields the list of every broken constraint, since validation does not stop at the first one. The middleware passes a request on exactly when that list is empty. As in Joi, a value outside a `valid(...)` list is reported and then checked like any other string, so an empty category is reported both as unlisted and as empty.
- **The database and the network are parameters:**
  - the company's rules;
  - the rule an expense is bound to, or null when it is gone;
  - the exchange-rate service's answer;
  - the current time.

Behaviour of the source that the model makes explicit:
- **Only one rule is ever tried.** Creation binds the company's active rule with the highest threshold. The expense gets an approver only when that rule applies. A lower rule that would apply is never consulted (`Expenses.NoFallbackToLowerRule`).
- **Submission does not re-check the rule.** It asks the bound rule for its first approver without asking whether the rule still applies, or is still active. The app's delete route only deactivates a rule (`backend/routes/approvalRules.js:228-246`), and `getNextApprover` never reads `isActive`, so a deactivated rule still names approvers at submission and approval (`Expenses.Expense.Submit`, `Expenses.Expense.Approve`). Only when the rule's document no longer exists, having been removed outside the app, does the approver chosen at creation stay. The expense is then `submitted` with a current approver, and nothing can move it further.
- **Only sequential rules resolve approvers.** A parallel or percentage rule names no approver, and an expense submitted under one stays `submitted`.
- **The approver sequence depends on distinct approvers.**
  - With distinct approvers, approving walks through the ordered list once (`ChainVisitsEachApproverOnce`).
  - A user listed twice makes the walk endless: every step names someone, however many steps are taken (`RepeatedApproverNeverEnds`). So the walk ends within the list's length exactly when no user is listed twice (`ChainEndsExactlyWithoutRepeats`). `RepeatedApproverCycles` shows the loop on a three-entry list.
  - The rule routes refuse an approver list whose ids do not each resolve to a distinct user of the company (`backend/routes/approvalRules.js:90-103` and `170-183`). That check is not part of this model.
- **The raw request body is used.** Validation does not replace the body, so handlers see the values as sent.
  - The exchange rate is looked up for the currency as typed.
  - The database's setters then trim and upper-case what is stored.
- **Unknown roles see no sidebar, but can reach some pages.** A user with none of the three roles gets an empty sidebar. The pages without a role list (dashboard, expenses, profile) still open for that user (`AppRoutes.UnknownRoleStillReachesOpenPages`).

## Model

| member | source | states |
|---|---|---|
| `JsString.Trim` | backend/middleware/validation.js:48 | the result is no longer than the input and neither starts nor ends with whitespace |
| `JsString.TrimIsSlice` | backend/middleware/validation.js:48 | trimming removes only whitespace, from the two ends, and keeps the middle as is |
| `JsString.TrimOfTrimmed` | backend/models/Expense.js:17 | a trimmed string is left unchanged by the trim setter |
| `JsString.TrimIdempotent` | backend/models/Expense.js:17 | trimming twice is trimming once |
| `JsString.ToUpper` | backend/models/Expense.js:28 | the result has the input's length, each character upper-cased, and is upper-case |
| `JsString.ToUpperOfUpper` | backend/middleware/validation.js:50 | an upper-case string is left unchanged |
| `JsString.StartsWith` | backend/routes/expenses.js:27 | true exactly when the prefix is the string's first characters |
| `ExpenseSchema.ParseCategory` | backend/models/Expense.js:39-44 | exactly the seven category names are accepted, each to its category |
| `ExpenseSchema.StoredCurrency` | backend/models/Expense.js:25-30 | the stored currency is upper-case and as long as the one sent; a three-character code is a valid stored currency |
| `ExpenseSchema.StoredDescription` | backend/models/Expense.js:14-19 | the stored description is trimmed; one whose trimmed length is 1..500 satisfies the schema |
| `Validation.ValidateCreate` | backend/middleware/validation.js:128-143 | the middleware passes a creation body on exactly when all six field rules hold; a refusal names each of the six fields exactly when that field breaks its own rule, so no failing field is dropped |
| `Validation.ValidateComment` | backend/middleware/validation.js:65-71 | the middleware passes an approval comment on exactly when it is absent or 1..500 characters after trimming, and a rejection comment exactly when it is present and 5..500 characters after trimming |
| `Validation.EmptyCategoryReportedTwice` | backend/middleware/validation.js:51 | an empty category is reported twice, as not among the listed names and as empty |
| `Validation.CheckString` | backend/middleware/validation.js:48-53 | every issue is reported at the field's own path; the issues are computed as Joi does: a listed value passes, an unlisted one is reported and then checked further, an empty one is reported as empty and not checked further |
| `Validation.CheckNumber` | backend/middleware/validation.js:49 | every issue is reported at the field's own path; `CheckNumberOk` gives when there are none |
| `Validation.CreateIssues` | backend/middleware/validation.js:47-54 | the issues of the six creation fields together; `CreateIssuesExactlyWhenInvalid` and `ValidateCreate` give when there are none |
| `Validation.ApproveIssues` | backend/middleware/validation.js:65-67 | the issues of an approval body; `ApproveCommentRule` gives when there are none |
| `Validation.RejectIssues` | backend/middleware/validation.js:69-71 | the issues of a rejection body; `RejectCommentRule` and `ShortRejectionRefused` give when there are none and when a comment is too short |
| `Validation.RuleIssues` | backend/middleware/validation.js:76-99 | the issues of a rule body; `RuleIssuesParts`, `AcceptedRuleFlow` and `NoApproversRejected` give what an accepted rule holds |
| `Validation.CheckStringOk` | backend/middleware/validation.js:48-53 | a string rule reports no issue exactly when the value is present (or optional), not empty after trimming, within its length bounds, in its allowed list and, for references, 24 hex digits |
| `Validation.CheckNumberOk` | backend/middleware/validation.js:49 | a number rule reports no issue exactly when the value is present (or optional) and meets its positivity, integrality and bounds |
| `Validation.CheckItems` | backend/middleware/validation.js:81-82 | an array reports no issue exactly when every item passes the item rule |
| `Validation.CreateIssuesExactlyWhenInvalid` | backend/middleware/validation.js:47-54 | creation is accepted exactly when all six hold: the description is 5..500 characters after trimming; the amount is above 0; the currency has three characters; the category is listed; the date is not after now; any remarks are 1..1000 characters after trimming |
| `Validation.ReportedInPart` | backend/middleware/validation.js:131 | a field is reported by a combined list exactly when one of the parts reports it |
| `Validation.ReportedInConcat` | backend/middleware/validation.js:130 | when field reports are joined, each at its own distinct key, a key is reported exactly when its own report is non-empty |
| `Validation.SixFields` | backend/middleware/validation.js:47-54 | in the six creation reports joined in schema order, each field is reported exactly when its own report is non-empty |
| `Validation.CreateReportsEachField` | backend/middleware/validation.js:47-54 | each of the six creation fields is among the reported fields exactly when it breaks its own rule, whatever the other fields are |
| `Validation.ApproveCommentRule` | backend/middleware/validation.js:65-67 | an approval comment is optional, must not be blank, and is at most 500 characters after trimming |
| `Validation.RejectCommentRule` | backend/middleware/validation.js:69-71 | a rejection comment is required and 5..500 characters after trimming |
| `Validation.ShortRejectionRefused` | backend/middleware/validation.js:70 | a rejection comment of 1..4 characters after trimming is refused as too short, and for that reason alone |
| `Validation.ConditionsIssues` | backend/middleware/validation.js:79-83 | the conditions are accepted exactly when absent, or with a threshold of at least 0, listed categories and non-empty department names |
| `Validation.ApproverIssues` | backend/middleware/validation.js:86-89 | an approver entry is accepted exactly when its user is an id of 24 hex digits and its order an integer of at least 1 |
| `Validation.ApproverListIssues` | backend/middleware/validation.js:86-90 | an approver list reports no issue exactly when every entry is accepted |
| `Validation.FlowIssues` | backend/middleware/validation.js:84-94 | the flow is accepted exactly when present, with a listed type, at least one approver, all accepted, and a percentage in 0..100 if given |
| `Validation.EscalationIssues` | backend/middleware/validation.js:95-98 | escalation is accepted exactly when absent or with a delay of at least 1 and id-shaped approvers |
| `Validation.AcceptedRuleFlow` | backend/middleware/validation.js:76-99 | an accepted rule has a flow type from the three, one or more approvers each with an id and an integer order of at least 1, a percentage in 0..100, a threshold of at least 0 and listed categories |
| `Validation.NoApproversRejected` | backend/middleware/validation.js:90 | a rule with an empty approver list is refused |
| `Validation.RuleIssuesParts` | backend/middleware/validation.js:76-99 | an accepted rule has accepted conditions, flow and escalation |
| `ApprovalRules.Insert` | backend/models/ApprovalRule.js:116 | one element more than the list; `InsertPermutes`, `InsertSorted` and `InsertSplit` say where it goes |
| `ApprovalRules.SortByOrder` | backend/models/ApprovalRule.js:116 | `sort((a, b) => a.order - b.order)`, as a value, of the same length; the lemmas below state that it is a stable sort |
| `ApprovalRules.InsertPermutes` | backend/models/ApprovalRule.js:116 | inserting into the sorted list adds exactly the one element |
| `ApprovalRules.InsertSorted` | backend/models/ApprovalRule.js:116 | inserting into a sorted list keeps it sorted by order |
| `ApprovalRules.SortByOrderPermutes` | backend/models/ApprovalRule.js:116 | the sort is a permutation of the approvers |
| `ApprovalRules.SortByOrderSorted` | backend/models/ApprovalRule.js:116 | the sort is ascending by order |
| `ApprovalRules.SortByOrderStable` | backend/models/ApprovalRule.js:116 | approvers of equal order keep their original relative order |
| `ApprovalRules.SortByOrderOfSorted` | backend/models/ApprovalRule.js:116 | sorting an already sorted list changes nothing |
| `ApprovalRules.IndexOfUser` | backend/models/ApprovalRule.js:119 | the result is the first position holding the user, or -1 exactly when no position does |
| `ApprovalRules.NextInSorted` | backend/models/ApprovalRule.js:118-125 | the approver after `current` in a sorted list, or the first when nobody acted; `NextInSortedOrder` and `UnlistedCurrentHasNoApprover` state what it gives |
| `ApprovalRules.NextApprover` | backend/models/ApprovalRule.js:114-129 | what `getNextApprover` returns, as a value; the lemmas below state it for each case: other flow types, an empty list, nobody current, a listed and an unlisted current user |
| `ApprovalRules.NonSequentialHasNoApprover` | backend/models/ApprovalRule.js:115-128 | a parallel or percentage rule names nobody |
| `ApprovalRules.EmptyFlowHasNoApprover` | backend/models/ApprovalRule.js:124 | a rule without approvers names nobody |
| `ApprovalRules.FirstApproverHasLeastOrder` | backend/models/ApprovalRule.js:123-125 | with nobody current, a sequential rule names the earliest-listed approver of least order |
| `ApprovalRules.NextInSortedOrder` | backend/models/ApprovalRule.js:118-122 | with distinct approvers, after the i-th of the sorted list comes the (i+1)-th, and after the last comes nobody |
| `ApprovalRules.ResolutionIgnoresEarlierSort` | backend/models/ApprovalRule.js:116 | the approver named is the same whether or not an earlier call already sorted the array |
| `ApprovalRules.InsertAt` | backend/models/ApprovalRule.js:116 | one step of the in-place sort: the first i+1 cells become the sorted prefix with the i-th element inserted, the rest unchanged |
| `ApprovalRules.SortApprovers` | backend/models/ApprovalRule.js:116 | the array is sorted in place into exactly `SortByOrder` of its old contents |
| `ApprovalRules.FindUser` | backend/models/ApprovalRule.js:119 | the linear search returns the first position of the user, or -1 |
| `ApprovalRules.ChainFrom` | backend/models/ApprovalRule.js:118-122 | with distinct approvers, the approvals after the i-th sorted approver visit the remaining ones in order |
| `ApprovalRules.ChainVisitsEachApproverOnce` | backend/models/ApprovalRule.js:114-129 | with distinct approvers, a sequential rule hands an expense to every approver exactly once, in ascending order, and then to nobody |
| `ApprovalRules.RepeatedApproverCycles` | backend/models/ApprovalRule.js:119-121 | an example: with `a` at orders 1 and 3 and `b` at 2, the approvers named are `a`, `b`, then `a` again |
| `ApprovalRules.CountedTwiceIsRepeated` | backend/models/ApprovalRule.js:119 | a user counted twice in the sorted list sits at two positions |
| `ApprovalRules.FirstRepeat` | backend/models/ApprovalRule.js:119 | a list with a repeated user has a first repetition, before which all users are distinct |
| `ApprovalRules.ChainAroundRepeat` | backend/models/ApprovalRule.js:118-122 | from any position before the first repetition, every step names an approver, for any number of steps |
| `ApprovalRules.RepeatedApproverNeverEnds` | backend/models/ApprovalRule.js:116-124 | for any list in which some user appears twice, a sequential rule names an approver at every one of any number of steps |
| `ApprovalRules.ChainEndsExactlyWithoutRepeats` | backend/models/ApprovalRule.js:116-124 | the sequence of approvers ends within the list's length exactly when no user is listed twice |
| `ApprovalRules.UnlistedCurrentHasNoApprover` | backend/models/ApprovalRule.js:119-121 | a current user who is not among the approvers has no next approver |
| `ApprovalRules.OrderDecidesTurns` | backend/models/ApprovalRule.js:116-124 | the turns follow the order field and not the list position |
| `ApprovalRules.FlowTypeOf` | backend/models/ApprovalRule.js:36-40 | the flow is parallel or percentage exactly when named so, and sequential otherwise (the default) |
| `ApprovalRules.ThresholdOf` | backend/models/ApprovalRule.js:25-28 | an absent threshold is 0, and an accepted one is at least 0 |
| `ApprovalRules.PercentageOf` | backend/models/ApprovalRule.js:56-61 | an absent percentage is 100, and an accepted one lies in 0..100 |
| `ApprovalRules.ToApprover` | backend/models/ApprovalRule.js:41-55 | an accepted approver keeps its user and integer order (at least 1); `isRequired` defaults to true |
| `ApprovalRules.ToApprovers` | backend/models/ApprovalRule.js:41-55 | the stored approvers are the sent ones, converted one by one, in order |
| `ApprovalRules.ToCategories` | backend/models/ApprovalRule.js:29-32 | the stored categories are the named ones, in order |
| `ApprovalRules.ConditionsOf` | backend/models/ApprovalRule.js:24-34 | the stored conditions take the threshold default and, when absent, are no categories and no departments |
| `ApprovalRules.EscalationOf` | backend/models/ApprovalRule.js:71-80 | absent escalation is 72 hours and no approvers; an accepted delay is at least 1 |
| `ApprovalRules.AcceptedRuleApprovers` | backend/middleware/validation.js:86-90 | the approvers of an accepted rule convert to stored approvers with the sent users and orders of at least 1 |
| `ApprovalRules.ApprovalRule.constructor` | backend/models/ApprovalRule.js:3-88 | a rule document holds the given fields and a fresh approver array with the given contents |
| `ApprovalRules.ApprovalRule.FromBody` | backend/models/ApprovalRule.js:3-88 | a rule built from an accepted body is active, has trimmed name and description, the defaults for omitted parts, at least one approver, a percentage in 0..100, a threshold of at least 0 and a delay of at least 1 |
| `ApprovalRules.ApprovalRule.GetNextApprover` | backend/models/ApprovalRule.js:114-129 | a sequential rule's approvers end up sorted in place; any other rule is untouched; the approver named is the one after `current` in order, or the first when nobody acted |
| `ApprovalRules.ApprovalRule.AppliesToExpense` | backend/models/ApprovalRule.js:96-111 | `appliesToExpense`; the four lemmas below state what it demands |
| `ApprovalRules.InactiveNeverApplies` | backend/models/ApprovalRule.js:97 | an inactive rule applies to no expense |
| `ApprovalRules.ThresholdIsInclusive` | backend/models/ApprovalRule.js:100-110 | amounts below the threshold never apply; an active rule applies at or above it when the category is accepted |
| `ApprovalRules.CategoryGate` | backend/models/ApprovalRule.js:105-108 | a rule that lists categories applies only to them; one that lists none ignores the category |
| `ApprovalRules.AppliesUpwardClosed` | backend/models/ApprovalRule.js:96-111 | raising the amount never stops a rule from applying |
| `Expenses.ExchangeRate` | backend/routes/expenses.js:36-46 | the rate is 1 for equal currencies, a failed lookup, or a missing or zero entry; otherwise it is the service's rate; it is never 0 |
| `Expenses.ToBaseCurrency` | backend/routes/expenses.js:168 | the amount times the rate; `ConversionFacts` states what it keeps |
| `Expenses.ConversionFacts` | backend/routes/expenses.js:167-168 | with the fallback rate the base amount is the amount; a positive amount never converts to 0 |
| `Expenses.HighestThresholdRule` | backend/routes/expenses.js:171-174 | the chosen rule is an active rule of the company with the highest threshold, the first among equals, and none exactly when the company has no active rule |
| `Expenses.InitialApprover` | backend/routes/expenses.js:176-182 | the approver a new expense starts with; `NoFallbackToLowerRule`, `BelowEveryThreshold` and `InitialApproverHasLeastOrder` state who it is |
| `Expenses.NoFallbackToLowerRule` | backend/routes/expenses.js:171-182 | when the highest-threshold rule does not apply the expense starts with no approver, even if a lower rule would apply |
| `Expenses.BelowEveryThreshold` | backend/routes/expenses.js:177-182 | an amount below every active threshold starts with no approver |
| `Expenses.InitialApproverHasLeastOrder` | backend/routes/expenses.js:176-182 | a new expense's approver comes from the chosen rule, which applies and is sequential, and holds its least order |
| `Expenses.ActGuard` | backend/routes/expenses.js:341-369 | approval and rejection go ahead exactly when the actor is a manager or admin, the body is valid, the expense is the actor's company's, pending, and either has no current approver or has the actor as its current approver; each failure gives its own reply |
| `Expenses.SubmitGuard` | backend/routes/expenses.js:281-303 | submission goes ahead exactly when an employee submits a draft of their own in their company; a non-draft gives the status error |
| `Expenses.UploadGuard` | backend/routes/expenses.js:223-252 | an upload goes ahead exactly when an employee sends an accepted image for a draft of their own; a non-draft is refused with the status error |
| `Expenses.ApprovalComment` | backend/routes/expenses.js:375 | the recorded comment is the one sent, or `Approved` when none was sent; never empty |
| `Expenses.CreateKeepsBookkeeping` | backend/routes/expenses.js:184-198 | a new draft with an approver only under a bound rule meets the workflow's bookkeeping |
| `Expenses.SubmitThroughRuleKeepsBookkeeping` | backend/routes/expenses.js:306-316 | submitting through a bound rule keeps the bookkeeping |
| `Expenses.SubmitWithoutRuleKeepsBookkeeping` | backend/routes/expenses.js:306-316 | submitting without a rule to consult keeps the bookkeeping |
| `Expenses.ApproveKeepsBookkeeping` | backend/routes/expenses.js:371-392 | recording an approval, with a next approver or a final approval, keeps the bookkeeping |
| `Expenses.RejectKeepsBookkeeping` | backend/routes/expenses.js:447-455 | recording a rejection keeps the bookkeeping |
| `Expenses.AllApprovals` | backend/models/Expense.js:66-80 | before a rejection every history entry is an approval |
| `Expenses.DecidedIsFinal` | backend/routes/expenses.js:356-361 | no submission, approval, rejection or upload succeeds on an approved or rejected expense |
| `Expenses.Expense.constructor` | backend/routes/expenses.js:184-198 | a new expense holds the given values, is a draft, and has no history and no receipt |
| `Expenses.Expense.UploadReceipt` | backend/routes/expenses.js:223-276 | the reply is the guard's; only a successful upload sets the receipt to the file's metadata, and nothing else changes |
| `Expenses.Expense.Submit` | backend/routes/expenses.js:281-336 | the reply is the guard's; a success with a bound rule sets the rule's first approver and makes the expense pending, or submitted when there is none; without the rule the expense is submitted and keeps its approver; on success the bound rule's approver array is left sorted by order when the rule is sequential, and unchanged otherwise; the invariant is kept |
| `Expenses.Expense.Approve` | backend/routes/expenses.js:341-413 | the reply is the guard's; a success appends exactly one approval entry and hands the expense to the rule's next approver, or approves it when there is none or no rule; on success the bound rule's approver array is left sorted by order when the rule is sequential, and unchanged otherwise; the invariant is kept |
| `Expenses.Expense.Reject` | backend/routes/expenses.js:418-475 | the reply is the guard's; a success appends exactly one rejection entry with the comment sent, clears the approver and rejects the expense; the invariant is kept |
| `Expenses.BindRule` | backend/routes/expenses.js:170-182 | the highest-threshold active rule is bound whether or not it applies; the approver is its first when it applies, else nobody; that rule's approver array is sorted exactly when the rule applies and is sequential, and every array not shared with it is unchanged |
| `Expenses.Create` | backend/routes/expenses.js:158-218 | an employee request creates an expense exactly when it has no issue, and any other request changes nothing; the new expense is a valid draft in the actor's name with the converted amount, stored values shaped by the setters, the highest-threshold rule bound and its first approver when it applies; the rule arrays end as `BindRule` leaves them |
| `AuthContext.UserRole` | frontend/src/components/Layout/Sidebar.js:38 | the role is present exactly when there is a user with a role field |
| `AuthContext.InitialState` | frontend/src/contexts/AuthContext.js:7-13 | the session starts signed out and loading, without user or error, with the stored token |
| `AuthContext.Merge` | frontend/src/contexts/AuthContext.js:53 | the merged user has every payload field, keeps every other field of the old user, and has no other field |
| `AuthContext.Reduce` | frontend/src/contexts/AuthContext.js:15-62 | `authReducer`; the lemmas below state what each action does and that consistency is kept |
| `AuthContext.ReduceKeepsConsistent` | frontend/src/contexts/AuthContext.js:15-62 | no action leads to an authenticated session without a user and a token |
| `AuthContext.RunKeepsConsistent` | frontend/src/contexts/AuthContext.js:15-62 | any sequence of actions keeps the session consistent |
| `AuthContext.ReachableIsConsistent` | frontend/src/contexts/AuthContext.js:7-62 | every session reachable from the initial state is consistent |
| `AuthContext.StartKeepsSession` | frontend/src/contexts/AuthContext.js:17-22 | `AUTH_START` sets loading, clears the error and keeps user, token and authentication |
| `AuthContext.SuccessAndFailureForgetTheState` | frontend/src/contexts/AuthContext.js:23-40 | success and failure do not depend on the state they act on; success signs the payload's user in |
| `AuthContext.LogoutIsSilentFailure` | frontend/src/contexts/AuthContext.js:41-49 | `LOGOUT` is `AUTH_FAILURE` with no error, and signs out |
| `AuthContext.StartThenSuccess` | frontend/src/contexts/AuthContext.js:17-31 | a start followed by a success ends where the success alone ends |
| `AuthContext.UpdatesCompose` | frontend/src/contexts/AuthContext.js:50-54 | an update changes only the user, and two updates equal one with the merged payload |
| `AuthContext.ClearErrorOnlyClearsError` | frontend/src/contexts/AuthContext.js:55-61 | `CLEAR_ERROR` changes only the error and is idempotent; an unknown action changes nothing |
| `Sidebar.FilterByRole` | frontend/src/components/Layout/Sidebar.js:37-39 | the menu is no longer than the table; the filter lemmas below state which entries it holds and in what order |
| `Sidebar.FilterMembership` | frontend/src/components/Layout/Sidebar.js:37-39 | an entry is in the menu exactly when it is in the table and lists the user's role |
| `Sidebar.FilterKeepsOrder` | frontend/src/components/Layout/Sidebar.js:37-39 | the filter keeps the table's order |
| `Sidebar.FilterAllShown` | frontend/src/components/Layout/Sidebar.js:37-39 | a table whose every entry lists the role is kept whole |
| `Sidebar.FilterNoneShown` | frontend/src/components/Layout/Sidebar.js:37-39 | a table none of whose entries lists the role gives an empty menu |
| `Sidebar.FilterShownPrefix` | frontend/src/components/Layout/Sidebar.js:37-39 | when exactly the first k entries list the role, the menu is those k entries |
| `Sidebar.AdminMenu` | frontend/src/components/Layout/Sidebar.js:29-34 | administrators see every entry |
| `Sidebar.ManagerMenu` | frontend/src/components/Layout/Sidebar.js:29-31 | managers see Dashboard, Expenses and Approvals, in that order |
| `Sidebar.EmployeeMenu` | frontend/src/components/Layout/Sidebar.js:29-30 | employees see Dashboard and Expenses |
| `Sidebar.OtherRoleMenu` | frontend/src/components/Layout/Sidebar.js:37-39 | a user without a role, or with another role, sees no entry |
| `Sidebar.IsActive` | frontend/src/components/Layout/Sidebar.js:41-43 | `isActive`; the lemmas below state when an entry is highlighted |
| `Sidebar.ActiveAtSegmentBoundary` | frontend/src/components/Layout/Sidebar.js:41-43 | an entry is active exactly when the location begins with its link and the match ends at the end or at a `/` |
| `Sidebar.PrefixWithoutSlashIsNotActive` | frontend/src/components/Layout/Sidebar.js:41-43 | `/expensesX` does not activate `/expenses`; `/expenses/123` and `/expenses` do |
| `Sidebar.ActiveOneSegmentLinksAgree` | frontend/src/components/Layout/Sidebar.js:41-43 | two one-segment links active at the same location are the same link |
| `Sidebar.NavigationLinks` | frontend/src/components/Layout/Sidebar.js:28-35 | every link in the table is a distinct one-segment link |
| `Sidebar.AtMostOneActive` | frontend/src/components/Layout/Sidebar.js:28-43 | at any location at most one sidebar entry is highlighted |
| `AppRoutes.ProtectedRoute` | frontend/src/App.js:23-39 | the guard of a signed-in page; `PageShownExactlyWhenRoleAllowed` and `SignedOutSeesOnlyPublicPages` state what it shows |
| `AppRoutes.PublicRoute` | frontend/src/App.js:42-54 | the guard of a public page; `SignedInSeesNoPublicPage` states what it shows |
| `AppRoutes.MatchRoute` | frontend/src/App.js:64-192 | the route table; `RouteRoles` and `LinkRoute` state what it matches |
| `AppRoutes.Render` | frontend/src/App.js:56-195 | what `App` renders at a location; the lemmas below state it per session state |
| `AppRoutes.LoadingShowsSpinner` | frontend/src/App.js:56-61 | while the session loads, every location shows the spinner |
| `AppRoutes.SignedOutSeesOnlyPublicPages` | frontend/src/App.js:23-54 | a signed-out visitor sees only the public pages, and every signed-in page sends the visitor to `/login` |
| `AppRoutes.SignedInSeesNoPublicPage` | frontend/src/App.js:42-54 | a signed-in user never sees a public page, and is sent to `/dashboard` from one |
| `AppRoutes.PageShownExactlyWhenRoleAllowed` | frontend/src/App.js:23-39 | a signed-in user sees a guarded page exactly when its role list is empty or holds the user's role, and is otherwise sent to `/dashboard` |
| `AppRoutes.RouteRoles` | frontend/src/App.js:109-188 | approvals allows admin and manager; the user, approval-rule and company-settings routes allow admin; dashboard, expenses and profile allow everyone; `expenses/new` is the form, not an expense id |
| `AppRoutes.RedirectsSettle` | frontend/src/App.js:23-192 | every redirect goes to `/login` or `/dashboard`, and at most two redirects reach a page |
| `AppRoutes.LinkRoute` | frontend/src/App.js:109-188 | each sidebar link leads to a guarded route whose role list is the sidebar's, or empty for the two entries every role sees |
| `AppRoutes.MenuMatchesRoutes` | frontend/src/App.js:118-188 | for the three roles, the sidebar lists an entry exactly when its page opens for that user |
| `AppRoutes.UnknownRoleStillReachesOpenPages` | frontend/src/App.js:109-125 | a user with another role has an empty sidebar yet sees the dashboard and expenses, and is sent away from approvals |

## Left out

- Persistence is left out: queries, `populate`, `save`, indexes and timestamps. The database lookups a handler makes are its parameters: the company's rules, and the bound rule or null.
- The exchange-rate service is left out. Its answer is a parameter (`RateLookup`): a failed request, or a table of rates.
- The current time is a parameter (`now`). It is used for the date check and the history timestamps.
- Numbers are `real`. Floating-point rounding, `toFixed` formatting and non-finite values are not modelled.
- Dates are integers (milliseconds). String-to-date parsing is not modelled.
- Authentication is not part of this model: the token middleware, `authorize` and `sameCompany`. Its outcome is the `Actor`: the user's id, role and company. JWT and bcrypt are not part of this model either.
- Most of the upload middleware is left out: disk storage, file naming and the error it raises. What remains is its acceptance rule (an image of at most 5 MB) and the file it hands over.
- Server errors (the 500 replies) are left out. Joi's messages are left out too, and the model keeps only which field failed and why.
- The list and detail routes (`GET /` and `GET /:id`) are left out. The user, company, country and rule-management routes are left out too. The user schemas and the update schemas of the validation module are outside the modelled core.
- Joi's handling of keys it does not know is left out. The rule body has no `isActive` field, because the creation schema does not allow one.
- `approvedApprovers` is left out, because `getNextApprover` never reads it.
- Parallel and percentage flows, escalation, and concurrent approvals are left out, because the source never acts on them.
- The effects of the session provider are left out: `localStorage`, API calls and toasts. Its reducer is modelled. `AUTH_SUCCESS` is taken to always carry a user and a token.
- React rendering is left out. A view is reduced to spinner, redirect or page. The layout's own rendering is not modelled.
- JsString.ToUpper: upper-cases ASCII letters only, whereas JavaScript upper-cases all of Unicode. For the same reason, the creation schema's three-character currency check is made on the currency as sent. Joi makes it after upper-casing, and the two differ only for a letter whose upper case is longer, such as `ß`.
- String lengths are counted in characters, not in UTF-16 code units.
- AppRoutes.MatchRoute: compares segments exactly. The router it models matches paths case-insensitively and ignores a trailing slash. The location is taken to be already split into non-empty segments.
- Expenses.HighestThresholdRule: among rules of equal threshold it picks the first in the given sequence. The database's order for ties is unspecified.
- ExpenseSchema.ValidStoredCurrency: the stored currency's three-character `length` option is stated as a constraint, although Mongoose does not enforce that option on strings.
- Validation.CheckString: an id is taken to be exactly 24 characters of 0-9, a-f or A-F, as the pattern says. How the database then casts it is not modelled.
