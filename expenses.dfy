/** The expense routes: creating an expense (currency conversion and the
    choice of approval rule), uploading its receipt, submitting it, and
    approving or rejecting it. Each handler is one transition of an
    `Expense` object; the database lookups it makes are parameters: the
    company's rules for creation, and the expense's bound rule (or null
    when it is gone) for submission and approval. */
module Expenses {
  import opened Common
  import opened JsString
  import opened ExpenseSchema
  import opened Validation
  import opened ApprovalRules

  // ---------------------------------------------------------------------
  // getExchangeRate
  // ---------------------------------------------------------------------

  /** What the exchange-rate service answered for the source currency: no
      answer (the request threw), or its table of rates by target. */
  datatype RateLookup = LookupFailed | Rates(table: map<string, real>)

  /** `getExchangeRate(from, to)`: 1 for the same code, otherwise the
      service's rate for `to`; 1 again when the request fails or the rate
      is missing or zero (`rates[to] || 1`). */
  function ExchangeRate(from: string, to: string, lookup: RateLookup): (rate: real)
    ensures from == to ==> rate == 1.0
    ensures lookup.LookupFailed? ==> rate == 1.0
    ensures lookup.Rates? && to !in lookup.table ==> rate == 1.0
    ensures from != to && lookup.Rates? && to in lookup.table && lookup.table[to] != 0.0 ==> rate == lookup.table[to]
    ensures rate == 1.0 || (lookup.Rates? && to in lookup.table && rate == lookup.table[to])
    ensures rate != 0.0
  {
    if from == to then 1.0
    else match lookup
      case LookupFailed => 1.0
      case Rates(table) => if to in table && table[to] != 0.0 then table[to] else 1.0
  }

  /** `amount * exchangeRate`: the amount in the company's currency. */
  function ToBaseCurrency(amount: real, rate: real): real {
    amount * rate
  }

  /** With the fallback rate the amount is taken over unchanged, and with
      any rate a positive amount is never converted to zero. */
  lemma ConversionFacts(amount: real, from: string, to: string, lookup: RateLookup)
    ensures ExchangeRate(from, to, lookup) == 1.0 ==> ToBaseCurrency(amount, ExchangeRate(from, to, lookup)) == amount
    ensures amount > 0.0 ==> ToBaseCurrency(amount, ExchangeRate(from, to, lookup)) != 0.0
  {
  }

  // ---------------------------------------------------------------------
  // Choosing the rule at creation.
  // ---------------------------------------------------------------------

  /** A rule the creation query may return: the company's and active. */
  predicate Candidate(rule: ApprovalRule, company: CompanyId) {
    rule.company == company && rule.isActive
  }

  /** `ApprovalRule.findOne({company, isActive: true}).sort({threshold: -1})`
      over `rules`: the position of a candidate with the highest threshold,
      the earliest among equals; none when the company has no active rule. */
  function HighestThresholdRule(rules: seq<ApprovalRule>, company: CompanyId): (r: Option<nat>)
    ensures r.None? <==> forall i :: 0 <= i < |rules| ==> !Candidate(rules[i], company)
    ensures r.Some? ==> r.value < |rules| && Candidate(rules[r.value], company)
    ensures r.Some? ==> forall i :: 0 <= i < |rules| && Candidate(rules[i], company) ==>
      rules[i].conditions.amountThreshold <= rules[r.value].conditions.amountThreshold
    ensures r.Some? ==> forall i :: 0 <= i < r.value && Candidate(rules[i], company) ==>
      rules[i].conditions.amountThreshold < rules[r.value].conditions.amountThreshold
  {
    if rules == [] then None
    else
      var rest := HighestThresholdRule(rules[1..], company);
      if !Candidate(rules[0], company) then
        if rest.Some? then Some(rest.value + 1) else None
      else if rest.Some? && rules[rest.value + 1].conditions.amountThreshold > rules[0].conditions.amountThreshold then
        Some(rest.value + 1)
      else Some(0)
  }

  /** The approver a new expense starts with: the first approver of the
      highest-threshold rule when that rule applies, and nobody otherwise. */
  function InitialApprover(rules: seq<ApprovalRule>, company: CompanyId, amountInBaseCurrency: real, category: Category): Option<UserId>
    reads set i | 0 <= i < |rules| :: rules[i].approvers
  {
    var k := HighestThresholdRule(rules, company);
    if k.Some? && rules[k.value].AppliesToExpense(amountInBaseCurrency, category) then
      NextApprover(rules[k.value].flowType, rules[k.value].approvers[..], None)
    else None
  }

  /** Only the highest-threshold rule is tried: when it does not apply,
      the expense starts with no approver even if a lower rule would apply. */
  lemma NoFallbackToLowerRule(rules: seq<ApprovalRule>, company: CompanyId, amount: real, category: Category, j: nat)
    requires j < |rules| && Candidate(rules[j], company) && rules[j].AppliesToExpense(amount, category)
    requires var k := HighestThresholdRule(rules, company); k.Some? && !rules[k.value].AppliesToExpense(amount, category)
    ensures InitialApprover(rules, company, amount, category) == None
  {
  }

  /** An amount below every active rule's threshold starts with nobody. */
  lemma BelowEveryThreshold(rules: seq<ApprovalRule>, company: CompanyId, amount: real, category: Category)
    requires forall i :: 0 <= i < |rules| && Candidate(rules[i], company) ==> amount < rules[i].conditions.amountThreshold
    ensures InitialApprover(rules, company, amount, category) == None
  {
    var k := HighestThresholdRule(rules, company);
    if k.Some? {
      assert amount < rules[k.value].conditions.amountThreshold;
    }
  }

  /** When a new expense starts with an approver, that approver is listed
      in the chosen rule, which is sequential, and holds its least order. */
  lemma InitialApproverHasLeastOrder(rules: seq<ApprovalRule>, company: CompanyId, amount: real, category: Category)
    returns (k: nat, p: nat)
    requires InitialApprover(rules, company, amount, category).Some?
    ensures HighestThresholdRule(rules, company) == Some(k) && k < |rules|
    ensures rules[k].flowType == Sequential && rules[k].AppliesToExpense(amount, category)
    ensures p < rules[k].approvers.Length
    ensures InitialApprover(rules, company, amount, category) == Some(rules[k].approvers[p].user)
    ensures forall j :: 0 <= j < rules[k].approvers.Length ==> rules[k].approvers[p].order <= rules[k].approvers[j].order
  {
    k := HighestThresholdRule(rules, company).value;
    var s := rules[k].approvers[..];
    if |s| == 0 || rules[k].flowType != Sequential {
      assert false;
    }
    p := FirstApproverHasLeastOrder(s);
  }

  // ---------------------------------------------------------------------
  // Who may do what.
  // ---------------------------------------------------------------------

  /** The authenticated user making a request. */
  datatype Actor = Actor(id: UserId, role: Role, company: CompanyId)

  /** A handler's answer: success, 403, 400 with the schema's issues, 404,
      400 for the wrong status, 400 for a missing file, or the upload
      middleware refusing the file. */
  datatype Reply = Ok | Forbidden | Invalid(issues: seq<Issue>) | NotFound | WrongStatus | FileRequired | UploadRefused

  /** The checks of the approve and reject routes in the order they run:
      the role (`authorize('manager', 'admin')`), the body schema, the
      expense's company, its status, and the current approver. */
  function ActGuard(actor: Actor, issues: seq<Issue>, company: CompanyId, status: Status, currentApprover: Option<UserId>): (r: Option<Reply>)
    ensures r.None? <==>
      && actor.role != Employee && issues == [] && actor.company == company
      && status == PendingApproval && (currentApprover.None? || currentApprover.value == actor.id)
    ensures actor.role == Employee ==> r == Some(Forbidden)
    ensures actor.role != Employee && issues != [] ==> r == Some(Invalid(issues))
    ensures r.Some? && actor.role != Employee && issues == [] && actor.company == company && status != PendingApproval
      ==> r == Some(WrongStatus)
    ensures r.Some? ==> r.value != Ok
  {
    if actor.role == Employee then Some(Forbidden)
    else if Validate(issues).BadRequest? then Some(Invalid(Validate(issues).issues))
    else if actor.company != company then Some(NotFound)
    else if status != PendingApproval then Some(WrongStatus)
    else if currentApprover.Some? && currentApprover.value != actor.id then Some(Forbidden)
    else None
  }

  /** The checks of the submit route: the role, then the expense must be
      the actor's own in the actor's company (else 404), then a draft. */
  function SubmitGuard(actor: Actor, employee: UserId, company: CompanyId, status: Status): (r: Option<Reply>)
    ensures r.None? <==> actor.role == Employee && employee == actor.id && company == actor.company && status == Draft
    ensures r.Some? && actor.role == Employee && employee == actor.id && company == actor.company ==> r == Some(WrongStatus)
    ensures r.Some? ==> r.value != Ok
  {
    if actor.role != Employee then Some(Forbidden)
    else if employee != actor.id || company != actor.company then Some(NotFound)
    else if status != Draft then Some(WrongStatus)
    else None
  }

  /** A file as the upload middleware hands it over. */
  datatype UploadedFile = UploadedFile(filename: string, originalName: string, path: string, mimetype: string, size: nat)

  /** The upload middleware's limit: 5 MB. */
  const MaxReceiptSize: nat := 5 * 1024 * 1024

  /** The upload middleware accepts images of at most 5 MB. */
  predicate AcceptedFile(f: UploadedFile) {
    StartsWith(f.mimetype, "image/") && f.size <= MaxReceiptSize
  }

  /** The checks of the receipt upload, in order: the role, the upload
      middleware, ownership, the draft status, and the presence of a file. */
  function UploadGuard(actor: Actor, employee: UserId, company: CompanyId, status: Status, file: Option<UploadedFile>): (r: Option<Reply>)
    ensures r.None? <==>
      && actor.role == Employee && file.Some? && AcceptedFile(file.value)
      && employee == actor.id && company == actor.company && status == Draft
    ensures (actor.role == Employee && (file.None? || AcceptedFile(file.value))
      && employee == actor.id && company == actor.company && status != Draft) ==> r == Some(WrongStatus)
    ensures r.Some? ==> r.value != Ok
  {
    if actor.role != Employee then Some(Forbidden)
    else if file.Some? && !AcceptedFile(file.value) then Some(UploadRefused)
    else if employee != actor.id || company != actor.company then Some(NotFound)
    else if status != Draft then Some(WrongStatus)
    else if file.None? then Some(FileRequired)
    else None
  }

  /** `comment || 'Approved'`: the comment recorded for an approval. */
  function ApprovalComment(b: CommentBody): (c: string)
    ensures c != ""
    ensures b.comment.Some? && b.comment.value != "" ==> c == b.comment.value
    ensures b.comment.None? ==> c == "Approved"
  {
    if b.comment.Some? && b.comment.value != "" then b.comment.value else "Approved"
  }

  // ---------------------------------------------------------------------
  // The workflow's bookkeeping.
  // ---------------------------------------------------------------------

  /** What the workflow keeps true of an expense's rule binding, status,
      history and current approver: a draft or submitted expense has no
      history; a pending one has an approver, which needs a bound rule; a
      decided one has nobody left to act and a non-empty history; the
      history holds approvals, except for one rejection, last, exactly when
      the expense is rejected. */
  predicate Bookkeeping(rule: Option<RuleId>, status: Status, history: seq<HistoryEntry>, current: Option<UserId>) {
    && (rule.None? ==> current.None?)
    && (status == Draft || status == Submitted ==> history == [])
    && (status == PendingApproval ==> current.Some?)
    && (status == Approved || status == Rejected ==> current.None? && history != [])
    && (forall k :: 0 <= k < |history| - 1 ==> history[k].action == Approval)
    && (status == Rejected <==> history != [] && history[|history| - 1].action == Rejection)
  }

  /** A new draft keeps the bookkeeping: no history, and an approver only
      with a bound rule. */
  lemma CreateKeepsBookkeeping(rule: Option<RuleId>, current: Option<UserId>)
    requires rule.None? ==> current.None?
    ensures Bookkeeping(rule, Draft, [], current)
  {
  }

  /** Submitting through a bound rule keeps the bookkeeping. */
  lemma SubmitThroughRuleKeepsBookkeeping(rule: Option<RuleId>, history: seq<HistoryEntry>, current: Option<UserId>, next: Option<UserId>)
    requires rule.Some? && Bookkeeping(rule, Draft, history, current)
    ensures Bookkeeping(rule, if next.Some? then PendingApproval else Submitted, history, next)
  {
  }

  /** Submitting without a rule to consult keeps the bookkeeping. */
  lemma SubmitWithoutRuleKeepsBookkeeping(rule: Option<RuleId>, history: seq<HistoryEntry>, current: Option<UserId>)
    requires Bookkeeping(rule, Draft, history, current)
    ensures Bookkeeping(rule, Submitted, history, current)
  {
  }

  /** Recording an approval on a pending expense keeps the bookkeeping,
      whether a next approver (through a bound rule) takes over or the
      expense is approved. */
  lemma {:induction false} ApproveKeepsBookkeeping(rule: Option<RuleId>, history: seq<HistoryEntry>, current: Option<UserId>,
                                                   entry: HistoryEntry, next: Option<UserId>)
    requires Bookkeeping(rule, PendingApproval, history, current) && entry.action == Approval
    requires next.Some? ==> rule.Some?
    ensures Bookkeeping(rule, if next.Some? then PendingApproval else Approved, history + [entry], next)
  {
    AllApprovals(rule, PendingApproval, history, current);
    var h := history + [entry];
    assert forall k :: 0 <= k < |h| ==> h[k].action == Approval;
  }

  /** Recording a rejection on a pending expense keeps the bookkeeping. */
  lemma {:induction false} RejectKeepsBookkeeping(rule: Option<RuleId>, history: seq<HistoryEntry>, current: Option<UserId>, entry: HistoryEntry)
    requires Bookkeeping(rule, PendingApproval, history, current) && entry.action == Rejection
    ensures Bookkeeping(rule, Rejected, history + [entry], None)
  {
    AllApprovals(rule, PendingApproval, history, current);
    var h := history + [entry];
    assert forall k :: 0 <= k < |h| - 1 ==> h[k] == history[k];
  }

  /** Before a decision, every entry of the history is an approval. */
  lemma AllApprovals(rule: Option<RuleId>, status: Status, history: seq<HistoryEntry>, current: Option<UserId>)
    requires Bookkeeping(rule, status, history, current) && status != Rejected
    ensures forall k :: 0 <= k < |history| ==> history[k].action == Approval
  {
    if history != [] {
      var last := history[|history| - 1];
      assert last.action != Rejection;
    }
  }

  /** A rejection that passes its guard has a comment and a pending expense. */
  lemma RejectGuardPassed(actor: Actor, body: CommentBody, company: CompanyId, status: Status, current: Option<UserId>)
    requires ActGuard(actor, RejectIssues(body), company, status, current).None?
    ensures body.comment.Some?
  {
  }

  /** A decided expense is final: no submission, approval, rejection or
      upload succeeds on it. */
  lemma DecidedIsFinal(actor: Actor, issues: seq<Issue>, employee: UserId, company: CompanyId, status: Status,
                       current: Option<UserId>, file: Option<UploadedFile>)
    requires status == Approved || status == Rejected
    ensures ActGuard(actor, issues, company, status, current).Some?
    ensures SubmitGuard(actor, employee, company, status).Some?
    ensures UploadGuard(actor, employee, company, status, file).Some?
  {
  }

  // ---------------------------------------------------------------------
  // The expense.
  // ---------------------------------------------------------------------

  /** An expense document. The fields fixed at creation are constants; the
      workflow changes the receipt, the status, the history and the
      current approver. */
  class Expense {
    const employee: UserId
    const company: CompanyId
    const description: string
    const amount: real
    const currency: string
    const amountInBaseCurrency: real
    const exchangeRate: real
    const category: Category
    const expenseDate: int
    const remarks: Option<string>
    const approvalRule: Option<RuleId>
    var receipt: Option<Receipt>
    var status: Status
    var approvalHistory: seq<HistoryEntry>
    var currentApprover: Option<UserId>

    /** What every expense the routes create and update satisfies: the
        schema's constraints on the stored values and the workflow's
        bookkeeping. */
    ghost predicate Valid()
      reads this
    {
      && amount > 0.0 && ValidAmount(amount)
      && ValidStoredCurrency(currency) && ValidStoredDescription(description)
      && (remarks.Some? ==> |remarks.value| <= 1000)
      && exchangeRate != 0.0
      && Bookkeeping(approvalRule, status, approvalHistory, currentApprover)
    }

    /** `new Expense({...})` as the create route fills it in: a draft with
        no history and no receipt. */
    constructor (employee: UserId, company: CompanyId, description: string, amount: real, currency: string,
                 amountInBaseCurrency: real, exchangeRate: real, category: Category, expenseDate: int,
                 remarks: Option<string>, approvalRule: Option<RuleId>, currentApprover: Option<UserId>)
      ensures this.employee == employee && this.company == company && this.description == description
      ensures this.amount == amount && this.currency == currency
      ensures this.amountInBaseCurrency == amountInBaseCurrency && this.exchangeRate == exchangeRate
      ensures this.category == category && this.expenseDate == expenseDate && this.remarks == remarks
      ensures this.approvalRule == approvalRule && this.currentApprover == currentApprover
      ensures status == DefaultStatus && approvalHistory == [] && receipt == None
    {
      this.employee := employee;
      this.company := company;
      this.description := description;
      this.amount := amount;
      this.currency := currency;
      this.amountInBaseCurrency := amountInBaseCurrency;
      this.exchangeRate := exchangeRate;
      this.category := category;
      this.expenseDate := expenseDate;
      this.remarks := remarks;
      this.approvalRule := approvalRule;
      this.currentApprover := currentApprover;
      this.status := DefaultStatus;
      this.approvalHistory := [];
      this.receipt := None;
    }

    /** `POST /:id/upload-receipt`: a draft of the actor's own gets the
        file's metadata as its receipt; nothing else changes. */
    method UploadReceipt(actor: Actor, file: Option<UploadedFile>) returns (reply: Reply)
      modifies this
      ensures var g := UploadGuard(actor, employee, company, old(status), file);
        (g.Some? ==> reply == g.value) && (g.None? ==> reply == Ok)
      ensures reply != Ok ==> unchanged(this)
      ensures reply == Ok ==>
        && receipt == Some(Receipt(file.value.filename, file.value.originalName, file.value.path, file.value.mimetype, file.value.size))
        && status == old(status) && approvalHistory == old(approvalHistory) && currentApprover == old(currentApprover)
      ensures old(Valid()) ==> Valid()
    {
      var g := UploadGuard(actor, employee, company, status, file);
      if g.Some? {
        return g.value;
      }
      var f := file.value;
      receipt := Some(Receipt(f.filename, f.originalName, f.path, f.mimetype, f.size));
      return Ok;
    }

    /** `PUT /:id/submit`: a draft of the actor's own becomes submitted; if
        it is bound to a rule that still exists, the rule's first approver
        becomes the current approver and the expense pending when there is
        one. Whether the rule applies is not checked again. When the bound
        rule is gone, the approver set at creation stays. */
    method Submit(actor: Actor, rule: ApprovalRule?) returns (reply: Reply)
      requires rule != null ==> approvalRule == Some(rule.id)
      modifies this, if rule == null then {} else {rule.approvers}
      ensures var g := SubmitGuard(actor, employee, company, old(status));
        (g.Some? ==> reply == g.value) && (g.None? ==> reply == Ok)
      ensures reply != Ok ==> unchanged(this) && (rule != null ==> unchanged(rule.approvers))
      ensures reply == Ok ==> approvalHistory == old(approvalHistory) && receipt == old(receipt)
      ensures reply == Ok && rule != null ==>
        && currentApprover == NextApprover(rule.flowType, old(rule.approvers[..]), None)
        && status == (if currentApprover.Some? then PendingApproval else Submitted)
      ensures reply == Ok && rule == null ==> currentApprover == old(currentApprover) && status == Submitted
      ensures reply == Ok && rule != null ==>
        rule.approvers[..] == (if rule.flowType == Sequential then SortByOrder(old(rule.approvers[..])) else old(rule.approvers[..]))
      ensures old(Valid()) ==> Valid()
    {
      var g := SubmitGuard(actor, employee, company, status);
      if g.Some? {
        return g.value;
      }
      if rule != null {
        var next := rule.GetNextApprover(None);
        if old(Valid()) {
          SubmitThroughRuleKeepsBookkeeping(approvalRule, approvalHistory, currentApprover, next);
        }
        currentApprover := next;
        status := if next.Some? then PendingApproval else Submitted;
      } else {
        if old(Valid()) {
          SubmitWithoutRuleKeepsBookkeeping(approvalRule, approvalHistory, currentApprover);
        }
        status := Submitted;
      }
      return Ok;
    }

    /** `PUT /:id/approve`: the current approver (or, when there is none,
        any manager or admin of the company) records an approval; the bound
        rule then names the next approver, and when it names nobody, or the
        expense has no rule, the expense is approved. */
    method Approve(actor: Actor, body: CommentBody, rule: ApprovalRule?, now: int) returns (reply: Reply)
      requires rule != null ==> approvalRule == Some(rule.id)
      modifies this, if rule == null then {} else {rule.approvers}
      ensures var g := ActGuard(actor, ApproveIssues(body), company, old(status), old(currentApprover));
        (g.Some? ==> reply == g.value) && (g.None? ==> reply == Ok)
      ensures reply != Ok ==> unchanged(this) && (rule != null ==> unchanged(rule.approvers))
      ensures reply == Ok ==>
        && approvalHistory == old(approvalHistory) + [HistoryEntry(actor.id, Approval, ApprovalComment(body), now)]
        && receipt == old(receipt)
      ensures reply == Ok && rule != null ==>
        && currentApprover == NextApprover(rule.flowType, old(rule.approvers[..]), Some(actor.id))
        && status == (if currentApprover.Some? then PendingApproval else Approved)
      ensures reply == Ok && rule == null ==> currentApprover == None && status == Approved
      ensures reply == Ok && rule != null ==>
        rule.approvers[..] == (if rule.flowType == Sequential then SortByOrder(old(rule.approvers[..])) else old(rule.approvers[..]))
      ensures old(Valid()) ==> Valid()
    {
      var g := ActGuard(actor, ApproveIssues(body), company, status, currentApprover);
      if g.Some? {
        return g.value;
      }
      var entry := HistoryEntry(actor.id, Approval, ApprovalComment(body), now);
      var next: Option<UserId> := None;
      if rule != null {
        next := rule.GetNextApprover(Some(actor.id));
      }
      if old(Valid()) {
        ApproveKeepsBookkeeping(approvalRule, approvalHistory, currentApprover, entry, next);
      }
      approvalHistory := approvalHistory + [entry];
      currentApprover := next;
      status := if next.Some? then PendingApproval else Approved;
      return Ok;
    }

    /** `PUT /:id/reject`: the current approver (or, when there is none,
        any manager or admin of the company) records a rejection with its
        comment, and the expense is rejected with nobody left to act. */
    method Reject(actor: Actor, body: CommentBody, now: int) returns (reply: Reply)
      modifies this
      ensures var g := ActGuard(actor, RejectIssues(body), company, old(status), old(currentApprover));
        (g.Some? ==> reply == g.value) && (g.None? ==> reply == Ok)
      ensures reply != Ok ==> unchanged(this)
      ensures reply == Ok ==>
        && body.comment.Some?
        && approvalHistory == old(approvalHistory) + [HistoryEntry(actor.id, Rejection, body.comment.value, now)]
        && currentApprover == None && status == Rejected && receipt == old(receipt)
      ensures old(Valid()) ==> Valid()
    {
      var g := ActGuard(actor, RejectIssues(body), company, status, currentApprover);
      if g.Some? {
        return g.value;
      }
      RejectGuardPassed(actor, body, company, status, currentApprover);
      var entry := HistoryEntry(actor.id, Rejection, body.comment.value, now);
      if Valid() {
        RejectKeepsBookkeeping(approvalRule, approvalHistory, currentApprover, entry);
      }
      approvalHistory := approvalHistory + [entry];
      currentApprover := None;
      status := Rejected;
      return Ok;
    }
  }

  /** Whether creating an expense sorts the approver list of `rules[i]`:
      it is the list of the bound rule, and that rule applies and is
      sequential. */
  predicate SortedAtCreation(rules: seq<ApprovalRule>, company: CompanyId, amountInBaseCurrency: real, category: Category, i: nat)
    requires i < |rules|
  {
    var k := HighestThresholdRule(rules, company);
    && k.Some?
    && rules[k.value].AppliesToExpense(amountInBaseCurrency, category)
    && rules[k.value].flowType == Sequential
    && rules[i].approvers == rules[k.value].approvers
  }

  /** The rule lookup of the create route: the highest-threshold active
      rule of the company is bound whether or not it applies; only when it
      applies is it asked for its first approver, which sorts its approver
      list. No other rule is consulted. */
  method BindRule(rules: seq<ApprovalRule>, company: CompanyId, amountInBaseCurrency: real, category: Category)
    returns (ruleId: Option<RuleId>, current: Option<UserId>)
    modifies set i | 0 <= i < |rules| :: rules[i].approvers
    ensures var k := HighestThresholdRule(rules, company);
      ruleId == (if k.Some? then Some(rules[k.value].id) else None)
    ensures current == old(InitialApprover(rules, company, amountInBaseCurrency, category))
    ensures ruleId.None? ==> current.None?
    ensures forall i :: 0 <= i < |rules| ==>
      rules[i].approvers[..] ==
        (if SortedAtCreation(rules, company, amountInBaseCurrency, category, i) then SortByOrder(old(rules[i].approvers[..]))
         else old(rules[i].approvers[..]))
  {
    var k := HighestThresholdRule(rules, company);
    ruleId, current := None, None;
    if k.Some? {
      var rule := rules[k.value];
      ruleId := Some(rule.id);
      if rule.AppliesToExpense(amountInBaseCurrency, category) {
        current := rule.GetNextApprover(None);
      }
    }
  }

  /** `POST /`: an employee's valid request creates a draft. The amount is
      converted with the rate for the currency as sent; the rule is bound
      as `BindRule` says. The trim and upper-case setters shape the stored
      description, remarks and currency. */
  method Create(actor: Actor, body: ExpenseBody, now: int, baseCurrency: string, lookup: RateLookup, rules: seq<ApprovalRule>)
    returns (reply: Reply, e: Expense?)
    modifies set i | 0 <= i < |rules| :: rules[i].approvers
    ensures reply == Ok <==> e != null
    ensures actor.role != Employee ==> reply == Forbidden
    ensures actor.role == Employee && CreateIssues(body, now) != [] ==> reply == Invalid(CreateIssues(body, now))
    ensures reply == Ok ==> actor.role == Employee && CreateValid(body, now)
    ensures e != null ==> fresh(e) && e.Valid()
    ensures e != null ==>
      && e.employee == actor.id && e.company == actor.company
      && e.description == StoredDescription(body.description.value)
      && e.amount == body.amount.value
      && e.currency == StoredCurrency(body.currency.value)
      && e.exchangeRate == ExchangeRate(body.currency.value, baseCurrency, lookup)
      && e.amountInBaseCurrency == ToBaseCurrency(e.amount, e.exchangeRate)
      && CategoryName(e.category) == body.category.value
      && e.expenseDate == body.expenseDate.value
      && e.remarks == (if body.remarks.Some? then Some(Trim(body.remarks.value)) else None)
      && e.status == Draft && e.approvalHistory == [] && e.receipt == None
    ensures e != null ==>
      var k := HighestThresholdRule(rules, actor.company);
      && e.approvalRule == (if k.Some? then Some(rules[k.value].id) else None)
      && e.currentApprover == old(InitialApprover(rules, actor.company,
           ToBaseCurrency(body.amount.value, ExchangeRate(body.currency.value, baseCurrency, lookup)), ParseCategory(body.category.value).value))
    ensures actor.role == Employee && CreateIssues(body, now) == [] ==> reply == Ok
    ensures reply != Ok ==> forall i :: 0 <= i < |rules| ==> rules[i].approvers[..] == old(rules[i].approvers[..])
    ensures reply == Ok ==> forall i :: 0 <= i < |rules| ==>
      rules[i].approvers[..] ==
        (if SortedAtCreation(rules, actor.company,
              ToBaseCurrency(body.amount.value, ExchangeRate(body.currency.value, baseCurrency, lookup)), ParseCategory(body.category.value).value, i)
         then SortByOrder(old(rules[i].approvers[..]))
         else old(rules[i].approvers[..]))
  {
    if actor.role != Employee {
      return Forbidden, null;
    }
    var verdict := Validate(CreateIssues(body, now));
    if verdict.BadRequest? {
      return Invalid(verdict.issues), null;
    }
    CreateIssuesExactlyWhenInvalid(body, now);
    var rate := ExchangeRate(body.currency.value, baseCurrency, lookup);
    var base := ToBaseCurrency(body.amount.value, rate);
    var category := ParseCategory(body.category.value).value;
    var ruleId, current := BindRule(rules, actor.company, base, category);
    label bound:
    var remarks := if body.remarks.Some? then Some(Trim(body.remarks.value)) else None;
    CreateKeepsBookkeeping(ruleId, current);
    e := new Expense(actor.id, actor.company, StoredDescription(body.description.value), body.amount.value,
                     StoredCurrency(body.currency.value), base, rate, category, body.expenseDate.value,
                     remarks, ruleId, current);
    forall i | 0 <= i < |rules|
      ensures rules[i].approvers[..] == old@bound(rules[i].approvers[..])
    {
    }
    reply := Ok;
  }
}
