/** The request-body schemas of the expense and approval-rule routes, and the
    `validate` middleware that applies them. Each schema is modelled as the
    list of every issue Joi reports for a body under `abortEarly: false`, in
    schema key order; a body passes exactly when that list is empty.
    Joi checks a string after trimming it when the schema says `trim()`;
    a value in a `valid(...)` list passes at once; one outside it is
    reported as not listed and is then checked as any other string; an
    empty string is reported as empty and not checked further; a number
    has every one of its rules checked. */
module Validation {
  import opened Common
  import opened JsString
  import opened ExpenseSchema

  /** A step of an issue's path: an object key or an array position. */
  datatype Segment = Key(name: string) | Index(i: nat)

  /** The kind of a reported issue (Joi's error type). */
  datatype Kind =
    | Required        // any.required
    | Empty           // string.empty
    | TooShort        // string.min
    | TooLong         // string.max
    | WrongLength     // string.length
    | NotListed       // any.only
    | NotPositive     // number.positive
    | NotInteger      // number.integer
    | BelowMin        // number.min
    | AboveMax        // number.max
    | NotObjectId     // string.pattern.base for /^[0-9a-fA-F]{24}$/
    | AfterNow        // date.max('now')
    | TooFewItems     // array.min

  datatype Issue = Issue(path: seq<Segment>, kind: Kind)

  /** What `validate` does with a body: pass it on, or answer 400 with
      every issue. */
  datatype Verdict = Next | BadRequest(issues: seq<Issue>)

  /** `validate(schema)`: `next()` only when no issue was found; otherwise
      all of them are reported, none dropped. */
  function Validate(issues: seq<Issue>): (v: Verdict)
    ensures v.Next? <==> |issues| == 0
    ensures v.BadRequest? ==> v.issues == issues
  {
    if issues == [] then Next else BadRequest(issues)
  }

  // ---------------------------------------------------------------------
  // Declarative rules for string and number fields.
  // ---------------------------------------------------------------------

  /** A Joi string schema: `required()`, `trim()`, `min`, `max`, `length`,
      `valid(...)` and the object-id `pattern`. */
  datatype StringRules = StringRules(
    required: bool, trim: bool, min: nat, max: Option<nat>, length: Option<nat>,
    allowed: Option<seq<string>>, objectId: bool)

  predicate IsHexDigit(c: char) {
    ('0' <= c <= '9') || ('a' <= c <= 'f') || ('A' <= c <= 'F')
  }

  /** `/^[0-9a-fA-F]{24}$/`. */
  predicate IsObjectId(s: string) {
    |s| == 24 && forall i :: 0 <= i < |s| ==> IsHexDigit(s[i])
  }

  /** The issues of the rules after the emptiness check. */
  function StringRuleIssues(path: seq<Segment>, r: StringRules, v: string): (issues: seq<Issue>)
    ensures forall i :: 0 <= i < |issues| ==> issues[i].path == path
  {
    (if |v| < r.min then [Issue(path, TooShort)] else [])
    + (if r.max.Some? && |v| > r.max.value then [Issue(path, TooLong)] else [])
    + (if r.length.Some? && |v| != r.length.value then [Issue(path, WrongLength)] else [])
    + (if r.objectId && !IsObjectId(v) then [Issue(path, NotObjectId)] else [])
  }

  /** The issues one string field raises. */
  function CheckString(path: seq<Segment>, r: StringRules, value: Option<string>): (issues: seq<Issue>)
    ensures forall i :: 0 <= i < |issues| ==> issues[i].path == path
  {
    match value
    case None => if r.required then [Issue(path, Required)] else []
    case Some(raw) =>
      var v := if r.trim then Trim(raw) else raw;
      if r.allowed.Some? && v in r.allowed.value then []
      else
        var listed := if r.allowed.Some? then [Issue(path, NotListed)] else [];
        var rest := if v == "" then [Issue(path, Empty)] else StringRuleIssues(path, r, v);
        listed + rest
  }

  /** Exactly when a string field raises no issue. */
  predicate StringOk(r: StringRules, value: Option<string>) {
    match value
    case None => !r.required
    case Some(raw) =>
      var v := if r.trim then Trim(raw) else raw;
      if r.allowed.Some? then v in r.allowed.value
      else (v != "" && r.min <= |v| && (r.max.Some? ==> |v| <= r.max.value)
            && (r.length.Some? ==> |v| == r.length.value) && (r.objectId ==> IsObjectId(v)))
  }

  lemma CheckStringOk(path: seq<Segment>, r: StringRules, value: Option<string>)
    ensures CheckString(path, r, value) == [] <==> StringOk(r, value)
  {
  }

  /** A Joi number schema: `required()`, `positive()`, `integer()`, `min`, `max`. */
  datatype NumberRules = NumberRules(
    required: bool, positive: bool, integer: bool, min: Option<real>, max: Option<real>)

  predicate IsInteger(x: real) {
    x.Floor as real == x
  }

  /** The issues one number field raises; every failing rule is reported. */
  function CheckNumber(path: seq<Segment>, r: NumberRules, value: Option<real>): (issues: seq<Issue>)
    ensures forall i :: 0 <= i < |issues| ==> issues[i].path == path
  {
    match value
    case None => if r.required then [Issue(path, Required)] else []
    case Some(x) =>
      (if r.positive && x <= 0.0 then [Issue(path, NotPositive)] else [])
      + (if r.integer && !IsInteger(x) then [Issue(path, NotInteger)] else [])
      + (if r.min.Some? && x < r.min.value then [Issue(path, BelowMin)] else [])
      + (if r.max.Some? && x > r.max.value then [Issue(path, AboveMax)] else [])
  }

  predicate NumberOk(r: NumberRules, value: Option<real>) {
    match value
    case None => !r.required
    case Some(x) =>
      (r.positive ==> x > 0.0) && (r.integer ==> IsInteger(x))
      && (r.min.Some? ==> x >= r.min.value) && (r.max.Some? ==> x <= r.max.value)
  }

  lemma CheckNumberOk(path: seq<Segment>, r: NumberRules, value: Option<real>)
    ensures CheckNumber(path, r, value) == [] <==> NumberOk(r, value)
  {
  }

  /** An array of strings, each item checked by `r`; `start` is the
      position of the first item in the whole array. */
  function CheckItems(path: seq<Segment>, r: StringRules, items: seq<string>, start: nat): (issues: seq<Issue>)
    ensures issues == [] <==> forall i :: 0 <= i < |items| ==> StringOk(r, Some(items[i]))
  {
    if items == [] then []
    else
      CheckStringOk(path + [Index(start)], r, Some(items[0]));
      CheckString(path + [Index(start)], r, Some(items[0])) + CheckItems(path, r, items[1..], start + 1)
  }

  // ---------------------------------------------------------------------
  // expenseValidation.create / approve / reject
  // ---------------------------------------------------------------------

  /** The body of `POST /api/expenses`; dates are instants on one clock. */
  datatype ExpenseBody = ExpenseBody(
    description: Option<string>, amount: Option<real>, currency: Option<string>,
    category: Option<string>, expenseDate: Option<int>, remarks: Option<string>)

  const DescriptionRules := StringRules(true, true, 5, Some(500), None, None, false)
  const AmountRules := NumberRules(true, true, false, None, None)
  const CurrencyRules := StringRules(true, false, 0, None, Some(3), None, false)
  const CategoryRules := StringRules(true, false, 0, None, None, Some(CategoryNames), false)
  const RemarksRules := StringRules(false, true, 0, Some(1000), None, None, false)

  /** `expenseDate: Joi.date().max('now').required()`. */
  function CheckDate(path: seq<Segment>, value: Option<int>, now: int): (issues: seq<Issue>)
    ensures forall i :: 0 <= i < |issues| ==> issues[i].path == path
    ensures issues == [] <==> value.Some? && value.value <= now
  {
    match value
    case None => [Issue(path, Required)]
    case Some(d) => if d > now then [Issue(path, AfterNow)] else []
  }

  /** Every issue `expenseValidation.create` reports for `b` at time `now`. */
  function CreateIssues(b: ExpenseBody, now: int): seq<Issue> {
    CheckString([Key("description")], DescriptionRules, b.description)
    + CheckNumber([Key("amount")], AmountRules, b.amount)
    + CheckString([Key("currency")], CurrencyRules, b.currency)
    + CheckString([Key("category")], CategoryRules, b.category)
    + CheckDate([Key("expenseDate")], b.expenseDate, now)
    + CheckString([Key("remarks")], RemarksRules, b.remarks)
  }

  /** The create schema spelled out: amount above 0, a three-character
      currency, a listed category, a description of 5 to 500 characters
      after trimming, a date not after now, and optional remarks of at most
      1000 characters after trimming. */
  predicate CreateValid(b: ExpenseBody, now: int) {
    && b.description.Some? && 5 <= |Trim(b.description.value)| <= 500
    && b.amount.Some? && b.amount.value > 0.0
    && b.currency.Some? && |b.currency.value| == 3
    && b.category.Some? && b.category.value in CategoryNames
    && b.expenseDate.Some? && b.expenseDate.value <= now
    && (b.remarks.Some? ==> 0 < |Trim(b.remarks.value)| <= 1000)
  }

  /** A body is accepted exactly when it meets every constraint. */
  lemma CreateIssuesExactlyWhenInvalid(b: ExpenseBody, now: int)
    ensures CreateIssues(b, now) == [] <==> CreateValid(b, now)
  {
    CheckStringOk([Key("description")], DescriptionRules, b.description);
    CheckNumberOk([Key("amount")], AmountRules, b.amount);
    CheckStringOk([Key("currency")], CurrencyRules, b.currency);
    CheckStringOk([Key("category")], CategoryRules, b.category);
    CheckStringOk([Key("remarks")], RemarksRules, b.remarks);
  }

  /** `validate(expenseValidation.create)`: the route is reached exactly
      with a body that meets the schema, and a refusal reports each field
      exactly when that field breaks its own rules, whatever else is wrong. */
  lemma ValidateCreate(b: ExpenseBody, now: int)
    ensures Validate(CreateIssues(b, now)).Next? <==> CreateValid(b, now)
    ensures Validate(CreateIssues(b, now)).BadRequest? ==>
      var issues := Validate(CreateIssues(b, now)).issues;
      && (ReportedAt(issues, "description") <==> !StringOk(DescriptionRules, b.description))
      && (ReportedAt(issues, "amount") <==> !NumberOk(AmountRules, b.amount))
      && (ReportedAt(issues, "currency") <==> !StringOk(CurrencyRules, b.currency))
      && (ReportedAt(issues, "category") <==> !StringOk(CategoryRules, b.category))
      && (ReportedAt(issues, "expenseDate") <==> !(b.expenseDate.Some? && b.expenseDate.value <= now))
      && (ReportedAt(issues, "remarks") <==> !StringOk(RemarksRules, b.remarks))
  {
    CreateIssuesExactlyWhenInvalid(b, now);
    CreateReportsEachField(b, now);
  }

  /** An issue is reported at `key` exactly when that field is invalid. */
  ghost predicate ReportedAt(issues: seq<Issue>, key: string) {
    exists i :: 0 <= i < |issues| && issues[i].path == [Key(key)]
  }

  lemma ReportedInPart(a: seq<Issue>, b: seq<Issue>, key: string)
    ensures ReportedAt(a + b, key) <==> ReportedAt(a, key) || ReportedAt(b, key)
  {
    if ReportedAt(a + b, key) {
      var i :| 0 <= i < |a + b| && (a + b)[i].path == [Key(key)];
      if i >= |a| { assert b[i - |a|] == (a + b)[i]; }
    }
    if ReportedAt(a, key) {
      var i :| 0 <= i < |a| && a[i].path == [Key(key)];
      assert (a + b)[i] == a[i];
    }
    if ReportedAt(b, key) {
      var i :| 0 <= i < |b| && b[i].path == [Key(key)];
      assert (a + b)[|a| + i] == b[i];
    }
  }

  lemma NotReportedElsewhere(path: seq<Segment>, issues: seq<Issue>, key: string)
    requires forall i :: 0 <= i < |issues| ==> issues[i].path == path
    requires path != [Key(key)]
    ensures !ReportedAt(issues, key)
  {
  }

  lemma ReportedHere(key: string, issues: seq<Issue>)
    requires forall i :: 0 <= i < |issues| ==> issues[i].path == [Key(key)]
    ensures ReportedAt(issues, key) <==> issues != []
  {
    if issues != [] { assert issues[0].path == [Key(key)]; }
  }

  /** Every issue of `issues` is at `path`. */
  ghost predicate AllAt(issues: seq<Issue>, path: seq<Segment>) {
    forall i :: 0 <= i < |issues| ==> issues[i].path == path
  }

  /** The field reports one after another, as the schema lists them. */
  function Concat(parts: seq<seq<Issue>>): seq<Issue> {
    if parts == [] then [] else Concat(parts[..|parts| - 1]) + parts[|parts| - 1]
  }

  /** A key that no part is reported at is not reported by the whole. */
  lemma {:induction false} NotReportedInConcat(parts: seq<seq<Issue>>, keys: seq<string>, key: string)
    requires |parts| == |keys|
    requires forall i :: 0 <= i < |parts| ==> AllAt(parts[i], [Key(keys[i])])
    requires forall i :: 0 <= i < |keys| ==> keys[i] != key
    ensures !ReportedAt(Concat(parts), key)
  {
    if parts != [] {
      var n := |parts| - 1;
      NotReportedInConcat(parts[..n], keys[..n], key);
      ReportedInPart(Concat(parts[..n]), parts[n], key);
      NotReportedElsewhere([Key(keys[n])], parts[n], key);
    }
  }

  /** When every part is reported at its own key and the keys differ, the
      whole reports a key exactly when that key's own part is non-empty. */
  lemma {:induction false} ReportedInConcat(parts: seq<seq<Issue>>, keys: seq<string>, j: nat)
    requires |parts| == |keys| && j < |keys|
    requires forall i :: 0 <= i < |parts| ==> AllAt(parts[i], [Key(keys[i])])
    requires forall i :: 0 <= i < |keys| && i != j ==> keys[i] != keys[j]
    ensures ReportedAt(Concat(parts), keys[j]) <==> parts[j] != []
  {
    var n := |parts| - 1;
    ReportedInPart(Concat(parts[..n]), parts[n], keys[j]);
    if j < n {
      ReportedInConcat(parts[..n], keys[..n], j);
      NotReportedElsewhere([Key(keys[n])], parts[n], keys[j]);
    } else {
      NotReportedInConcat(parts[..n], keys[..n], keys[j]);
      ReportedHere(keys[j], parts[j]);
    }
  }

  /** In the six field reports of the create schema, each field is reported
      exactly when its own report is non-empty. */
  lemma SixFields(d: seq<Issue>, a: seq<Issue>, c: seq<Issue>, g: seq<Issue>, t: seq<Issue>, r: seq<Issue>)
    requires AllAt(d, [Key("description")]) && AllAt(a, [Key("amount")]) && AllAt(c, [Key("currency")])
    requires AllAt(g, [Key("category")]) && AllAt(t, [Key("expenseDate")]) && AllAt(r, [Key("remarks")])
    ensures var all := d + a + c + g + t + r;
      && (ReportedAt(all, "description") <==> d != [])
      && (ReportedAt(all, "amount") <==> a != [])
      && (ReportedAt(all, "currency") <==> c != [])
      && (ReportedAt(all, "category") <==> g != [])
      && (ReportedAt(all, "expenseDate") <==> t != [])
      && (ReportedAt(all, "remarks") <==> r != [])
  {
    var parts := [d, a, c, g, t, r];
    var keys := ["description", "amount", "currency", "category", "expenseDate", "remarks"];
    assert Concat([d]) == d by { assert [d][..0] == []; }
    assert Concat([d, a]) == d + a by { assert [d, a][..1] == [d]; }
    assert Concat([d, a, c]) == d + a + c by { assert [d, a, c][..2] == [d, a]; }
    assert Concat([d, a, c, g]) == d + a + c + g by { assert [d, a, c, g][..3] == [d, a, c]; }
    assert Concat([d, a, c, g, t]) == d + a + c + g + t by { assert [d, a, c, g, t][..4] == [d, a, c, g]; }
    assert Concat(parts) == d + a + c + g + t + r by { assert parts[..5] == [d, a, c, g, t]; }
    assert forall i :: 0 <= i < |parts| ==> AllAt(parts[i], [Key(keys[i])]);
    forall j | 0 <= j < 6
      ensures ReportedAt(d + a + c + g + t + r, keys[j]) <==> parts[j] != []
    {
      assert forall i :: 0 <= i < |keys| && i != j ==> keys[i] != keys[j];
      ReportedInConcat(parts, keys, j);
    }
    assert keys[0] == "description" && keys[1] == "amount" && keys[2] == "currency";
    assert keys[3] == "category" && keys[4] == "expenseDate" && keys[5] == "remarks";
  }

  /** Validation does not stop at the first failure: each field is reported
      whenever it fails, whatever else fails too, and only then. */
  lemma CreateReportsEachField(b: ExpenseBody, now: int)
    ensures var issues := CreateIssues(b, now);
      && (ReportedAt(issues, "description") <==> !StringOk(DescriptionRules, b.description))
      && (ReportedAt(issues, "amount") <==> !NumberOk(AmountRules, b.amount))
      && (ReportedAt(issues, "currency") <==> !StringOk(CurrencyRules, b.currency))
      && (ReportedAt(issues, "category") <==> !StringOk(CategoryRules, b.category))
      && (ReportedAt(issues, "expenseDate") <==> !(b.expenseDate.Some? && b.expenseDate.value <= now))
      && (ReportedAt(issues, "remarks") <==> !StringOk(RemarksRules, b.remarks))
  {
    var d := CheckString([Key("description")], DescriptionRules, b.description);
    var a := CheckNumber([Key("amount")], AmountRules, b.amount);
    var c := CheckString([Key("currency")], CurrencyRules, b.currency);
    var g := CheckString([Key("category")], CategoryRules, b.category);
    var t := CheckDate([Key("expenseDate")], b.expenseDate, now);
    var r := CheckString([Key("remarks")], RemarksRules, b.remarks);
    SixFields(d, a, c, g, t, r);
    CheckStringOk([Key("description")], DescriptionRules, b.description);
    CheckNumberOk([Key("amount")], AmountRules, b.amount);
    CheckStringOk([Key("currency")], CurrencyRules, b.currency);
    CheckStringOk([Key("category")], CategoryRules, b.category);
    CheckStringOk([Key("remarks")], RemarksRules, b.remarks);
  }

  /** The body of `PUT /api/expenses/:id/approve` and `/reject`. */
  datatype CommentBody = CommentBody(comment: Option<string>)

  const ApproveCommentRules := StringRules(false, true, 0, Some(500), None, None, false)
  const RejectCommentRules := StringRules(true, true, 5, Some(500), None, None, false)

  /** `expenseValidation.approve`. */
  function ApproveIssues(b: CommentBody): seq<Issue> {
    CheckString([Key("comment")], ApproveCommentRules, b.comment)
  }

  /** `expenseValidation.reject`. */
  function RejectIssues(b: CommentBody): seq<Issue> {
    CheckString([Key("comment")], RejectCommentRules, b.comment)
  }

  /** An approval comment may be left out; if given, it is at most 500
      characters after trimming, and not blank. */
  lemma ApproveCommentRule(b: CommentBody)
    ensures ApproveIssues(b) == [] <==>
      (b.comment.None? || 0 < |Trim(b.comment.value)| <= 500)
  {
    CheckStringOk([Key("comment")], ApproveCommentRules, b.comment);
  }

  /** A rejection needs a comment of 5 to 500 characters after trimming. */
  lemma RejectCommentRule(b: CommentBody)
    ensures RejectIssues(b) == [] <==>
      (b.comment.Some? && 5 <= |Trim(b.comment.value)| <= 500)
  {
    CheckStringOk([Key("comment")], RejectCommentRules, b.comment);
  }

  /** `validate(expenseValidation.approve)` and `validate(expenseValidation.reject)`:
      the route is reached exactly with a comment its schema accepts. */
  lemma ValidateComment(b: CommentBody)
    ensures Validate(ApproveIssues(b)).Next? <==> (b.comment.None? || 0 < |Trim(b.comment.value)| <= 500)
    ensures Validate(RejectIssues(b)).Next? <==> (b.comment.Some? && 5 <= |Trim(b.comment.value)| <= 500)
  {
    ApproveCommentRule(b);
    RejectCommentRule(b);
  }

  /** A category outside the list that is also empty is reported twice:
      as not listed and as empty. */
  lemma EmptyCategoryReportedTwice()
    ensures CheckString([Key("category")], CategoryRules, Some(""))
      == [Issue([Key("category")], NotListed), Issue([Key("category")], Empty)]
  {
    assert "" !in CategoryNames;
  }

  /** A rejection comment is judged by its trimmed length: one with fewer
      than five characters left after trimming is too short, however much
      white space surrounds it. */
  lemma ShortRejectionRefused(c: string)
    requires 0 < |Trim(c)| < 5
    ensures RejectIssues(CommentBody(Some(c))) == [Issue([Key("comment")], TooShort)]
  {
  }

  // ---------------------------------------------------------------------
  // approvalRuleValidation.create
  // ---------------------------------------------------------------------

  datatype ApproverInput = ApproverInput(user: Option<string>, order: Option<real>, isRequired: Option<bool>)

  datatype ConditionsInput = ConditionsInput(
    amountThreshold: Option<real>, categories: Option<seq<string>>, departments: Option<seq<string>>)

  datatype FlowInput = FlowInput(
    flowType: Option<string>, approvers: Option<seq<ApproverInput>>, percentageRequired: Option<real>,
    isManagerApprover: Option<bool>, managerApprovalRequired: Option<bool>)

  datatype EscalationInput = EscalationInput(autoEscalateAfter: Option<real>, escalationApprovers: Option<seq<string>>)

  /** The body of `POST /api/approval-rules`. */
  datatype RuleBody = RuleBody(
    name: Option<string>, description: Option<string>, conditions: Option<ConditionsInput>,
    approvalFlow: Option<FlowInput>, escalationRules: Option<EscalationInput>)

  const FlowTypeNames: seq<string> := ["sequential", "parallel", "percentage"]

  const NameRules := StringRules(true, true, 3, Some(100), None, None, false)
  const RuleDescriptionRules := StringRules(false, true, 0, Some(500), None, None, false)
  const ThresholdRules := NumberRules(false, false, false, Some(0.0), None)
  const CategoryItemRules := StringRules(true, false, 0, None, None, Some(CategoryNames), false)
  const DepartmentRules := StringRules(true, false, 0, None, None, None, false)
  const FlowTypeRules := StringRules(true, false, 0, None, None, Some(FlowTypeNames), false)
  const UserRefRules := StringRules(true, false, 0, None, None, None, true)
  const OrderRules := NumberRules(true, false, true, Some(1.0), None)
  const PercentageRules := NumberRules(false, false, false, Some(0.0), Some(100.0))
  const EscalateAfterRules := NumberRules(false, false, false, Some(1.0), None)

  function OptionalItems(path: seq<Segment>, r: StringRules, items: Option<seq<string>>): seq<Issue> {
    if items.Some? then CheckItems(path, r, items.value, 0) else []
  }

  predicate OptionalItemsOk(r: StringRules, items: Option<seq<string>>) {
    items.Some? ==> forall i :: 0 <= i < |items.value| ==> StringOk(r, Some(items.value[i]))
  }

  function ConditionsIssues(c: Option<ConditionsInput>): (issues: seq<Issue>)
    ensures issues == [] <==> (c.Some? ==>
      NumberOk(ThresholdRules, c.value.amountThreshold)
      && OptionalItemsOk(CategoryItemRules, c.value.categories)
      && OptionalItemsOk(DepartmentRules, c.value.departments))
  {
    match c
    case None => []
    case Some(c) =>
      var path := [Key("conditions")];
      CheckNumberOk(path + [Key("amountThreshold")], ThresholdRules, c.amountThreshold);
      CheckNumber(path + [Key("amountThreshold")], ThresholdRules, c.amountThreshold)
      + OptionalItems(path + [Key("categories")], CategoryItemRules, c.categories)
      + OptionalItems(path + [Key("departments")], DepartmentRules, c.departments)
  }

  /** One approver: a 24-digit hexadecimal user id and an integer order of
      at least 1. */
  predicate ApproverOk(a: ApproverInput) {
    StringOk(UserRefRules, a.user) && NumberOk(OrderRules, a.order)
  }

  function ApproverIssues(path: seq<Segment>, a: ApproverInput): (issues: seq<Issue>)
    ensures issues == [] <==> ApproverOk(a)
  {
    CheckStringOk(path + [Key("user")], UserRefRules, a.user);
    CheckNumberOk(path + [Key("order")], OrderRules, a.order);
    CheckString(path + [Key("user")], UserRefRules, a.user) + CheckNumber(path + [Key("order")], OrderRules, a.order)
  }

  function ApproverListIssues(path: seq<Segment>, list: seq<ApproverInput>, start: nat): (issues: seq<Issue>)
    ensures issues == [] <==> forall i :: 0 <= i < |list| ==> ApproverOk(list[i])
  {
    if list == [] then []
    else ApproverIssues(path + [Index(start)], list[0]) + ApproverListIssues(path, list[1..], start + 1)
  }

  function FlowIssues(f: Option<FlowInput>): (issues: seq<Issue>)
    ensures issues == [] <==> (f.Some?
      && StringOk(FlowTypeRules, f.value.flowType)
      && f.value.approvers.Some? && |f.value.approvers.value| >= 1
      && (forall i :: 0 <= i < |f.value.approvers.value| ==> ApproverOk(f.value.approvers.value[i]))
      && NumberOk(PercentageRules, f.value.percentageRequired))
  {
    match f
    case None => [Issue([Key("approvalFlow")], Required)]
    case Some(f) =>
      var path := [Key("approvalFlow")];
      CheckStringOk(path + [Key("type")], FlowTypeRules, f.flowType);
      CheckNumberOk(path + [Key("percentageRequired")], PercentageRules, f.percentageRequired);
      CheckString(path + [Key("type")], FlowTypeRules, f.flowType)
      + (match f.approvers
         case None => [Issue(path + [Key("approvers")], Required)]
         case Some(list) =>
           (if |list| < 1 then [Issue(path + [Key("approvers")], TooFewItems)] else [])
           + ApproverListIssues(path + [Key("approvers")], list, 0))
      + CheckNumber(path + [Key("percentageRequired")], PercentageRules, f.percentageRequired)
  }

  function EscalationIssues(e: Option<EscalationInput>): (issues: seq<Issue>)
    ensures issues == [] <==> (e.Some? ==>
      NumberOk(EscalateAfterRules, e.value.autoEscalateAfter)
      && OptionalItemsOk(UserRefRules, e.value.escalationApprovers))
  {
    match e
    case None => []
    case Some(e) =>
      var path := [Key("escalationRules")];
      CheckNumberOk(path + [Key("autoEscalateAfter")], EscalateAfterRules, e.autoEscalateAfter);
      CheckNumber(path + [Key("autoEscalateAfter")], EscalateAfterRules, e.autoEscalateAfter)
      + OptionalItems(path + [Key("escalationApprovers")], UserRefRules, e.escalationApprovers)
  }

  /** Every issue `approvalRuleValidation.create` reports for `b`. */
  function RuleIssues(b: RuleBody): seq<Issue> {
    CheckString([Key("name")], NameRules, b.name)
    + CheckString([Key("description")], RuleDescriptionRules, b.description)
    + ConditionsIssues(b.conditions)
    + FlowIssues(b.approvalFlow)
    + EscalationIssues(b.escalationRules)
  }

  /** What an accepted rule definition guarantees about its flow: a listed
      flow type, at least one approver, every approver with a well-formed
      user id and an integer order of at least 1, a percentage (when given)
      within 0..100 and an amount threshold (when given) of at least 0. */
  lemma AcceptedRuleFlow(b: RuleBody)
    requires RuleIssues(b) == []
    ensures b.approvalFlow.Some? && b.approvalFlow.value.flowType.Some?
    ensures b.approvalFlow.value.flowType.value in FlowTypeNames
    ensures b.approvalFlow.value.approvers.Some? && |b.approvalFlow.value.approvers.value| >= 1
    ensures forall i :: 0 <= i < |b.approvalFlow.value.approvers.value| ==>
      var a := b.approvalFlow.value.approvers.value[i];
      a.user.Some? && IsObjectId(a.user.value) && a.order.Some? && IsInteger(a.order.value) && a.order.value >= 1.0
    ensures b.approvalFlow.value.percentageRequired.Some? ==>
      0.0 <= b.approvalFlow.value.percentageRequired.value <= 100.0
    ensures b.conditions.Some? && b.conditions.value.amountThreshold.Some? ==>
      b.conditions.value.amountThreshold.value >= 0.0
    ensures b.conditions.Some? && b.conditions.value.categories.Some? ==>
      forall i :: 0 <= i < |b.conditions.value.categories.value| ==>
        b.conditions.value.categories.value[i] in CategoryNames
  {
    var n := CheckString([Key("name")], NameRules, b.name);
    var d := CheckString([Key("description")], RuleDescriptionRules, b.description);
    assert RuleIssues(b) == n + d + ConditionsIssues(b.conditions) + FlowIssues(b.approvalFlow) + EscalationIssues(b.escalationRules);
  }

  /** A flow must name at least one approver. */
  lemma NoApproversRejected(b: RuleBody)
    requires b.approvalFlow.Some? && b.approvalFlow.value.approvers == Some([])
    ensures RuleIssues(b) != []
  {
    var f := b.approvalFlow.value;
    var path := [Key("approvalFlow")];
    assert Issue(path + [Key("approvers")], TooFewItems) in FlowIssues(b.approvalFlow);
  }

  /** An accepted definition passes each part of the schema. */
  lemma RuleIssuesParts(b: RuleBody)
    requires RuleIssues(b) == []
    ensures ConditionsIssues(b.conditions) == [] && FlowIssues(b.approvalFlow) == []
    ensures EscalationIssues(b.escalationRules) == []
  {
    var n := CheckString([Key("name")], NameRules, b.name);
    var d := CheckString([Key("description")], RuleDescriptionRules, b.description);
    assert RuleIssues(b) == n + d + ConditionsIssues(b.conditions) + FlowIssues(b.approvalFlow) + EscalationIssues(b.escalationRules);
  }
}
