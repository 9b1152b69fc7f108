/** The Expense record's schema: the status, category and history-action
    enumerations with their stored names and defaults, the approval-history
    entry and receipt shapes, and the constraints the schema puts on the
    stored amount, currency and description. */
module ExpenseSchema {
  import opened Common
  import opened JsString

  /** Where an expense is in its approval workflow. */
  datatype Status = Draft | Submitted | PendingApproval | Approved | Rejected

  /** The expense categories (also the category tags an approval rule lists). */
  datatype Category = Food | Travel | Accommodation | Transport | Office | Entertainment | Other

  /** What an approver did; the history records nothing else. */
  datatype Action = Approval | Rejection

  /** A new expense starts as a draft. */
  const DefaultStatus: Status := Draft

  function CategoryName(c: Category): string {
    match c
    case Food => "food"
    case Travel => "travel"
    case Accommodation => "accommodation"
    case Transport => "transport"
    case Office => "office"
    case Entertainment => "entertainment"
    case Other => "other"
  }

  /** The category names in the order the schemas list them. */
  const CategoryNames: seq<string> :=
    ["food", "travel", "accommodation", "transport", "office", "entertainment", "other"]

  /** The schema's category enum: exactly the seven category names are accepted. */
  function ParseCategory(name: string): (r: Option<Category>)
    ensures r.Some? ==> CategoryName(r.value) == name
    ensures forall c: Category :: CategoryName(c) == name ==> r == Some(c)
    ensures r.Some? <==> name in CategoryNames
  {
    match name
    case "food" => Some(Food)
    case "travel" => Some(Travel)
    case "accommodation" => Some(Accommodation)
    case "transport" => Some(Transport)
    case "office" => Some(Office)
    case "entertainment" => Some(Entertainment)
    case "other" => Some(Other)
    case _ => None
  }

  /** One entry of an expense's approval history. */
  datatype HistoryEntry = HistoryEntry(approver: UserId, action: Action, comment: string, timestamp: int)

  /** The stored receipt metadata. */
  datatype Receipt = Receipt(filename: string, originalName: string, path: string, mimetype: string, size: nat)

  /** `amount`: `min: 0`. */
  predicate ValidAmount(amount: real) {
    amount >= 0.0
  }

  /** `currency`: three characters, stored upper-case. */
  predicate ValidStoredCurrency(currency: string) {
    |currency| == 3 && IsUpperCase(currency)
  }

  /** The `uppercase: true` setter applied to a submitted currency code: a
      three-character code is stored as a valid currency. */
  function StoredCurrency(raw: string): (c: string)
    ensures |c| == |raw| && IsUpperCase(c)
    ensures |raw| == 3 ==> ValidStoredCurrency(c)
    ensures IsUpperCase(raw) ==> c == raw
  {
    ToUpperOfUpper(raw);
    ToUpper(raw)
  }

  /** `description`: required, at most 500 characters, stored trimmed. */
  predicate ValidStoredDescription(d: string) {
    0 < |d| <= 500 && IsTrimmed(d)
  }

  /** The `trim: true` setter applied to a submitted description: one whose
      trimmed length is within 1..500 is stored as a valid description. */
  function StoredDescription(raw: string): (d: string)
    ensures |d| <= |raw| && IsTrimmed(d)
    ensures 0 < |Trim(raw)| <= 500 ==> ValidStoredDescription(d)
  {
    Trim(raw)
  }
}
