/** The spending-insights request: a text digest of the 50 most recent transactions, the
    prompt around it, and the fixed messages the screen shows when the AI service is not
    configured, gives no text or fails. The service itself is a parameter. */
module Insights {
  import opened Text
  import opened Dates
  import opened Types

  const Unavailable: string := "AI services are currently unavailable. Please check your API configuration."
  const NoInsights: string := "No insights could be generated at this time."
  const Failure: string := "Failed to retrieve insights. Please try again later."

  /** At most this many transactions, from the front of the sequence, go into the digest. */
  const RecentLimit: nat := 50

  /** `name (TYPE)` for a known category, "Unknown" otherwise. */
  function CategoryLabel(categories: seq<Category>, id: string): (r: string)
    ensures FindCategory(categories, id).None? ==> r == "Unknown"
    ensures FindCategory(categories, id).Some? ==>
      var c := FindCategory(categories, id).value;
      r == c.name + " (" + CategoryTypeName(c.kind) + ")"
  {
    match FindCategory(categories, id)
    case None => "Unknown"
    case Some(c) => c.name + " (" + CategoryTypeName(c.kind) + ")"
  }

  /** One digest line: `- <date>: Rs. <amount> on <category> (<account>)`, where the date is
      the part of the stored ISO string before 'T'. */
  function DigestLine(t: Transaction, categories: seq<Category>, accounts: seq<Account>): (r: string)
    ensures r == "- " + DateText(t.date.date) + ": Rs. " + IntToString(t.amount) + " on "
      + CategoryLabel(categories, t.categoryId) + " (" + AccountNameOr(accounts, t.accountId, "Unknown") + ")"
  {
    IsoDatePart(t.date);
    "- " + Before(IsoString(t.date), 'T') + ": Rs. " + IntToString(t.amount) + " on "
      + CategoryLabel(categories, t.categoryId) + " (" + AccountNameOr(accounts, t.accountId, "Unknown") + ")"
  }

  /** `transactions.slice(0, 50).map(...)`. */
  function Lines(ts: seq<Transaction>, categories: seq<Category>, accounts: seq<Account>): (r: seq<string>)
    ensures |r| == if |ts| < RecentLimit then |ts| else RecentLimit
    ensures forall i :: 0 <= i < |r| ==> r[i] == DigestLine(ts[i], categories, accounts)
  {
    var n := if |ts| < RecentLimit then |ts| else RecentLimit;
    seq(n, i requires 0 <= i < n => DigestLine(ts[i], categories, accounts))
  }

  /** The digest: the lines joined with newlines. */
  function Digest(ts: seq<Transaction>, categories: seq<Category>, accounts: seq<Account>): string
  {
    Join(Lines(ts, categories, accounts), '\n')
  }

  /** No transactions, empty digest; one transaction, its line alone. */
  lemma DigestOfFew(ts: seq<Transaction>, categories: seq<Category>, accounts: seq<Account>)
    ensures ts == [] ==> Digest(ts, categories, accounts) == ""
    ensures |ts| == 1 ==> Digest(ts, categories, accounts) == DigestLine(ts[0], categories, accounts)
  {
  }

  /** Names free of line breaks. */
  predicate SingleLineNames(categories: seq<Category>, accounts: seq<Account>)
  {
    (forall i :: 0 <= i < |categories| ==> '\n' !in categories[i].name)
    && (forall i :: 0 <= i < |accounts| ==> '\n' !in accounts[i].name)
  }

  lemma DateTextSingle(d: Day)
    ensures '\n' !in DateText(d)
  {
    var text := DateText(d);
    assert forall i :: 0 <= i < |text| ==> text[i] != '\n';
  }

  lemma AmountTextSingle(n: int)
    ensures '\n' !in IntToString(n)
  {
    IntToStringChars(n);
    var text := IntToString(n);
    assert forall i :: 0 <= i < |text| ==> text[i] != '\n';
  }

  lemma NamesSingle(t: Transaction, categories: seq<Category>, accounts: seq<Account>)
    requires SingleLineNames(categories, accounts)
    ensures '\n' !in CategoryLabel(categories, t.categoryId)
    ensures '\n' !in AccountNameOr(accounts, t.accountId, "Unknown")
  {
    FindCategorySpec(categories, t.categoryId);
    if FindCategory(categories, t.categoryId).Some? {
      var c := FindCategory(categories, t.categoryId).value;
      assert '\n' !in c.name;
      assert '\n' !in CategoryTypeName(c.kind);
    }
  }

  lemma NoBreakInConcat(a: string, b: string)
    requires '\n' !in a && '\n' !in b
    ensures '\n' !in a + b
  {
    assert forall i :: 0 <= i < |a + b| ==> (a + b)[i] == if i < |a| then a[i] else b[i - |a|];
  }

  /** A line holds no line break when the names in it hold none. */
  lemma DigestLineSingle(t: Transaction, categories: seq<Category>, accounts: seq<Account>)
    requires SingleLineNames(categories, accounts)
    ensures '\n' !in DigestLine(t, categories, accounts)
  {
    var date, amount := DateText(t.date.date), IntToString(t.amount);
    var category, account := CategoryLabel(categories, t.categoryId), AccountNameOr(accounts, t.accountId, "Unknown");
    DateTextSingle(t.date.date);
    AmountTextSingle(t.amount);
    NamesSingle(t, categories, accounts);
    var line := "- ";
    NoBreakInConcat(line, date);
    line := line + date;
    NoBreakInConcat(line, ": Rs. ");
    line := line + ": Rs. ";
    NoBreakInConcat(line, amount);
    line := line + amount;
    NoBreakInConcat(line, " on ");
    line := line + " on ";
    NoBreakInConcat(line, category);
    line := line + category;
    NoBreakInConcat(line, " (");
    line := line + " (";
    NoBreakInConcat(line, account);
    line := line + account;
    NoBreakInConcat(line, ")");
    line := line + ")";
    assert line == DigestLine(t, categories, accounts);
  }

  /** Splitting the digest at newlines gives back one line per recent transaction, in order. */
  lemma DigestSplitsIntoLines(ts: seq<Transaction>, categories: seq<Category>, accounts: seq<Account>)
    requires ts != []
    requires SingleLineNames(categories, accounts)
    ensures Split(Digest(ts, categories, accounts), '\n') == Lines(ts, categories, accounts)
  {
    var lines := Lines(ts, categories, accounts);
    forall i | 0 <= i < |lines| ensures '\n' !in lines[i] {
      DigestLineSingle(ts[i], categories, accounts);
    }
    SplitJoin(lines, '\n');
  }

  /** The request text with the digest after its last heading. */
  const PromptHead: string :=
    "\n    You are a financial advisor. Analyze the following recent expense transactions for a user.\n"
    + "    Identify spending patterns, alert on high non-essential spending, and give 3 brief, actionable tips to save money.\n"
    + "    Keep the tone encouraging but professional. Return the response as a markdown formatted string.\n"
    + "    The currency is Sri Lankan Rupees (Rs.).\n\n    Transactions:\n    "
  const PromptTail: string := "\n  "

  function Prompt(summary: string): (r: string)
    ensures |r| == |PromptHead| + |summary| + |PromptTail|
    ensures r[|PromptHead|..|PromptHead| + |summary|] == summary
    ensures r[..|PromptHead|] == PromptHead
    ensures r[|PromptHead| + |summary|..] == PromptTail
  {
    PromptHead + summary + PromptTail
  }

  /** What the service call can come back with: a text, possibly absent, or an error. */
  datatype Reply = Answered(text: Option<string>) | Threw

  /** The message shown for a reply: an error and an empty or absent text each map to their
      fixed message, any other text is shown as it is. */
  function ReplyMessage(reply: Reply): (r: string)
    ensures reply.Threw? ==> r == Failure
    ensures reply.Answered? && (reply.text.None? || reply.text.value == "") ==> r == NoInsights
    ensures reply.Answered? && reply.text.Some? && reply.text.value != "" ==> r == reply.text.value
  {
    match reply
    case Threw => Failure
    case Answered(text) =>
      if text.None? || text.value == "" then NoInsights else text.value
  }

  /** generateSpendingInsights: without a key, the unavailability message; otherwise the prompt
      built from the digest is sent and the reply mapped to its message. */
  function GenerateSpendingInsights(ts: seq<Transaction>, categories: seq<Category>, accounts: seq<Account>,
                                    hasApiKey: bool, service: string -> Reply): (r: string)
    ensures !hasApiKey ==> r == Unavailable
    ensures hasApiKey ==> r == ReplyMessage(service(Prompt(Digest(ts, categories, accounts))))
  {
    if !hasApiKey then Unavailable
    else ReplyMessage(service(Prompt(Digest(ts, categories, accounts))))
  }

  /** A message is always one of the fixed messages or the service's own non-empty text. */
  lemma ReplyOutcomes(reply: Reply)
    ensures var r := ReplyMessage(reply);
      r == NoInsights || r == Failure || (r != "" && reply == Answered(Some(r)))
  {
  }

  /** Transactions after the first 50 never reach the service. */
  lemma OnlyRecentReachService(ts: seq<Transaction>, categories: seq<Category>, accounts: seq<Account>)
    requires |ts| > RecentLimit
    ensures Digest(ts, categories, accounts) == Digest(ts[..RecentLimit], categories, accounts)
  {
    var a, b := Lines(ts, categories, accounts), Lines(ts[..RecentLimit], categories, accounts);
    assert forall i :: 0 <= i < |a| ==> a[i] == b[i];
    assert a == b;
  }
}
