/** The dashboard's figures: total spent, total balance, the essential/non-essential
    split and spending grouped by account name. The two charts' data are built by
    loops over the transactions, as in the Dashboard component; the functions below specify them. */
module Dashboard {
  import opened Text
  import opened Dates
  import opened Types
  import opened Ledger

  /** Sum of the amounts of the EXPENSE transactions; income is ignored. */
  function TotalSpent(ts: seq<Transaction>): int
  {
    if ts == [] then 0
    else TotalSpent(ts[..|ts| - 1]) + (if ts[|ts| - 1].kind == Expense then ts[|ts| - 1].amount else 0)
  }

  /** Sum of all balances. */
  function TotalBalance(accounts: seq<Account>): int
  {
    if accounts == [] then 0 else TotalBalance(accounts[..|accounts| - 1]) + accounts[|accounts| - 1].balance
  }

  /** Expenses whose category resolves to ESSENTIAL. */
  function EssentialSpent(ts: seq<Transaction>, categories: seq<Category>): int
  {
    if ts == [] then 0
    else
      var t := ts[|ts| - 1];
      EssentialSpent(ts[..|ts| - 1], categories)
        + (if t.kind == Expense && IsEssential(categories, t.categoryId) then t.amount else 0)
  }

  /** Every other expense, including those whose category is missing. */
  function NonEssentialSpent(ts: seq<Transaction>, categories: seq<Category>): int
  {
    if ts == [] then 0
    else
      var t := ts[|ts| - 1];
      NonEssentialSpent(ts[..|ts| - 1], categories)
        + (if t.kind == Expense && !IsEssential(categories, t.categoryId) then t.amount else 0)
  }

  /** Totals are additive over concatenation, so they do not depend on where a transaction is inserted. */
  lemma {:induction false} TotalSpentAppend(a: seq<Transaction>, b: seq<Transaction>)
    ensures TotalSpent(a + b) == TotalSpent(a) + TotalSpent(b)
    decreases |b|
  {
    if b != [] {
      assert (a + b)[..|a + b| - 1] == a + b[..|b| - 1];
      var last := b[|b| - 1];
      assert (a + b)[|a + b| - 1] == last;
      TotalSpentAppend(a, b[..|b| - 1]);
      assert TotalSpent(a + b) == TotalSpent(a + b[..|b| - 1]) + (if last.kind == Expense then last.amount else 0);
    } else {
      assert a + b == a;
    }
  }

  /** With no expenses nothing is spent, whatever the income. */
  lemma {:induction false} TotalSpentWithoutExpenses(ts: seq<Transaction>)
    requires forall i :: 0 <= i < |ts| ==> ts[i].kind == Income
    ensures TotalSpent(ts) == 0
  {
    if ts != [] {
      TotalSpentWithoutExpenses(ts[..|ts| - 1]);
    }
  }

  /** Non-negative amounts give a non-negative total. */
  lemma {:induction false} TotalSpentNonNegative(ts: seq<Transaction>)
    requires forall i :: 0 <= i < |ts| ==> ts[i].amount >= 0
    ensures TotalSpent(ts) >= 0
  {
    if ts != [] {
      TotalSpentNonNegative(ts[..|ts| - 1]);
    }
  }

  /** The split is a partition of the total spent. */
  lemma {:induction false} SplitPartitionsTotal(ts: seq<Transaction>, categories: seq<Category>)
    ensures EssentialSpent(ts, categories) + NonEssentialSpent(ts, categories) == TotalSpent(ts)
  {
    if ts != [] {
      SplitPartitionsTotal(ts[..|ts| - 1], categories);
    }
  }

  /** A chart entry. */
  datatype NamedValue = NamedValue(name: string, value: int)

  /** essentialVsNonData: one pass over the transactions, adding each expense to one side. */
  method EssentialVsNonData(ts: seq<Transaction>, categories: seq<Category>) returns (data: seq<NamedValue>)
    ensures |data| == 2 && data[0].name == "Essential" && data[1].name == "Non-Essential"
    ensures data[0].value == EssentialSpent(ts, categories)
    ensures data[1].value == NonEssentialSpent(ts, categories)
    ensures data[0].value + data[1].value == TotalSpent(ts)
  {
    var essential, nonEssential := 0, 0;
    var i := 0;
    while i < |ts|
      invariant 0 <= i <= |ts|
      invariant essential == EssentialSpent(ts[..i], categories)
      invariant nonEssential == NonEssentialSpent(ts[..i], categories)
    {
      var t := ts[i];
      if t.kind == Expense {
        if IsEssential(categories, t.categoryId) {
          essential := essential + t.amount;
        } else {
          nonEssential := nonEssential + t.amount;
        }
      }
      assert ts[..i + 1][..i] == ts[..i];
      i := i + 1;
    }
    assert ts[..|ts|] == ts;
    SplitPartitionsTotal(ts, categories);
    data := [NamedValue("Essential", essential), NamedValue("Non-Essential", nonEssential)];
  }

  // ---- spending grouped by account name -----------------------------------------

  /** The name an expense is grouped under: its account's name, or "Unknown". */
  function SpendName(accounts: seq<Account>, t: Transaction): string
  {
    AccountNameOr(accounts, t.accountId, "Unknown")
  }

  /** The names of a record's entries, in insertion order. */
  function Keys(data: seq<NamedValue>): (r: seq<string>)
    ensures |r| == |data|
  {
    if data == [] then [] else [data[0].name] + Keys(data[1..])
  }

  /** `data[name] || 0`. */
  function ValueOf(data: seq<NamedValue>, name: string): int
  {
    if data == [] then 0 else if data[0].name == name then data[0].value else ValueOf(data[1..], name)
  }

  function SumValues(data: seq<NamedValue>): int
  {
    if data == [] then 0 else data[0].value + SumValues(data[1..])
  }

  /** `data[name] = (data[name] || 0) + amount` on a record kept in insertion order. */
  function AddTo(data: seq<NamedValue>, name: string, amount: int): seq<NamedValue>
  {
    if data == [] then [NamedValue(name, amount)]
    else if data[0].name == name then [data[0].(value := data[0].value + amount)] + data[1..]
    else [data[0]] + AddTo(data[1..], name, amount)
  }

  /** A new name goes to the end; a known name keeps its place. */
  lemma {:induction false} AddToKeys(data: seq<NamedValue>, name: string, amount: int)
    ensures Keys(AddTo(data, name, amount)) == if name in Keys(data) then Keys(data) else Keys(data) + [name]
  {
    if data != [] && data[0].name != name {
      AddToKeys(data[1..], name, amount);
    }
  }

  /** Only the entry under `name` grows, and by `amount`. */
  lemma {:induction false} AddToValue(data: seq<NamedValue>, name: string, amount: int, key: string)
    ensures ValueOf(AddTo(data, name, amount), key) == ValueOf(data, key) + (if key == name then amount else 0)
  {
    if data != [] && data[0].name != name {
      AddToValue(data[1..], name, amount, key);
    }
  }

  lemma {:induction false} AddToSum(data: seq<NamedValue>, name: string, amount: int)
    ensures SumValues(AddTo(data, name, amount)) == SumValues(data) + amount
  {
    if data != [] && data[0].name != name {
      AddToSum(data[1..], name, amount);
    }
  }

  /** The record accountSpendingData builds, one expense at a time. */
  function GroupByName(ts: seq<Transaction>, accounts: seq<Account>): seq<NamedValue>
  {
    if ts == [] then []
    else
      var t := ts[|ts| - 1];
      var prev := GroupByName(ts[..|ts| - 1], accounts);
      if t.kind == Expense then AddTo(prev, SpendName(accounts, t), t.amount) else prev
  }

  /** The resolved names of the expenses, in sequence order, repeats included. */
  function ExpenseNames(ts: seq<Transaction>, accounts: seq<Account>): seq<string>
  {
    if ts == [] then []
    else
      var t := ts[|ts| - 1];
      ExpenseNames(ts[..|ts| - 1], accounts) + (if t.kind == Expense then [SpendName(accounts, t)] else [])
  }

  /** The distinct elements of `s` in order of first occurrence. */
  function Dedup(s: seq<string>): (r: seq<string>)
    ensures forall x :: x in r <==> x in s
    ensures forall i, j :: 0 <= i < j < |r| ==> r[i] != r[j]
  {
    if s == [] then []
    else
      var p := Dedup(s[..|s| - 1]);
      assert forall x :: x in s <==> x in s[..|s| - 1] || x == s[|s| - 1];
      if s[|s| - 1] in p then p else p + [s[|s| - 1]]
  }

  /** The summed amount of the expenses grouped under `name`. */
  function SpentUnder(ts: seq<Transaction>, accounts: seq<Account>, name: string): int
  {
    if ts == [] then 0
    else
      var t := ts[|ts| - 1];
      SpentUnder(ts[..|ts| - 1], accounts, name)
        + (if t.kind == Expense && SpendName(accounts, t) == name then t.amount else 0)
  }

  /** The per-account record lists each resolved name once, in order of its first expense;
      each entry holds the summed spending under that name (so accounts that share a name
      merge and unresolved ones gather under "Unknown"), and the entries add up to the
      total spent. */
  lemma {:induction false} GroupByNameSpec(ts: seq<Transaction>, accounts: seq<Account>)
    ensures Keys(GroupByName(ts, accounts)) == Dedup(ExpenseNames(ts, accounts))
    ensures forall k :: ValueOf(GroupByName(ts, accounts), k) == SpentUnder(ts, accounts, k)
    ensures SumValues(GroupByName(ts, accounts)) == TotalSpent(ts)
  {
    if ts != [] {
      var prefix := ts[..|ts| - 1];
      var t := ts[|ts| - 1];
      GroupByNameSpec(prefix, accounts);
      var prev := GroupByName(prefix, accounts);
      if t.kind == Expense {
        var name := SpendName(accounts, t);
        var names := ExpenseNames(ts, accounts);
        assert names[..|names| - 1] == ExpenseNames(prefix, accounts);
        assert names[|names| - 1] == name;
        assert GroupByName(ts, accounts) == AddTo(prev, name, t.amount);
        assert Dedup(names) == if name in Dedup(ExpenseNames(prefix, accounts)) then Dedup(ExpenseNames(prefix, accounts)) else Dedup(ExpenseNames(prefix, accounts)) + [name];
        AddToKeys(prev, name, t.amount);
        AddToSum(prev, name, t.amount);
        forall k ensures ValueOf(GroupByName(ts, accounts), k) == SpentUnder(ts, accounts, k) {
          AddToValue(prev, name, t.amount, k);
        }
      } else {
        assert ExpenseNames(ts, accounts) == ExpenseNames(prefix, accounts) + [];
        assert ExpenseNames(prefix, accounts) + [] == ExpenseNames(prefix, accounts);
      }
    }
  }

  /** accountSpendingData: one pass over the transactions into an insertion-ordered record. */
  method AccountSpendingData(ts: seq<Transaction>, accounts: seq<Account>) returns (data: seq<NamedValue>)
    ensures Keys(data) == Dedup(ExpenseNames(ts, accounts))
    ensures forall k :: ValueOf(data, k) == SpentUnder(ts, accounts, k)
    ensures SumValues(data) == TotalSpent(ts)
  {
    data := [];
    var i := 0;
    while i < |ts|
      invariant 0 <= i <= |ts|
      invariant data == GroupByName(ts[..i], accounts)
    {
      var t := ts[i];
      if t.kind == Expense {
        var name := AccountNameOr(accounts, t.accountId, "Unknown");
        data := AddTo(data, name, t.amount);
      }
      assert ts[..i + 1][..i] == ts[..i];
      i := i + 1;
    }
    assert ts[..|ts|] == ts;
    GroupByNameSpec(ts, accounts);
  }

  // ---- the figures under the store's mutations -------------------------------

  /** How many accounts carry the id. */
  function CountId(accounts: seq<Account>, id: string): nat
  {
    if accounts == [] then 0
    else CountId(accounts[..|accounts| - 1], id) + (if accounts[|accounts| - 1].id == id then 1 else 0)
  }

  /** Adjusting by `delta` moves the total balance by `delta` per matching account. */
  lemma {:induction false} AdjustTotalBalance(accounts: seq<Account>, id: string, delta: int)
    ensures TotalBalance(Adjust(accounts, id, delta)) == TotalBalance(accounts) + delta * CountId(accounts, id)
  {
    if accounts != [] {
      var prefix := accounts[..|accounts| - 1];
      var r := Adjust(accounts, id, delta);
      assert r[..|r| - 1] == Adjust(prefix, id, delta);
      AdjustTotalBalance(prefix, id, delta);
      var last := accounts[|accounts| - 1];
      var matches := last.id == id;
      assert r[|r| - 1].balance == last.balance + (if matches then delta else 0);
      assert CountId(accounts, id) == CountId(prefix, id) + (if matches then 1 else 0);
      ScaleStep(delta, CountId(prefix, id), matches);
    }
  }

  lemma ScaleStep(delta: int, c: int, b: bool)
    ensures delta * (c + (if b then 1 else 0)) == delta * c + (if b then delta else 0)
  {
  }

  lemma {:induction false} CountIdDistinct(accounts: seq<Account>, id: string)
    requires DistinctAccountIds(accounts)
    ensures CountId(accounts, id) <= 1
    ensures CountId(accounts, id) == 0 <==> NoAccountWithId(accounts, id)
  {
    if accounts != [] {
      var prefix := accounts[..|accounts| - 1];
      CountIdDistinct(prefix, id);
    }
  }

  /** Recording a transaction against one existing account (ids distinct) moves the total
      balance by its effect, and the total spent by its amount when it is an expense. */
  lemma AddMovesTotals(l: LedgerState, t: Transaction)
    requires DistinctAccountIds(l.accounts)
    requires !NoAccountWithId(l.accounts, t.accountId)
    ensures TotalBalance(AfterAdd(l, t).accounts) == TotalBalance(l.accounts) + BalanceEffect(t)
    ensures TotalSpent(AfterAdd(l, t).transactions) == TotalSpent(l.transactions) + (if t.kind == Expense then t.amount else 0)
  {
    AdjustTotalBalance(l.accounts, t.accountId, BalanceEffect(t));
    CountIdDistinct(l.accounts, t.accountId);
    TotalSpentAppend([t], l.transactions);
    assert TotalSpent([t]) == TotalSpent([t][..0]) + (if t.kind == Expense then t.amount else 0);
  }

  /** The seed accounts after a 500 expense from the wallet: 4500 left in it, 44500 in all. */
  lemma SeedExpenseScenario(t: Transaction)
    requires t.amount == 500 && t.kind == Expense && t.accountId == "acc_1"
    ensures var l := AfterAdd(LedgerState([], InitialAccounts), t);
      l.accounts[0].balance == 4500 && l.accounts[1] == InitialAccounts[1] && l.accounts[2] == InitialAccounts[2]
      && TotalBalance(l.accounts) == 44500 && TotalSpent(l.transactions) == 500
  {
    var l := AfterAdd(LedgerState([], InitialAccounts), t);
    assert l.transactions == [t];
    assert TotalSpent([t]) == TotalSpent([t][..0]) + 500;
    var a := l.accounts;
    assert TotalBalance(a) == TotalBalance(a[..2]) + a[2].balance;
    assert a[..2][..1] == a[..1];
    assert TotalBalance(a[..2]) == TotalBalance(a[..1]) + a[1].balance;
    assert a[..1][..0] == [];
    assert TotalBalance(a[..1]) == a[0].balance;
  }
}
