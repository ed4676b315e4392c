/** The budget store: the ordered transactions (newest first) and accounts, the fixed
    category list, and the four mutations that keep balances in step with the
    transactions. The pure step functions on LedgerState say what each mutation
    does; the BudgetStore class performs them on its own fields. */
module Ledger {
  import opened Text
  import opened Dates
  import opened Types

  /** The accounts used when none were saved. */
  const InitialAccounts: seq<Account> := [
    Account("acc_1", "Wallet Cash", Cash, 5000),
    Account("acc_2", "BOC Account", BankBoc, 25000),
    Account("acc_3", "People's Bank", BankPeoples, 15000)
  ]

  /** The built-in categories; two names ("Transport", "Other") occur in both buckets. */
  const InitialCategories: seq<Category> := [
    Category("cat_e_1", "Food/Dining", Essential, None),
    Category("cat_e_2", "Transport", Essential, None),
    Category("cat_e_3", "University", Essential, None),
    Category("cat_e_4", "Other", Essential, None),
    Category("cat_n_1", "Passion", NonEssential, None),
    Category("cat_n_2", "Foods", NonEssential, None),
    Category("cat_n_3", "Transport", NonEssential, None),
    Category("cat_n_4", "Other", NonEssential, None)
  ]

  /** The seed data has no repeated ids. */
  lemma SeedIdsDistinct()
    ensures DistinctAccountIds(InitialAccounts)
    ensures DistinctCategoryIds(InitialCategories)
    ensures |InitialAccounts| == 3 && |InitialCategories| == 8
  {
  }

  /** What the store holds at one moment. */
  datatype LedgerState = LedgerState(transactions: seq<Transaction>, accounts: seq<Account>)

  /** The signed change a transaction makes to its account's balance. */
  function BalanceEffect(t: Transaction): (d: int)
    ensures t.kind == Expense ==> d == -t.amount
    ensures t.kind == Income ==> d == t.amount
  {
    match t.kind
    case Expense => -t.amount
    case Income => t.amount
  }

  /** Every account with the given id has `delta` added to its balance; the rest, and the order, stay. */
  function Adjust(accounts: seq<Account>, id: string, delta: int): (r: seq<Account>)
    ensures |r| == |accounts|
    ensures forall i :: 0 <= i < |r| ==>
      r[i] == if accounts[i].id == id then accounts[i].(balance := accounts[i].balance + delta) else accounts[i]
  {
    seq(|accounts|, i requires 0 <= i < |accounts| =>
      if accounts[i].id == id then accounts[i].(balance := accounts[i].balance + delta) else accounts[i])
  }

  /** Every account with the given id gets the new balance; the rest, and the order, stay. */
  function Overwrite(accounts: seq<Account>, id: string, newBalance: int): (r: seq<Account>)
    ensures |r| == |accounts|
    ensures forall i :: 0 <= i < |r| ==>
      r[i] == if accounts[i].id == id then accounts[i].(balance := newBalance) else accounts[i]
  {
    seq(|accounts|, i requires 0 <= i < |accounts| =>
      if accounts[i].id == id then accounts[i].(balance := newBalance) else accounts[i])
  }

  /** `transactions.filter(t => t.id !== id)`. */
  function WithoutId(transactions: seq<Transaction>, id: string): (r: seq<Transaction>)
    ensures |r| <= |transactions|
  {
    if transactions == [] then []
    else (if transactions[0].id == id then [] else [transactions[0]]) + WithoutId(transactions[1..], id)
  }

  /** addTransaction: prepend, then debit (EXPENSE) or credit (INCOME) the matching accounts. */
  function AfterAdd(l: LedgerState, t: Transaction): LedgerState
  {
    LedgerState([t] + l.transactions, Adjust(l.accounts, t.accountId, BalanceEffect(t)))
  }

  /** deleteTransaction: undo the first match's effect with its stored amount and type, then drop every match. */
  function AfterDelete(l: LedgerState, id: string): LedgerState
  {
    var remaining := WithoutId(l.transactions, id);
    match FindTransaction(l.transactions, id)
    case None => LedgerState(remaining, l.accounts)
    case Some(t) => LedgerState(remaining, Adjust(l.accounts, t.accountId, -BalanceEffect(t)))
  }

  /** addAccount: append. */
  function AfterAddAccount(l: LedgerState, a: Account): LedgerState
  {
    l.(accounts := l.accounts + [a])
  }

  /** updateAccountBalance: a manual overwrite of the matching accounts' balance. */
  function AfterUpdateBalance(l: LedgerState, id: string, newBalance: int): LedgerState
  {
    l.(accounts := Overwrite(l.accounts, id, newBalance))
  }

  predicate IdAbsent(transactions: seq<Transaction>, id: string)
  {
    forall i :: 0 <= i < |transactions| ==> transactions[i].id != id
  }

  predicate NoAccountWithId(accounts: seq<Account>, id: string)
  {
    forall i :: 0 <= i < |accounts| ==> accounts[i].id != id
  }

  // ---- what each mutation does --------------------------------------------

  /** The new transaction comes first, followed by the old sequence; each account with the
      transaction's account id moves by the amount (down for EXPENSE, up for INCOME) and
      every other account, and the order, stay as they were. */
  lemma AddTransactionEffect(l: LedgerState, t: Transaction)
    ensures AfterAdd(l, t).transactions[0] == t && AfterAdd(l, t).transactions[1..] == l.transactions
    ensures |AfterAdd(l, t).accounts| == |l.accounts|
    ensures forall i :: 0 <= i < |l.accounts| ==>
      var before, after := l.accounts[i], AfterAdd(l, t).accounts[i];
      after.id == before.id && after.name == before.name && after.kind == before.kind &&
      after.balance == before.balance
        + (if before.id != t.accountId then 0 else if t.kind == Expense then -t.amount else t.amount)
  {
  }

  lemma {:induction false} AdjustAbsent(accounts: seq<Account>, id: string, delta: int)
    requires NoAccountWithId(accounts, id)
    ensures Adjust(accounts, id, delta) == accounts
  {
    var r := Adjust(accounts, id, delta);
    assert forall i :: 0 <= i < |r| ==> r[i] == accounts[i];
  }

  /** With an unknown account id the transaction is still stored and no account changes. */
  lemma AddWithUnknownAccount(l: LedgerState, t: Transaction)
    requires NoAccountWithId(l.accounts, t.accountId)
    ensures AfterAdd(l, t) == LedgerState([t] + l.transactions, l.accounts)
  {
    AdjustAbsent(l.accounts, t.accountId, BalanceEffect(t));
  }

  lemma {:induction false} WithoutAbsentId(transactions: seq<Transaction>, id: string)
    requires IdAbsent(transactions, id)
    ensures WithoutId(transactions, id) == transactions
  {
    if transactions != [] {
      WithoutAbsentId(transactions[1..], id);
    }
  }

  /** Deleting an id no transaction carries changes nothing. */
  lemma DeleteAbsentIsNoOp(l: LedgerState, id: string)
    requires IdAbsent(l.transactions, id)
    ensures AfterDelete(l, id) == l
  {
    WithoutAbsentId(l.transactions, id);
  }

  /** Deleting the first transaction with an id undoes its effect on the matching accounts
      and leaves no transaction with that id. */
  lemma DeleteEffect(l: LedgerState, id: string, t: Transaction)
    requires FindTransaction(l.transactions, id) == Some(t)
    ensures IdAbsent(AfterDelete(l, id).transactions, id)
    ensures forall u :: u in AfterDelete(l, id).transactions <==> u in l.transactions && u.id != id
    ensures forall u :: multiset(AfterDelete(l, id).transactions)[u]
                        == (if u.id == id then 0 else multiset(l.transactions)[u])
    ensures |AfterDelete(l, id).accounts| == |l.accounts|
    ensures forall i :: 0 <= i < |l.accounts| ==>
      AfterDelete(l, id).accounts[i].balance == l.accounts[i].balance
        - (if l.accounts[i].id == t.accountId then BalanceEffect(t) else 0)
  {
    var r := AfterDelete(l, id).transactions;
    WithoutIdCounts(l.transactions, id);
    WithoutIdMembers(l.transactions, id);
    forall i | 0 <= i < |r| ensures r[i].id != id {
      assert r[i] in r;
    }
  }

  lemma AdjustInverse(accounts: seq<Account>, id: string, delta: int)
    ensures Adjust(Adjust(accounts, id, delta), id, -delta) == accounts
  {
    var r := Adjust(Adjust(accounts, id, delta), id, -delta);
    assert forall i :: 0 <= i < |r| ==> r[i] == accounts[i];
  }

  /** Adding a transaction with a fresh id and then deleting it restores the whole ledger. */
  lemma AddThenDeleteRestores(l: LedgerState, t: Transaction)
    requires IdAbsent(l.transactions, t.id)
    ensures AfterDelete(AfterAdd(l, t), t.id) == l
  {
    var added := AfterAdd(l, t);
    FindPrepended(l.transactions, t);
    WithoutPrepended(l.transactions, t);
    AdjustInverse(l.accounts, t.accountId, BalanceEffect(t));
  }

  lemma FindPrepended(ts: seq<Transaction>, t: Transaction)
    ensures FindTransaction([t] + ts, t.id) == Some(t)
  {
  }

  lemma WithoutPrepended(ts: seq<Transaction>, t: Transaction)
    requires IdAbsent(ts, t.id)
    ensures WithoutId([t] + ts, t.id) == ts
  {
    assert ([t] + ts)[1..] == ts;
    WithoutAbsentId(ts, t.id);
  }

  /** The filter keeps the order: filtering a concatenation filters each part in place. */
  lemma {:induction false} WithoutIdAppend(a: seq<Transaction>, b: seq<Transaction>, id: string)
    ensures WithoutId(a + b, id) == WithoutId(a, id) + WithoutId(b, id)
  {
    if a == [] {
      assert a + b == b;
    } else {
      var head := if a[0].id == id then [] else [a[0]];
      assert (a + b)[0] == a[0];
      assert (a + b)[1..] == a[1..] + b;
      assert WithoutId(a + b, id) == head + WithoutId(a[1..] + b, id);
      WithoutIdAppend(a[1..], b, id);
      assert WithoutId(a, id) == head + WithoutId(a[1..], id);
      assert head + (WithoutId(a[1..], id) + WithoutId(b, id))
          == (head + WithoutId(a[1..], id)) + WithoutId(b, id);
    }
  }

  /** Exactly the transactions with another id survive the filter. */
  lemma WithoutIdMembers(transactions: seq<Transaction>, id: string)
    ensures forall t :: t in WithoutId(transactions, id) <==> t in transactions && t.id != id
  {
    WithoutIdCounts(transactions, id);
    forall t ensures t in WithoutId(transactions, id) <==> t in transactions && t.id != id {
      assert t in WithoutId(transactions, id) <==> t in multiset(WithoutId(transactions, id));
      assert t in transactions <==> t in multiset(transactions);
    }
  }

  /** The filter drops every copy of a matching transaction and keeps every copy of the others. */
  lemma {:induction false} WithoutIdCounts(transactions: seq<Transaction>, id: string)
    ensures forall t :: multiset(WithoutId(transactions, id))[t]
                        == (if t.id == id then 0 else multiset(transactions)[t])
  {
    if transactions != [] {
      WithoutIdCounts(transactions[1..], id);
      assert transactions == [transactions[0]] + transactions[1..];
    }
  }

  /** A manual overwrite between the add and the delete is not undone: the reversal lands on
      the overwritten balance, and every other account is restored. */
  lemma OverwriteBetweenAddAndDelete(l: LedgerState, t: Transaction, newBalance: int)
    requires IdAbsent(l.transactions, t.id)
    ensures var final := AfterDelete(AfterUpdateBalance(AfterAdd(l, t), t.accountId, newBalance), t.id);
      final.transactions == l.transactions &&
      |final.accounts| == |l.accounts| &&
      forall i :: 0 <= i < |l.accounts| ==>
        final.accounts[i] == if l.accounts[i].id == t.accountId
          then l.accounts[i].(balance := newBalance - BalanceEffect(t))
          else l.accounts[i]
  {
    var added := AfterAdd(l, t);
    var overwritten := AfterUpdateBalance(added, t.accountId, newBalance);
    assert overwritten.transactions == [t] + l.transactions;
    FindPrepended(l.transactions, t);
    WithoutPrepended(l.transactions, t);
  }

  /** After addAccount with a fresh id, looking that id up gives the new account's name (or the
      fallback when the name is empty), and every other id resolves as before. */
  lemma AddAccountNames(l: LedgerState, a: Account, fallback: string)
    requires NoAccountWithId(l.accounts, a.id)
    ensures AccountNameOr(AfterAddAccount(l, a).accounts, a.id, fallback) == if a.name == "" then fallback else a.name
    ensures forall id :: id != a.id ==>
      AccountNameOr(AfterAddAccount(l, a).accounts, id, fallback) == AccountNameOr(l.accounts, id, fallback)
  {
    FindAccountAppend(l.accounts, a, a.id);
    forall id | id != a.id
      ensures AccountNameOr(AfterAddAccount(l, a).accounts, id, fallback) == AccountNameOr(l.accounts, id, fallback)
    {
      FindAccountAppend(l.accounts, a, id);
    }
  }

  /** Overwriting a balance touches only the matching accounts; an unknown id changes nothing. */
  lemma UpdateBalanceEffect(l: LedgerState, id: string, newBalance: int)
    ensures AfterUpdateBalance(l, id, newBalance).transactions == l.transactions
    ensures NoAccountWithId(l.accounts, id) ==> AfterUpdateBalance(l, id, newBalance) == l
    ensures forall i :: 0 <= i < |l.accounts| ==>
      AfterUpdateBalance(l, id, newBalance).accounts[i].balance ==
        (if l.accounts[i].id == id then newBalance else l.accounts[i].balance)
  {
    if NoAccountWithId(l.accounts, id) {
      var r := Overwrite(l.accounts, id, newBalance);
      assert forall i :: 0 <= i < |r| ==> r[i] == l.accounts[i];
    }
  }

  /** The store after recording `ts` one after another. */
  function AddAll(l: LedgerState, ts: seq<Transaction>): LedgerState
  {
    if ts == [] then l else AfterAdd(AddAll(l, ts[..|ts| - 1]), ts[|ts| - 1])
  }

  /** The summed balance effect of the transactions against account `id`. */
  function NetEffect(ts: seq<Transaction>, id: string): int
  {
    if ts == [] then 0
    else NetEffect(ts[..|ts| - 1], id) + (if ts[|ts| - 1].accountId == id then BalanceEffect(ts[|ts| - 1]) else 0)
  }

  /** After a run of additions every account has moved by exactly the net effect of the
      transactions against it (so a run of expenses lowers it by their summed amounts),
      and the transactions sit newest first in front of the old ones. */
  lemma {:induction false} AddAllBalances(l: LedgerState, ts: seq<Transaction>)
    ensures |AddAll(l, ts).accounts| == |l.accounts|
    ensures |AddAll(l, ts).transactions| == |ts| + |l.transactions|
    ensures AddAll(l, ts).transactions[|ts|..] == l.transactions
    ensures forall i :: 0 <= i < |l.accounts| ==>
      AddAll(l, ts).accounts[i] == l.accounts[i].(balance := l.accounts[i].balance + NetEffect(ts, l.accounts[i].id))
  {
    if ts != [] {
      var prefix := ts[..|ts| - 1];
      AddAllBalances(l, prefix);
      var before := AddAll(l, prefix);
      assert AddAll(l, ts).transactions == [ts[|ts| - 1]] + before.transactions;
    }
  }

  /** The app's BudgetContext store: state that the views read and the mutations replace. */
  class BudgetStore {
    var transactions: seq<Transaction>
    var accounts: seq<Account>
    const categories: seq<Category>

    function Snapshot(): LedgerState
      reads this
    {
      LedgerState(transactions, accounts)
    }

    /** Starts from what was saved, or from no transactions and the seed accounts. */
    constructor (savedTransactions: Option<seq<Transaction>>, savedAccounts: Option<seq<Account>>)
      ensures transactions == if savedTransactions.Some? then savedTransactions.value else []
      ensures accounts == if savedAccounts.Some? then savedAccounts.value else InitialAccounts
      ensures categories == InitialCategories
    {
      transactions := if savedTransactions.Some? then savedTransactions.value else [];
      accounts := if savedAccounts.Some? then savedAccounts.value else InitialAccounts;
      categories := InitialCategories;
    }

    method AddTransaction(t: Transaction)
      modifies this
      ensures Snapshot() == AfterAdd(old(Snapshot()), t)
    {
      transactions := [t] + transactions;
      if t.kind == Expense {
        accounts := Adjust(accounts, t.accountId, -t.amount);
      } else if t.kind == Income {
        accounts := Adjust(accounts, t.accountId, t.amount);
      }
    }

    method DeleteTransaction(id: string)
      modifies this
      ensures Snapshot() == AfterDelete(old(Snapshot()), id)
    {
      var found := FindTransaction(transactions, id);
      if found.Some? {
        var t := found.value;
        if t.kind == Expense {
          accounts := Adjust(accounts, t.accountId, t.amount);
        } else if t.kind == Income {
          accounts := Adjust(accounts, t.accountId, -t.amount);
        }
      }
      transactions := WithoutId(transactions, id);
    }

    method AddAccount(a: Account)
      modifies this
      ensures Snapshot() == AfterAddAccount(old(Snapshot()), a)
    {
      accounts := accounts + [a];
    }

    method UpdateAccountBalance(id: string, newBalance: int)
      modifies this
      ensures Snapshot() == AfterUpdateBalance(old(Snapshot()), id, newBalance)
    {
      accounts := Overwrite(accounts, id, newBalance);
    }

    /** The first matching account's name, or "Unknown Account" when it is missing or its name is empty. */
    function GetAccountName(id: string): (r: string)
      reads this
      ensures r == "Unknown Account" || exists i :: 0 <= i < |accounts| && accounts[i].id == id && accounts[i].name == r
      ensures NoAccountWithId(accounts, id) ==> r == "Unknown Account"
      ensures r == "Unknown Account" <==>
        (FindAccount(accounts, id).None? || FindAccount(accounts, id).value.name == ""
         || FindAccount(accounts, id).value.name == "Unknown Account")
      ensures r != "Unknown Account" ==> r == FindAccount(accounts, id).value.name
    {
      AccountNameOr(accounts, id, "Unknown Account")
    }

    /** The first matching category's name, or "Unknown Category" when it is missing or its name is empty. */
    function GetCategoryName(id: string): (r: string)
      reads this
      ensures r == "Unknown Category" || exists i :: 0 <= i < |categories| && categories[i].id == id && categories[i].name == r
      ensures (forall i :: 0 <= i < |categories| ==> categories[i].id != id) ==> r == "Unknown Category"
      ensures r == "Unknown Category" <==>
        (FindCategory(categories, id).None? || FindCategory(categories, id).value.name == ""
         || FindCategory(categories, id).value.name == "Unknown Category")
      ensures r != "Unknown Category" ==> r == FindCategory(categories, id).value.name
    {
      FindCategorySpec(categories, id);
      match FindCategory(categories, id)
      case None => "Unknown Category"
      case Some(c) => if c.name == "" then "Unknown Category" else c.name
    }
  }
}
