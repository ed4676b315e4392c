/** The new-expense form: its field state, the defaults it opens with, the guard that decides
    whether a submit creates a transaction, and the transaction it builds. The transaction id
    and the number read from the amount text are parameters. */
module TransactionForm {
  import opened Text
  import opened Dates
  import opened Types
  import opened Ledger

  /** The icon an account chip shows. */
  datatype AccountIcon = CashIcon | BankIcon | CardIcon

  /** getAccountIcon: cash for CASH, bank for the two named banks, card for anything else. */
  function AccountIconFor(t: AccountType): (r: AccountIcon)
    ensures r == CashIcon <==> t == Cash
    ensures r == BankIcon <==> t == BankBoc || t == BankPeoples
    ensures r == CardIcon <==> t == BankOther
  {
    match t
    case Cash => CashIcon
    case BankBoc => BankIcon
    case BankPeoples => BankIcon
    case _ => CardIcon
  }

  /** The account selected when the form opens: the first account's id, or "" when there is none. */
  function DefaultAccountId(accounts: seq<Account>): (r: string)
    ensures accounts == [] ==> r == ""
    ensures accounts != [] ==> r == accounts[0].id
  {
    if accounts == [] then "" else accounts[0].id
  }

  /** The category selected when the form opens: the first category's id, or "" when there is none. */
  function DefaultCategoryId(categories: seq<Category>): (r: string)
    ensures categories == [] ==> r == ""
    ensures categories != [] ==> r == categories[0].id
  {
    if categories == [] then "" else categories[0].id
  }

  /** The form's fields at the moment of a submit. */
  datatype Fields = Fields(amount: string, description: string, account: string, category: string, date: Day)

  /** handleSubmit's decision: nothing when the amount text, the selected account or the selected
      category is empty; otherwise an EXPENSE at midnight of the chosen day that copies the
      selections and the description. Any non-empty amount text passes, "0" included. */
  function Submission(f: Fields, id: string, amountValue: int): (r: Option<Transaction>)
    ensures r.None? <==> f.amount == "" || f.account == "" || f.category == ""
    ensures r.Some? ==>
      r.value.id == id && r.value.amount == amountValue && r.value.description == f.description
      && r.value.accountId == f.account && r.value.categoryId == f.category
      && r.value.kind == Expense && r.value.date == Timestamp(f.date, 0)
  {
    if f.amount == "" || f.account == "" || f.category == "" then None
    else Some(Transaction(id, amountValue, Timestamp(f.date, 0), f.description, f.account, f.category, Expense))
  }

  /** With no accounts the default selection is empty, so no submit goes through unless an account is picked. */
  lemma NoAccountsRejectsDefault(f: Fields, id: string, amountValue: int)
    requires f.account == DefaultAccountId([])
    ensures Submission(f, id, amountValue).None?
  {
  }

  /** The guard only tests for empty text: an amount of "0" with both selections made is recorded. */
  lemma ZeroAmountPasses(f: Fields, id: string)
    requires f.amount == "0" && f.account != "" && f.category != ""
    ensures Submission(f, id, 0) == Some(Transaction(id, 0, Timestamp(f.date, 0), f.description, f.account, f.category, Expense))
  {
  }

  /** A submit that goes through lowers the selected account's balance by the amount and leaves
      every other account as it was. */
  lemma SubmissionDebitsSelectedAccount(l: LedgerState, f: Fields, id: string, amountValue: int)
    requires Submission(f, id, amountValue).Some?
    ensures var after := AfterAdd(l, Submission(f, id, amountValue).value);
      |after.accounts| == |l.accounts|
      && after.transactions == [Submission(f, id, amountValue).value] + l.transactions
      && forall i :: 0 <= i < |l.accounts| ==>
        after.accounts[i].balance == l.accounts[i].balance - (if l.accounts[i].id == f.account then amountValue else 0)
  {
    var t := Submission(f, id, amountValue).value;
    AddTransactionEffect(l, t);
  }

  /** The form's own state, one field per input. */
  class ExpenseForm {
    var amount: string
    var description: string
    var selectedAccount: string
    var selectedCategory: string
    var date: Day

    function Current(): Fields
      reads this
    {
      Fields(amount, description, selectedAccount, selectedCategory, date)
    }

    /** A fresh form: empty amount and description, the default selections, today's date. */
    constructor (accounts: seq<Account>, categories: seq<Category>, today: Day)
      ensures Current() == Fields("", "", DefaultAccountId(accounts), DefaultCategoryId(categories), today)
    {
      amount := "";
      description := "";
      selectedAccount := DefaultAccountId(accounts);
      selectedCategory := DefaultCategoryId(categories);
      date := today;
    }

    /** handleSubmit: when the guard passes, the transaction is added to the store and then the
        form is closed; otherwise neither happens. `closed` reports the onClose call. */
    method HandleSubmit(store: BudgetStore, id: string, amountValue: int) returns (closed: bool)
      modifies store
      ensures closed <==> Submission(Current(), id, amountValue).Some?
      ensures closed ==> store.Snapshot() == AfterAdd(old(store.Snapshot()), Submission(Current(), id, amountValue).value)
      ensures !closed ==> store.Snapshot() == old(store.Snapshot())
    {
      var submission := Submission(Current(), id, amountValue);
      if submission.None? {
        return false;
      }
      store.AddTransaction(submission.value);
      closed := true;
    }
  }
}
