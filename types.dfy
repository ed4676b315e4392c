/** The budget's records: accounts ("sources"), categories and transactions, with the
    string-literal unions of the app's types file as enumerations, and the lookups by id
    that every view performs with `find`. */
module Types {
  import opened Text
  import opened Dates

  datatype AccountType = Cash | BankBoc | BankPeoples | BankOther

  datatype CategoryType = Essential | NonEssential

  datatype TransactionType = Expense | Income

  datatype CalendarViewMode = Day | Week | Month | Year

  /** A money container; `balance` is in whole rupees. */
  datatype Account = Account(id: string, name: string, kind: AccountType, balance: int)

  /** A spending category; `icon` is optional. */
  datatype Category = Category(id: string, name: string, kind: CategoryType, icon: Option<string>)

  /** A recorded movement of money against one account and one category. */
  datatype Transaction = Transaction(
    id: string,
    amount: int,
    date: Moment,
    description: string,
    accountId: string,
    categoryId: string,
    kind: TransactionType)

  /** Declared alongside the records; no view builds one. */
  datatype DailySummary = DailySummary(date: string, total: int, essential: int, nonEssential: int)

  /** The literal each account type is written as. */
  function AccountTypeName(t: AccountType): string
  {
    match t
    case Cash => "CASH"
    case BankBoc => "BANK_BOC"
    case BankPeoples => "BANK_PEOPLES"
    case BankOther => "BANK_OTHER"
  }

  /** Reading an account-type literal; anything outside the union is refused. */
  function ParseAccountType(s: string): (r: Option<AccountType>)
  {
    if s == "CASH" then Some(Cash)
    else if s == "BANK_BOC" then Some(BankBoc)
    else if s == "BANK_PEOPLES" then Some(BankPeoples)
    else if s == "BANK_OTHER" then Some(BankOther)
    else None
  }

  /** An account type is exactly one of the four literals. */
  lemma AccountTypeLiterals(s: string, t: AccountType)
    ensures ParseAccountType(s) == Some(t) <==> s == AccountTypeName(t)
  {
  }

  /** The literal each category type is written as. */
  function CategoryTypeName(t: CategoryType): string
  {
    match t
    case Essential => "ESSENTIAL"
    case NonEssential => "NON_ESSENTIAL"
  }

  function ParseCategoryType(s: string): (r: Option<CategoryType>)
  {
    if s == "ESSENTIAL" then Some(Essential)
    else if s == "NON_ESSENTIAL" then Some(NonEssential)
    else None
  }

  /** A category type is exactly one of the two literals. */
  lemma CategoryTypeLiterals(s: string, t: CategoryType)
    ensures ParseCategoryType(s) == Some(t) <==> s == CategoryTypeName(t)
  {
  }

  /** `accounts.find(a => a.id === id)`: the first account with that id. */
  function FindAccount(accounts: seq<Account>, id: string): (r: Option<Account>)
    ensures r.None? <==> forall i :: 0 <= i < |accounts| ==> accounts[i].id != id
    ensures r.Some? ==> (exists k :: 0 <= k < |accounts| && accounts[k] == r.value && r.value.id == id
                                   && forall j :: 0 <= j < k ==> accounts[j].id != id)
  {
    if accounts == [] then None
    else if accounts[0].id == id then Some(accounts[0])
    else
      var r := FindAccount(accounts[1..], id);
      assert forall j :: 1 <= j < |accounts| ==> accounts[j] == accounts[1..][j - 1];
      r
  }

  /** `categories.find(c => c.id === id)`: the first category with that id. */
  function FindCategory(categories: seq<Category>, id: string): Option<Category>
  {
    if categories == [] then None
    else if categories[0].id == id then Some(categories[0])
    else FindCategory(categories[1..], id)
  }

  /** `find` gives nothing exactly when no category has the id, otherwise the first one that has it. */
  lemma {:induction false} FindCategorySpec(categories: seq<Category>, id: string)
    ensures var r := FindCategory(categories, id);
      (r.None? <==> forall i :: 0 <= i < |categories| ==> categories[i].id != id)
      && (r.Some? ==> (exists k :: 0 <= k < |categories| && categories[k] == r.value && r.value.id == id
                                  && forall j :: 0 <= j < k ==> categories[j].id != id))
  {
    if categories != [] && categories[0].id != id {
      FindCategorySpec(categories[1..], id);
      assert forall j :: 1 <= j < |categories| ==> categories[j] == categories[1..][j - 1];
      var r := FindCategory(categories[1..], id);
      if r.Some? {
        var k :| 0 <= k < |categories[1..]| && categories[1..][k] == r.value && r.value.id == id
          && forall j :: 0 <= j < k ==> categories[1..][j].id != id;
        assert categories[k + 1] == r.value;
      }
    }
  }

  /** `transactions.find(t => t.id === id)`: the first transaction with that id. */
  function FindTransaction(transactions: seq<Transaction>, id: string): (r: Option<Transaction>)
    ensures r.None? <==> forall i :: 0 <= i < |transactions| ==> transactions[i].id != id
    ensures r.Some? ==> (exists k :: 0 <= k < |transactions| && transactions[k] == r.value && r.value.id == id
                                   && forall j :: 0 <= j < k ==> transactions[j].id != id)
  {
    if transactions == [] then None
    else if transactions[0].id == id then Some(transactions[0])
    else
      var r := FindTransaction(transactions[1..], id);
      assert forall j :: 1 <= j < |transactions| ==> transactions[j] == transactions[1..][j - 1];
      r
  }

  /** Appending an account cannot change an earlier match; it is found only when nothing before carries the id. */
  lemma {:induction false} FindAccountAppend(accounts: seq<Account>, a: Account, id: string)
    ensures FindAccount(accounts + [a], id) ==
      if FindAccount(accounts, id).Some? then FindAccount(accounts, id)
      else if a.id == id then Some(a) else None
  {
    if accounts == [] {
      assert accounts + [a] == [a];
    } else {
      assert (accounts + [a])[0] == accounts[0];
      assert (accounts + [a])[1..] == accounts[1..] + [a];
      if accounts[0].id != id {
        FindAccountAppend(accounts[1..], a, id);
      }
    }
  }

  /** `accounts.find(a => a.id === id)?.name || fallback`: a missing account and an empty name both give the fallback. */
  function AccountNameOr(accounts: seq<Account>, id: string, fallback: string): (r: string)
    ensures r == fallback <==> (FindAccount(accounts, id).None? || FindAccount(accounts, id).value.name == "" || FindAccount(accounts, id).value.name == fallback)
    ensures r != fallback ==> exists i :: 0 <= i < |accounts| && accounts[i].id == id && accounts[i].name == r
    ensures r != fallback ==> r == FindAccount(accounts, id).value.name
  {
    match FindAccount(accounts, id)
    case None => fallback
    case Some(a) => if a.name == "" then fallback else a.name
  }

  /** The category an expense is filed under is ESSENTIAL; a missing category is not. */
  predicate IsEssential(categories: seq<Category>, categoryId: string)
  {
    match FindCategory(categories, categoryId)
    case Some(c) => c.kind == Essential
    case None => false
  }

  predicate DistinctAccountIds(accounts: seq<Account>)
  {
    forall i, j :: 0 <= i < j < |accounts| ==> accounts[i].id != accounts[j].id
  }

  predicate DistinctCategoryIds(categories: seq<Category>)
  {
    forall i, j :: 0 <= i < j < |categories| ==> categories[i].id != categories[j].id
  }
}
