/** The sources screen: the add-account form, the balance editor, and how each account is
    labelled and pictured. The new account's id and the number read from the balance text are
    parameters. */
module AccountsForm {
  import opened Text
  import opened Types
  import opened Ledger
  import opened TransactionForm

  /** The label under an account's name: the literal with its first "BANK_" removed, its first
      '_' turned into a space, lower-cased. */
  function TypeLabel(t: AccountType): string
  {
    ToLower(ReplaceFirst(ReplaceFirst(AccountTypeName(t), "BANK_", ""), "_", " "))
  }

  /** A literal with no 'B' and no '_' passes both replacements unchanged. */
  lemma StripPlain(name: string)
    requires 'B' !in name && '_' !in name
    ensures ReplaceFirst(ReplaceFirst(name, "BANK_", ""), "_", " ") == name
  {
    ReplaceAbsent(name, "BANK_", "");
    ReplaceAbsent(name, "_", " ");
  }

  /** A literal "BANK_" + rest, with no '_' in rest, comes out as rest. */
  lemma StripBank(rest: string)
    requires '_' !in rest
    ensures ReplaceFirst(ReplaceFirst("BANK_" + rest, "BANK_", ""), "_", " ") == rest
  {
    var name := "BANK_" + rest;
    ReplacePrefix(name, "BANK_", "");
    assert name[5..] == rest;
    ReplaceAbsent(rest, "_", " ");
  }

  /** The literal with its first "BANK_" removed and its first '_' made a space, before lower-casing. */
  lemma StrippedLiteral(t: AccountType, rest: string)
    requires (AccountTypeName(t) == rest && 'B' !in rest) || AccountTypeName(t) == "BANK_" + rest
    requires '_' !in rest
    ensures TypeLabel(t) == ToLower(rest)
  {
    if AccountTypeName(t) == rest && 'B' !in rest {
      StripPlain(rest);
    } else {
      StripBank(rest);
    }
  }

  /** The four words, lower-cased. */
  lemma LowerWords()
    ensures ToLower("CASH") == "cash"
    ensures ToLower("BOC") == "boc"
    ensures ToLower("PEOPLES") == "peoples"
    ensures ToLower("OTHER") == "other"
  {
    var lower0 := ToLower("CASH");
    assert lower0[0] == 'c' && lower0[1] == 'a' && lower0[2] == 's' && lower0[3] == 'h';
    var lower1 := ToLower("BOC");
    assert lower1[0] == 'b' && lower1[1] == 'o' && lower1[2] == 'c';
    var lower2 := ToLower("PEOPLES");
    assert lower2[0] == 'p' && lower2[1] == 'e' && lower2[2] == 'o' && lower2[3] == 'p' && lower2[4] == 'l' && lower2[5] == 'e' && lower2[6] == 's';
    var lower3 := ToLower("OTHER");
    assert lower3[0] == 'o' && lower3[1] == 't' && lower3[2] == 'h' && lower3[3] == 'e' && lower3[4] == 'r';
  }

  /** The four labels the screen shows: "cash", "boc", "peoples" and "other". */
  lemma TypeLabels(t: AccountType)
    ensures t == Cash ==> TypeLabel(t) == "cash"
    ensures t == BankBoc ==> TypeLabel(t) == "boc"
    ensures t == BankPeoples ==> TypeLabel(t) == "peoples"
    ensures t == BankOther ==> TypeLabel(t) == "other"
  {
    LowerWords();
    match t
    case Cash => StrippedLiteral(t, "CASH");
    case BankBoc => StrippedLiteral(t, "BOC");
    case BankPeoples => StrippedLiteral(t, "PEOPLES");
    case BankOther => StrippedLiteral(t, "OTHER");
  }

  /** The icon on an account's card: cash for CASH, bank for BANK_BOC or BANK_PEOPLES, card otherwise. */
  function SourceIcon(t: AccountType): AccountIcon
  {
    if t == Cash then CashIcon
    else if t == BankBoc || t == BankPeoples then BankIcon
    else CardIcon
  }

  /** The sources screen and the new-expense form picture every account type alike. */
  lemma SourceIconMatchesForm(t: AccountType)
    ensures SourceIcon(t) == AccountIconFor(t)
  {
  }

  /** handleAdd's decision: nothing for an empty name; otherwise an account of the chosen type
      with a zero balance. */
  function NewAccount(name: string, kind: AccountType, id: string): (r: Option<Account>)
    ensures r.None? <==> name == ""
    ensures r.Some? ==> r.value == Account(id, name, kind, 0)
  {
    if name == "" then None else Some(Account(id, name, kind, 0))
  }

  /** The text the balance editor opens with reads back as the account's balance, and saving
      it unchanged leaves every account as it was. */
  lemma OpenThenSaveUnchanged(l: LedgerState, a: Account)
    requires DistinctAccountIds(l.accounts)
    requires a in l.accounts
    ensures ParseInteger(IntToString(a.balance)) == Some(a.balance)
    ensures AfterUpdateBalance(l, a.id, a.balance) == l
  {
    IntToStringRoundTrip(a.balance);
    var k :| 0 <= k < |l.accounts| && l.accounts[k] == a;
    var after := Overwrite(l.accounts, a.id, a.balance);
    forall i | 0 <= i < |l.accounts|
      ensures after[i] == l.accounts[i]
    {
      if l.accounts[i].id == a.id {
        assert l.accounts[i] == l.accounts[k];
      }
    }
    assert after == l.accounts;
  }

  /** The screen's own state: the add form and the balance editor. */
  class AccountsPanel {
    var showAdd: bool
    var newAccName: string
    var newAccType: AccountType
    var editingAccount: Option<Account>
    var editBalanceValue: string

    /** The form is hidden and empty, the type defaults to BANK_OTHER, and nothing is being edited. */
    constructor ()
      ensures !showAdd && newAccName == "" && newAccType == BankOther
      ensures editingAccount.None? && editBalanceValue == ""
    {
      showAdd := false;
      newAccName := "";
      newAccType := BankOther;
      editingAccount := None;
      editBalanceValue := "";
    }

    /** The plus button shows or hides the add form. */
    method ToggleAdd()
      modifies this
      ensures showAdd == !old(showAdd)
      ensures newAccName == old(newAccName) && newAccType == old(newAccType)
      ensures editingAccount == old(editingAccount) && editBalanceValue == old(editBalanceValue)
    {
      showAdd := !showAdd;
    }

    /** handleAdd: with a name, the account is appended to the store, the form closes and the
        name is cleared; with an empty name nothing changes. */
    method HandleAdd(store: BudgetStore, id: string)
      modifies this, store
      ensures old(NewAccount(newAccName, newAccType, id)).None? ==>
        store.Snapshot() == old(store.Snapshot()) && showAdd == old(showAdd) && newAccName == old(newAccName)
      ensures old(NewAccount(newAccName, newAccType, id)).Some? ==>
        store.Snapshot() == AfterAddAccount(old(store.Snapshot()), old(NewAccount(newAccName, newAccType, id)).value)
        && !showAdd && newAccName == ""
      ensures newAccType == old(newAccType)
      ensures editingAccount == old(editingAccount) && editBalanceValue == old(editBalanceValue)
    {
      var account := NewAccount(newAccName, newAccType, id);
      if account.None? {
        return;
      }
      store.AddAccount(account.value);
      showAdd := false;
      newAccName := "";
    }

    /** openEditBalance: the editor holds the account and its current balance as text. */
    method OpenEditBalance(account: Account)
      modifies this
      ensures editingAccount == Some(account)
      ensures editBalanceValue == IntToString(account.balance)
      ensures ParseInteger(editBalanceValue) == Some(account.balance)
      ensures showAdd == old(showAdd) && newAccName == old(newAccName) && newAccType == old(newAccType)
    {
      editingAccount := Some(account);
      editBalanceValue := IntToString(account.balance);
      IntToStringRoundTrip(account.balance);
    }

    /** handleUpdateBalance: only with an account open and a non-empty value is the balance
        overwritten, after which the editor is cleared; otherwise nothing changes. */
    method HandleUpdateBalance(store: BudgetStore, newBalance: int)
      modifies this, store
      ensures old(editingAccount.Some? && editBalanceValue != "") ==>
        store.Snapshot() == AfterUpdateBalance(old(store.Snapshot()), old(editingAccount).value.id, newBalance)
        && editingAccount.None? && editBalanceValue == ""
      ensures !old(editingAccount.Some? && editBalanceValue != "") ==>
        store.Snapshot() == old(store.Snapshot())
        && editingAccount == old(editingAccount) && editBalanceValue == old(editBalanceValue)
      ensures showAdd == old(showAdd) && newAccName == old(newAccName) && newAccType == old(newAccType)
    {
      if editingAccount.Some? && editBalanceValue != "" {
        store.UpdateAccountBalance(editingAccount.value.id, newBalance);
        editingAccount := None;
        editBalanceValue := "";
      }
    }
  }
}
