/** The outcome resolver: a validated instruction is either scheduled (its
    execution date is after today in string order) or executed at once,
    moving the amount from the debit account to the credit account. */
module Resolver {
  import opened Domain
  import opened JsText
  import opened Dates
  import opened Validator

  datatype Outcome = Outcome(status: Status, code: Code, reason: string, views: seq<AccountView>)

  /** Today's date is a parameter, in the same `YYYY-MM-DD` form the clock
      would give. */
  function Resolve(amount: nat, executeBy: Option<string>, parties: Parties, accounts: seq<Account>, today: string): Outcome
  {
    var debit, credit := parties.debit, parties.credit;
    if executeBy.Some? && CompareDateStrings(executeBy.value, today) == 1 then
      Outcome(Pending, AP02, "Transaction scheduled for future execution",
        Collect(accounts, Involved(debit.id, credit.id), 2))
    else
      Outcome(Successful, AP00, "Transaction executed successfully",
        Collect(accounts, Settled(debit.id, credit.id, debit.balance - amount, credit.balance + amount), 2))
  }

  /** Pending exactly when there is a date strictly after today; otherwise
      (no date, today, or earlier) the transfer is executed. A pending result
      moves no balance. */
  lemma PendingIffFuture(amount: nat, executeBy: Option<string>, parties: Parties, accounts: seq<Account>, today: string)
    ensures var o := Resolve(amount, executeBy, parties, accounts, today);
      && (o.status == Pending <==> executeBy.Some? && Less(today, executeBy.value))
      && (o.status == Pending ==> o.code == AP02 && forall v | v in o.views :: v.balance == v.balanceBefore)
      && (o.status == Pending ==>
            o.views == Take(Selected(accounts, Involved(parties.debit.id, parties.credit.id)), 2))
      && (o.status != Pending ==> o.status == Successful && o.code == AP00)
      && |o.views| <= 2
  {
    var d, c := parties.debit.id, parties.credit.id;
    CollectTakesSelected(accounts, Involved(d, c), 2);
    UnchangedListing(accounts, Involved(d, c), 2);
    CollectBound(accounts, Involved(d, c), 2);
    CollectBound(accounts, Settled(d, c, parties.debit.balance - amount, parties.credit.balance + amount), 2);
  }

  /** No two accounts of the request share an id. */
  predicate UniqueIds(accounts: seq<Account>)
  {
    forall s, t | 0 <= s < t < |accounts| :: accounts[s].id != accounts[t].id
  }

  /** Accounts the listing does not select are skipped without using up the cap. */
  lemma {:induction false} SkipUnselected(accounts: seq<Account>, listing: Listing, limit: nat, k: nat)
    requires k <= |accounts|
    requires forall t | 0 <= t < k :: Pick(listing, accounts[t]).None?
    ensures Collect(accounts, listing, limit) == Collect(accounts[k..], listing, limit)
  {
    if k > 0 && limit > 0 {
      assert Pick(listing, accounts[0]).None?;
      SkipUnselected(accounts[1..], listing, limit, k - 1);
      assert accounts[1..][k - 1..] == accounts[k..];
    } else if k > 0 {
      assert Collect(accounts[k..], listing, limit) == [];
    }
  }

  /** The report of one side after execution. */
  function SettledView(a: Account, after: int): AccountView
  {
    AccountView(a.id, after, a.balance, Upper(a.currency))
  }

  /** When only the accounts at p < q are selected, a listing capped at two
      reports exactly those two, in request order. */
  lemma CollectTwo(accounts: seq<Account>, listing: Listing, p: nat, q: nat)
    requires p < q < |accounts|
    requires Pick(listing, accounts[p]).Some? && Pick(listing, accounts[q]).Some?
    requires forall t | 0 <= t < |accounts| && t != p && t != q :: Pick(listing, accounts[t]).None?
    ensures Collect(accounts, listing, 2) ==
      [Pick(listing, accounts[p]).value, Pick(listing, accounts[q]).value]
  {
    SkipUnselected(accounts, listing, 2, p);
    var rest := accounts[p + 1..];
    forall t | 0 <= t < q - p - 1 ensures Pick(listing, rest[t]).None? {
      assert rest[t] == accounts[p + 1 + t];
    }
    SkipUnselected(rest, listing, 1, q - p - 1);
    assert rest[q - p - 1..] == accounts[q..];
    assert accounts[p..][1..] == rest;
    assert accounts[q..][1..] == accounts[q + 1..];
  }

  /** The listing of a scheduled transfer: exactly the two accounts as they
      were supplied, in request order. */
  predicate PendingListing(views: seq<AccountView>, parties: Parties, accounts: seq<Account>)
  {
    var debitView, creditView := Unchanged(parties.debit), Unchanged(parties.credit);
    && (views == [debitView, creditView] || views == [creditView, debitView])
    && (views == [debitView, creditView] <==>
          exists i, j | 0 <= i < j < |accounts| :: accounts[i] == parties.debit && accounts[j] == parties.credit)
  }

  /** With unique ids, a scheduled transfer reports the two accounts as
      `PendingListing` describes. */
  lemma PendingTransfer(amount: nat, parties: Parties, accounts: seq<Account>, today: string, executeBy: Option<string>)
    requires UniqueIds(accounts)
    requires parties.debit in accounts && parties.credit in accounts
    requires parties.debit.id != parties.credit.id
    requires Resolve(amount, executeBy, parties, accounts, today).status == Pending
    ensures PendingListing(Resolve(amount, executeBy, parties, accounts, today).views, parties, accounts)
  {
    var debit, credit := parties.debit, parties.credit;
    var listing := Involved(debit.id, credit.id);
    var views := Resolve(amount, executeBy, parties, accounts, today).views;
    assert views == Collect(accounts, listing, 2);
    var i :| 0 <= i < |accounts| && accounts[i] == debit;
    var j :| 0 <= j < |accounts| && accounts[j] == credit;
    assert Pick(listing, accounts[i]) == Some(Unchanged(debit));
    assert Pick(listing, accounts[j]) == Some(Unchanged(credit));
    assert Unchanged(debit) != Unchanged(credit);
    if i < j {
      CollectTwo(accounts, listing, i, j);
    } else {
      CollectTwo(accounts, listing, j, i);
      assert !exists i', j' | 0 <= i' < j' < |accounts| :: accounts[i'] == debit && accounts[j'] == credit;
    }
  }

  /** The listing of an executed transfer: exactly the two accounts, in
      request order, the debit one lowered by the amount and the credit one
      raised by it, each against its balance before; the total over both is
      unchanged. */
  predicate ExecutedListing(views: seq<AccountView>, amount: nat, parties: Parties, accounts: seq<Account>)
  {
    var debitView := SettledView(parties.debit, parties.debit.balance - amount);
    var creditView := SettledView(parties.credit, parties.credit.balance + amount);
    && (views == [debitView, creditView] || views == [creditView, debitView])
    && (views == [debitView, creditView] <==>
          exists i, j | 0 <= i < j < |accounts| :: accounts[i] == parties.debit && accounts[j] == parties.credit)
    && views[0].balance + views[1].balance == views[0].balanceBefore + views[1].balanceBefore
  }

  /** With unique ids, executing reports the two accounts as
      `ExecutedListing` describes. */
  lemma ExecutedTransfer(amount: nat, parties: Parties, accounts: seq<Account>, today: string, executeBy: Option<string>)
    requires UniqueIds(accounts)
    requires parties.debit in accounts && parties.credit in accounts
    requires parties.debit.id != parties.credit.id
    requires Resolve(amount, executeBy, parties, accounts, today).status == Successful
    ensures ExecutedListing(Resolve(amount, executeBy, parties, accounts, today).views, amount, parties, accounts)
  {
    var debit, credit := parties.debit, parties.credit;
    var listing := Settled(debit.id, credit.id, debit.balance - amount, credit.balance + amount);
    var views := Resolve(amount, executeBy, parties, accounts, today).views;
    assert views == Collect(accounts, listing, 2);
    var debitView := SettledView(debit, debit.balance - amount);
    var creditView := SettledView(credit, credit.balance + amount);
    var i :| 0 <= i < |accounts| && accounts[i] == debit;
    var j :| 0 <= j < |accounts| && accounts[j] == credit;
    assert Pick(listing, accounts[i]) == Some(debitView);
    assert Pick(listing, accounts[j]) == Some(creditView);
    assert debitView != creditView;
    if i < j {
      CollectTwo(accounts, listing, i, j);
    } else {
      CollectTwo(accounts, listing, j, i);
      assert !exists i', j' | 0 <= i' < j' < |accounts| :: accounts[i'] == debit && accounts[j'] == credit;
    }
  }
}
