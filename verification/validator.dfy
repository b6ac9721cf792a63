/** The semantic validator and the account listings every response carries.
    Accounts are looked up by exact identifier, first match wins; checks run
    in a fixed order and the first failure decides the response. */
module Validator {
  import opened Domain
  import opened Fields

  /** `findAccount`: the first account in request order with exactly this id. */
  function FindAccount(accounts: seq<Account>, id: string): Option<Account>
  {
    if |accounts| == 0 then None
    else if accounts[0].id == id then Some(accounts[0])
    else FindAccount(accounts[1..], id)
  }

  /** The lookup fails exactly when no account has the id, and otherwise
      returns the account at the first index that has it. */
  lemma {:induction false} FindAccountIsFirstMatch(accounts: seq<Account>, id: string)
    ensures FindAccount(accounts, id).None? <==> forall i | 0 <= i < |accounts| :: accounts[i].id != id
    ensures FindAccount(accounts, id).Some? ==> exists i | 0 <= i < |accounts| ::
      && accounts[i] == FindAccount(accounts, id).value && accounts[i].id == id
      && forall j | 0 <= j < i :: accounts[j].id != id
  {
    if |accounts| > 0 && accounts[0].id != id {
      var rest := accounts[1..];
      FindAccountIsFirstMatch(rest, id);
      var r := FindAccount(rest, id);
      if r.Some? {
        var i :| 0 <= i < |rest| && rest[i] == r.value && rest[i].id == id
          && forall j | 0 <= j < i :: rest[j].id != id;
        assert accounts[i + 1] == r.value;
        forall j | 0 <= j < i + 1 ensures accounts[j].id != id {
          if j > 0 { assert accounts[j] == rest[j - 1]; }
        }
      } else {
        forall i | 0 <= i < |accounts| ensures accounts[i].id != id {
          if i > 0 { assert accounts[i] == rest[i - 1]; }
        }
      }
    } else if |accounts| > 0 {
      assert accounts[0] == FindAccount(accounts, id).value;
    }
  }

  /** Which accounts a listing reports, and how. */
  datatype Listing =
    | Supplied                          // every account with a non-empty id, unchanged
    | Involved(debitId: string, creditId: string)  // accounts named by either side, unchanged
    | Settled(debitId: string, creditId: string, debitAfter: int, creditAfter: int)
      // accounts named by either side, with the new balance of that side

  /** The report of one account under a listing, if the listing selects it. */
  function Pick(listing: Listing, a: Account): Option<AccountView>
  {
    match listing
    case Supplied => if a.id != "" then Some(Unchanged(a)) else None
    case Involved(d, c) => if a.id == d || a.id == c then Some(Unchanged(a)) else None
    case Settled(d, c, debitAfter, creditAfter) =>
      if a.id == d then Some(AccountView(a.id, debitAfter, a.balance, Upper(a.currency)))
      else if a.id == c then Some(AccountView(a.id, creditAfter, a.balance, Upper(a.currency)))
      else None
  }

  /** The listing loop: walk the request in order, report each selected
      account, and stop once `limit` reports are made. */
  function Collect(accounts: seq<Account>, listing: Listing, limit: nat): seq<AccountView>
  {
    if |accounts| == 0 || limit == 0 then []
    else match Pick(listing, accounts[0])
      case None => Collect(accounts[1..], listing, limit)
      case Some(v) => [v] + Collect(accounts[1..], listing, limit - 1)
  }

  /** The reference listing without a cap: every selected account, in request order. */
  function Selected(accounts: seq<Account>, listing: Listing): seq<AccountView>
  {
    if |accounts| == 0 then []
    else match Pick(listing, accounts[0])
      case None => Selected(accounts[1..], listing)
      case Some(v) => [v] + Selected(accounts[1..], listing)
  }

  function Take<T>(s: seq<T>, n: nat): seq<T>
  {
    if |s| <= n then s else s[..n]
  }

  /** The loop reports exactly the first `limit` selected accounts, in
      request order. */
  lemma {:induction false} CollectTakesSelected(accounts: seq<Account>, listing: Listing, limit: nat)
    ensures Collect(accounts, listing, limit) == Take(Selected(accounts, listing), limit)
  {
    if |accounts| > 0 && limit > 0 {
      CollectTakesSelected(accounts[1..], listing, limit);
      CollectTakesSelected(accounts[1..], listing, limit - 1);
    }
  }

  /** A listing of unchanged accounts never reports a moved balance. */
  lemma {:induction false} UnchangedListing(accounts: seq<Account>, listing: Listing, limit: nat)
    requires !listing.Settled?
    ensures forall v | v in Collect(accounts, listing, limit) :: v.balance == v.balanceBefore
  {
    if |accounts| > 0 && limit > 0 {
      UnchangedListing(accounts[1..], listing, limit);
      UnchangedListing(accounts[1..], listing, limit - 1);
    }
  }

  lemma {:induction false} CollectBound(accounts: seq<Account>, listing: Listing, limit: nat)
    ensures |Collect(accounts, listing, limit)| <= limit
  {
    if |accounts| > 0 && limit > 0 {
      CollectBound(accounts[1..], listing, limit);
      CollectBound(accounts[1..], listing, limit - 1);
    }
  }

  /** Why validation stopped, with the accounts the response reports. */
  datatype Failure = Failure(code: Code, reason: string, views: seq<AccountView>)

  /** The two resolved accounts of an instruction that passed every check. */
  datatype Parties = Parties(debit: Account, credit: Account)

  const UnsupportedCurrencyReason := "Unsupported currency. Only NGN, USD, GBP, and GHS are supported"

  /** The checks in source order: AC03, CU01, CU02, AC02, AC01. */
  function Validate(debitId: string, creditId: string, amount: nat, accounts: seq<Account>): Result<Parties, Failure>
  {
    var debitAcc, creditAcc := FindAccount(accounts, debitId), FindAccount(accounts, creditId);
    if debitAcc.None? || creditAcc.None? then
      Err(Failure(AC03, "Account not found", Collect(accounts, Involved(debitId, creditId), 2)))
    else
      var debit, credit := debitAcc.value, creditAcc.value;
      var debitCurrency, creditCurrency := Upper(debit.currency), Upper(credit.currency);
      var both := [Unchanged(debit), Unchanged(credit)];
      if debitCurrency != creditCurrency then Err(Failure(CU01, "Account currency mismatch", both))
      else if !IsSupportedCurrency(debitCurrency) then Err(Failure(CU02, UnsupportedCurrencyReason, both))
      else if debitId == creditId then
        Err(Failure(AC02, "Debit and credit accounts cannot be the same", [Unchanged(debit)]))
      else if debit.balance < amount then Err(Failure(AC01, "Insufficient funds in debit account", both))
      else Ok(Parties(debit, credit))
  }

  /** An account with this id is in the request. */
  predicate Listed(accounts: seq<Account>, id: string)
  {
    exists i | 0 <= i < |accounts| :: accounts[i].id == id
  }

  /** The first listed account with this id. */
  function First(accounts: seq<Account>, id: string): Account
    requires Listed(accounts, id)
  {
    FindAccountIsFirstMatch(accounts, id);
    FindAccount(accounts, id).value
  }

  /** The checks run in a fixed order and the first failure wins: each code
      is returned exactly when its check fails and all earlier ones pass, and
      validation succeeds exactly when all five pass. */
  lemma ValidationOrder(debitId: string, creditId: string, amount: nat, accounts: seq<Account>)
    ensures var r := Validate(debitId, creditId, amount, accounts);
      var found := Listed(accounts, debitId) && Listed(accounts, creditId);
      var sameCurrency := found && Upper(First(accounts, debitId).currency) == Upper(First(accounts, creditId).currency);
      var supported := sameCurrency && IsSupportedCurrency(Upper(First(accounts, debitId).currency));
      var distinct := supported && debitId != creditId;
      var funded := distinct && First(accounts, debitId).balance >= amount;
      && (r.Err? && r.error.code == AC03 <==> !found)
      && (r.Err? && r.error.code == CU01 <==> found && !sameCurrency)
      && (r.Err? && r.error.code == CU02 <==> sameCurrency && !supported)
      && (r.Err? && r.error.code == AC02 <==> supported && !distinct)
      && (r.Err? && r.error.code == AC01 <==> distinct && !funded)
      && (r.Ok? <==> funded)
      && (r.Ok? ==> r.value == Parties(First(accounts, debitId), First(accounts, creditId)))
  {
    FindAccountIsFirstMatch(accounts, debitId);
    FindAccountIsFirstMatch(accounts, creditId);
  }

  /** A failed validation reports at most two accounts, none of them with a
      moved balance; when both accounts were found they are reported as they
      were supplied (only the debit one for AC02). */
  lemma FailureViews(debitId: string, creditId: string, amount: nat, accounts: seq<Account>)
    requires Validate(debitId, creditId, amount, accounts).Err?
    ensures var f := Validate(debitId, creditId, amount, accounts).error;
      && |f.views| <= 2
      && (forall v | v in f.views :: v.balance == v.balanceBefore)
      && (f.code == AC03 ==> f.views == Take(Selected(accounts, Involved(debitId, creditId)), 2))
      && (f.code == AC02 ==> Listed(accounts, debitId) && f.views == [Unchanged(First(accounts, debitId))])
      && (f.code in {CU01, CU02, AC01} ==>
            Listed(accounts, debitId) && Listed(accounts, creditId) &&
            f.views == [Unchanged(First(accounts, debitId)), Unchanged(First(accounts, creditId))])
  {
    FindAccountIsFirstMatch(accounts, debitId);
    FindAccountIsFirstMatch(accounts, creditId);
    if FindAccount(accounts, debitId).None? || FindAccount(accounts, creditId).None? {
      var listing := Involved(debitId, creditId);
      CollectBound(accounts, listing, 2);
      UnchangedListing(accounts, listing, 2);
      CollectTakesSelected(accounts, listing, 2);
    }
  }
}
