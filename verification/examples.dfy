/** Worked requests taken from the repository's unit tests: each lemma
    states the response the pipeline gives for one concrete instruction,
    written as its words joined by single spaces. */
module Examples {
  import opened Domain
  import JsText
  import opened Decimal
  import opened Tokenizer
  import opened Fields
  import opened Dates
  import opened Grammar
  import opened Validator
  import opened Resolver
  import opened PaymentProcessor

  /** Text without lower-case ASCII letters is its own upper case. */
  lemma UpperFixed(s: string)
    requires forall i | 0 <= i < |s| :: !('a' <= s[i] <= 'z')
    ensures Upper(s) == s
  {
    assert forall i | 0 <= i < |s| :: Upper(s)[i] == s[i];
  }

  lemma UpperKeywords()
    ensures Upper("DEBIT") == "DEBIT" && Upper("CREDIT") == "CREDIT"
    ensures Upper("FROM") == "FROM" && Upper("ACCOUNT") == "ACCOUNT"
    ensures Upper("FOR") == "FOR" && Upper("TO") == "TO" && Upper("ON") == "ON"
    ensures Upper("USD") == "USD" && Upper("NGN") == "NGN" && Upper("GBP") == "GBP"
  {
    UpperFixed("DEBIT");
    UpperFixed("CREDIT");
    UpperFixed("FROM");
    UpperFixed("ACCOUNT");
    UpperFixed("FOR");
    UpperFixed("TO");
    UpperFixed("ON");
    UpperFixed("USD");
    UpperFixed("NGN");
    UpperFixed("GBP");
  }

  lemma Supported()
    ensures IsSupportedCurrency("USD") && IsSupportedCurrency("NGN") && IsSupportedCurrency("GBP")
  {
  }

  /** Tokens that spell out the DEBIT template pass every slot. */
  lemma DebitSpelled(t: seq<string>)
    requires |t| >= 11
    requires Upper(t[3]) == "FROM" && Upper(t[4]) == "ACCOUNT" && IsValidAccountId(t[5])
    requires Upper(t[6]) == "FOR" && Upper(t[7]) == "CREDIT" && Upper(t[8]) == "TO"
    requires Upper(t[9]) == "ACCOUNT" && IsValidAccountId(t[10])
    ensures FirstRejection(t, Template(Debit), 0) == None
  {
    var slots := Template(Debit);
    assert FirstRejection(t, slots, 7) == None;
    assert FirstRejection(t, slots, 6) == None;
    assert FirstRejection(t, slots, 5) == None;
    assert FirstRejection(t, slots, 4) == None;
    assert FirstRejection(t, slots, 3) == None;
    assert FirstRejection(t, slots, 2) == None;
    assert FirstRejection(t, slots, 1) == None;
  }

  /** Tokens that spell out the CREDIT template pass every slot. */
  lemma CreditSpelled(t: seq<string>)
    requires |t| >= 11
    requires Upper(t[3]) == "TO" && Upper(t[4]) == "ACCOUNT" && IsValidAccountId(t[5])
    requires Upper(t[6]) == "FOR" && Upper(t[7]) == "DEBIT" && Upper(t[8]) == "FROM"
    requires Upper(t[9]) == "ACCOUNT" && IsValidAccountId(t[10])
    ensures FirstRejection(t, Template(Credit), 0) == None
  {
    var slots := Template(Credit);
    assert FirstRejection(t, slots, 7) == None;
    assert FirstRejection(t, slots, 6) == None;
    assert FirstRejection(t, slots, 5) == None;
    assert FirstRejection(t, slots, 4) == None;
    assert FirstRejection(t, slots, 3) == None;
    assert FirstRejection(t, slots, 2) == None;
    assert FirstRejection(t, slots, 1) == None;
  }

  /** A template walk that passes, with no date clause after it, matches
      without a date. */
  lemma UndatedMatch(kind: Direction, tokens: seq<string>)
    requires FirstRejection(tokens, Template(kind), 0) == None
    requires ParseDateIfExists(tokens, 11) == Absent
    ensures MatchTemplate(kind, tokens) == Ok(Route(TokenAt(tokens, TemplateStart + IdSlot(kind, Debit)),
      TokenAt(tokens, TemplateStart + IdSlot(kind, Credit)), None))
  {
    TemplateIdSlots(kind);
  }

  /** A matched instruction written out with single spaces is settled with
      the echo of its verb, amount and currency. */
  lemma WordsSettle(words: seq<string>, accounts: seq<Account>, today: string)
    requires IsWordList(words) && Routed(words)
    ensures ParseInstruction(Join(words), accounts, today) ==
      Settle(FieldsEcho(KindOf(words), DecimalValue(words[1]), Upper(words[2])),
        DecimalValue(words[1]), RouteOf(words), accounts, today)
  {
    WrittenWords(words, accounts, today);
    RoutedUnfold(words, accounts, today);
  }

  // ---------------------------------------------------------------------
  // DEBIT 500 USD FROM ACCOUNT N90394 FOR CREDIT TO ACCOUNT N9122

  const DebitWords := ["DEBIT", "500", "USD", "FROM", "ACCOUNT", "N90394", "FOR", "CREDIT", "TO", "ACCOUNT", "N9122"]
  const DebitAccounts := [Account("N90394", 1000, "USD"), Account("N9122", 500, "USD")]

  lemma DebitWordsFields()
    ensures FieldsOk(DebitWords) && KindOf(DebitWords) == Debit
    ensures DecimalValue(DebitWords[1]) == 500 && Upper(DebitWords[2]) == "USD"
  {
    var t := DebitWords;
    assert t[0] == "DEBIT" && t[1] == "500" && t[2] == "USD";
    UpperKeywords();
    Supported();
    assert IsPositiveIntegerString("500");
    assert DecimalValue("500") == 500 by {
      assert "500"[..2] == "50";
      assert "50"[..1] == "5";
    }
  }

  lemma DebitWordsMatch()
    ensures MatchTemplate(Debit, DebitWords) == Ok(Route("N90394", "N9122", None))
  {
    var t := DebitWords;
    assert t[3] == "FROM" && t[4] == "ACCOUNT" && t[5] == "N90394" && t[6] == "FOR";
    assert t[7] == "CREDIT" && t[8] == "TO" && t[9] == "ACCOUNT" && t[10] == "N9122";
    UpperKeywords();
    assert IsValidAccountId("N90394") && IsValidAccountId("N9122");
    DebitSpelled(t);
    UndatedMatch(Debit, t);
  }

  lemma DebitWordsRouted()
    ensures FieldsOk(DebitWords) && KindOf(DebitWords) == Debit
    ensures DecimalValue(DebitWords[1]) == 500 && Upper(DebitWords[2]) == "USD"
    ensures Routed(DebitWords) && RouteOf(DebitWords) == Route("N90394", "N9122", None)
  {
    DebitWordsFields();
    DebitWordsMatch();
  }

  lemma DebitSettles(echo: Echo, today: string)
    ensures var r := Settle(echo, 500, Route("N90394", "N9122", None), DebitAccounts, today);
      && r.httpStatus == 200 && r.body.status == Successful && r.body.code == AP00
      && r.body.accounts == [AccountView("N90394", 500, 1000, "USD"), AccountView("N9122", 1000, 500, "USD")]
  {
    var accounts := DebitAccounts;
    var parties := Parties(accounts[0], accounts[1]);
    assert Validate("N90394", "N9122", 500, accounts) == Ok(parties) by {
      UpperKeywords();
      Supported();
    }
    var listing := Settled("N90394", "N9122", 500, 1000);
    assert Collect(accounts, listing, 2) ==
      [AccountView("N90394", 500, 1000, "USD"), AccountView("N9122", 1000, 500, "USD")] by {
      UpperKeywords();
      assert accounts[1..][1..] == [];
    }
    assert Resolve(500, None, parties, accounts, today).views == Collect(accounts, listing, 2);
  }

  lemma DebitWordsAreWords()
    ensures IsWordList(DebitWords)
  {
  }

  /** An immediate debit moves the amount and lists both accounts in request order. */
  lemma ImmediateDebit(today: string)
    ensures var r := ParseInstruction(Join(DebitWords), DebitAccounts, today);
      && r.httpStatus == 200 && r.body.status == Successful && r.body.code == AP00
      && r.body.accounts == [AccountView("N90394", 500, 1000, "USD"), AccountView("N9122", 1000, 500, "USD")]
  {
    DebitWordsAreWords();
    DebitWordsRouted();
    WordsSettle(DebitWords, DebitAccounts, today);
    DebitSettles(FieldsEcho(Debit, 500, "USD"), today);
  }

  // ---------------------------------------------------------------------
  // CREDIT 300 NGN TO ACCOUNT acc-002 FOR DEBIT FROM ACCOUNT acc-001 ON <date>

  /** A date token that is accepted and re-emitted unchanged. */
  predicate GoodDate(date: string)
  {
    IsCanonicalDate(date) && 1 <= MonthOf(date) <= 12 && 1 <= DayOf(date) <= 31
  }

  /** The date of the repository's pending example qualifies. */
  lemma FarFutureDate()
    ensures GoodDate("2999-12-31") && JsText.Less("2026-10-09", "2999-12-31")
  {
    var d := "2999-12-31";
    assert d[0..4] == "2999" && d[5..7] == "12" && d[8..10] == "31";
    assert IsCanonicalDate(d);
    assert DecimalValue("12") == 12 by { assert "12"[..1] == "1"; }
    assert DecimalValue("31") == 31 by { assert "31"[..1] == "3"; }
    assert "2026-10-09"[1..] == "026-10-09";
    assert d[1..] == "999-12-31";
  }

  function CreditWords(date: string): seq<string>
  {
    ["CREDIT", "300", "NGN", "TO", "ACCOUNT", "acc-002", "FOR", "DEBIT", "FROM", "ACCOUNT", "acc-001", "ON", date]
  }

  const CreditAccounts := [Account("acc-001", 1000, "NGN"), Account("acc-002", 500, "NGN")]

  lemma CreditWordsSlots(date: string)
    ensures FirstRejection(CreditWords(date), Template(Credit), 0) == None
  {
    var t := CreditWords(date);
    assert t[3] == "TO" && t[4] == "ACCOUNT" && t[5] == "acc-002" && t[6] == "FOR";
    assert t[7] == "DEBIT" && t[8] == "FROM" && t[9] == "ACCOUNT" && t[10] == "acc-001";
    UpperKeywords();
    assert IsValidAccountId("acc-001") && IsValidAccountId("acc-002");
    CreditSpelled(t);
  }

  /** A template walk that passes, followed by a date clause that parses. */
  lemma DatedMatch(kind: Direction, tokens: seq<string>, iso: string)
    requires FirstRejection(tokens, Template(kind), 0) == None
    requires ParseDateIfExists(tokens, 11) == Present(iso)
    ensures MatchTemplate(kind, tokens) == Ok(Route(TokenAt(tokens, TemplateStart + IdSlot(kind, Debit)),
      TokenAt(tokens, TemplateStart + IdSlot(kind, Credit)), Some(iso)))
  {
    TemplateIdSlots(kind);
  }

  lemma CreditWordsMatch(date: string)
    requires GoodDate(date)
    ensures MatchTemplate(Credit, CreditWords(date)) == Ok(Route("acc-001", "acc-002", Some(date)))
  {
    var t := CreditWords(date);
    assert TokenAt(t, 5) == "acc-002" && TokenAt(t, 10) == "acc-001";
    CreditWordsDate(date);
    CreditWordsSlots(date);
    DatedMatch(Credit, t, date);
  }

  lemma CreditWordsDate(date: string)
    requires GoodDate(date)
    ensures ParseDateIfExists(CreditWords(date), 11) == Present(date)
  {
    UpperKeywords();
    var t := CreditWords(date);
    assert |t| == 13 && t[11] == "ON" && t[12] == date;
    assert ParseDate(date) == Present(date) by {
      CanonicalDateRoundTrip(date);
    }
  }

  lemma CreditWordsFields(date: string)
    ensures FieldsOk(CreditWords(date)) && KindOf(CreditWords(date)) == Credit
    ensures DecimalValue(CreditWords(date)[1]) == 300 && Upper(CreditWords(date)[2]) == "NGN"
  {
    var t := CreditWords(date);
    assert t[0] == "CREDIT" && t[1] == "300" && t[2] == "NGN";
    UpperKeywords();
    Supported();
    assert IsPositiveIntegerString("300");
    assert DecimalValue("300") == 300 by {
      assert "300"[..2] == "30";
      assert "30"[..1] == "3";
    }
  }

  lemma CreditWordsRouted(date: string)
    requires GoodDate(date)
    ensures FieldsOk(CreditWords(date)) && KindOf(CreditWords(date)) == Credit
    ensures DecimalValue(CreditWords(date)[1]) == 300 && Upper(CreditWords(date)[2]) == "NGN"
    ensures Routed(CreditWords(date)) && RouteOf(CreditWords(date)) == Route("acc-001", "acc-002", Some(date))
  {
    CreditWordsFields(date);
    CreditWordsMatch(date);
  }

  /** Every character of a canonical date is a digit or '-'. */
  lemma CanonicalChars(d: string)
    requires IsCanonicalDate(d)
    ensures forall i | 0 <= i < |d| :: IsDigit(d[i]) || d[i] == '-'
  {
    forall i | 0 <= i < |d| ensures IsDigit(d[i]) || d[i] == '-' {
      if i < 4 { assert d[i] == d[0..4][i]; }
      else if 4 < i < 7 { assert d[i] == d[5..7][i - 5]; }
      else if 7 < i { assert d[i] == d[8..10][i - 8]; }
    }
  }

  lemma CreditWordsAreWords(date: string)
    requires GoodDate(date)
    ensures IsWordList(CreditWords(date))
  {
    CanonicalChars(date);
    assert ' ' !in date;
  }

  lemma CreditIsPending(echo: Echo, date: string, today: string)
    requires JsText.Less(today, date)
    ensures var r := Settle(echo, 300, Route("acc-001", "acc-002", Some(date)), CreditAccounts, today);
      && r.httpStatus == 200 && r.body.status == Pending && r.body.code == AP02
      && r.body.accounts == [AccountView("acc-001", 1000, 1000, "NGN"), AccountView("acc-002", 500, 500, "NGN")]
  {
    var accounts := CreditAccounts;
    var parties := Parties(accounts[0], accounts[1]);
    assert Validate("acc-001", "acc-002", 300, accounts) == Ok(parties) by {
      UpperKeywords();
      Supported();
    }
    var listing := Involved("acc-001", "acc-002");
    assert Collect(accounts, listing, 2) ==
      [AccountView("acc-001", 1000, 1000, "NGN"), AccountView("acc-002", 500, 500, "NGN")] by {
      UpperKeywords();
      assert accounts[1..][1..] == [];
    }
    assert Resolve(300, Some(date), parties, accounts, today).views == Collect(accounts, listing, 2);
  }

  /** A credit dated after today is scheduled: status 200, AP02, the date
      echoed, both accounts listed with their balances untouched. */
  lemma FutureCreditIsPending(date: string, today: string)
    requires GoodDate(date) && JsText.Less(today, date)
    ensures var r := ParseInstruction(Join(CreditWords(date)), CreditAccounts, today);
      && r.httpStatus == 200 && r.body.status == Pending && r.body.code == AP02
      && r.body.echo.executeBy == Some(date)
      && r.body.accounts == [AccountView("acc-001", 1000, 1000, "NGN"), AccountView("acc-002", 500, 500, "NGN")]
  {
    var t := CreditWords(date);
    CreditWordsAreWords(date);
    CreditWordsRouted(date);
    WordsSettle(t, CreditAccounts, today);
    CreditIsPending(FieldsEcho(Credit, 300, "NGN"), date, today);
  }

  // ---------------------------------------------------------------------
  // DEBIT 50 USD FROM ACCOUNT a FOR CREDIT TO ACCOUNT b, with a in USD and b in GBP

  const MismatchWords := ["DEBIT", "50", "USD", "FROM", "ACCOUNT", "a", "FOR", "CREDIT", "TO", "ACCOUNT", "b"]
  const MismatchAccounts := [Account("a", 100, "USD"), Account("b", 500, "GBP")]

  lemma MismatchWordsFields()
    ensures FieldsOk(MismatchWords) && KindOf(MismatchWords) == Debit
    ensures DecimalValue(MismatchWords[1]) == 50 && Upper(MismatchWords[2]) == "USD"
  {
    var t := MismatchWords;
    assert t[0] == "DEBIT" && t[1] == "50" && t[2] == "USD";
    UpperKeywords();
    Supported();
    assert IsPositiveIntegerString("50");
    assert DecimalValue("50") == 50 by { assert "50"[..1] == "5"; }
  }

  lemma MismatchWordsMatch()
    ensures MatchTemplate(Debit, MismatchWords) == Ok(Route("a", "b", None))
  {
    var t := MismatchWords;
    assert t[3] == "FROM" && t[4] == "ACCOUNT" && t[5] == "a" && t[6] == "FOR";
    assert t[7] == "CREDIT" && t[8] == "TO" && t[9] == "ACCOUNT" && t[10] == "b";
    UpperKeywords();
    assert IsValidAccountId("a") && IsValidAccountId("b");
    DebitSpelled(t);
    UndatedMatch(Debit, t);
  }

  lemma MismatchWordsRouted()
    ensures Routed(MismatchWords) && KindOf(MismatchWords) == Debit
    ensures DecimalValue(MismatchWords[1]) == 50 && Upper(MismatchWords[2]) == "USD"
    ensures RouteOf(MismatchWords) == Route("a", "b", None)
  {
    MismatchWordsFields();
    MismatchWordsMatch();
  }

  lemma MismatchSettles(echo: Echo, today: string)
    ensures var r := Settle(echo, 50, Route("a", "b", None), MismatchAccounts, today);
      && r.httpStatus == 400 && r.body.status == Failed && r.body.code == CU01
      && r.body.accounts == [AccountView("a", 100, 100, "USD"), AccountView("b", 500, 500, "GBP")]
  {
    var accounts := MismatchAccounts;
    UpperKeywords();
    assert Validate("a", "b", 50, accounts) ==
      Err(Failure(CU01, "Account currency mismatch", [Unchanged(accounts[0]), Unchanged(accounts[1])]));
  }

  lemma MismatchWordsAreWords()
    ensures IsWordList(MismatchWords)
  {
  }

  /** Accounts in different currencies are refused with CU01, both listed
      unchanged. */
  lemma CurrencyMismatch(today: string)
    ensures var r := ParseInstruction(Join(MismatchWords), MismatchAccounts, today);
      && r.httpStatus == 400 && r.body.status == Failed && r.body.code == CU01
      && r.body.accounts == [AccountView("a", 100, 100, "USD"), AccountView("b", 500, 500, "GBP")]
  {
    MismatchWordsAreWords();
    MismatchWordsRouted();
    WordsSettle(MismatchWords, MismatchAccounts, today);
    MismatchSettles(FieldsEcho(Debit, 50, "USD"), today);
  }

  // ---------------------------------------------------------------------
  // Amounts that are not a run of digits

  /** An instruction with a known verb whose amount is not a run of digits,
      written out with single spaces, is refused with AM01 echoing only the
      verb. */
  lemma BadAmountWords(words: seq<string>, accounts: seq<Account>, today: string)
    requires IsWordList(words) && HeaderOk(words)
    requires !(|words[1]| > 0 && IsDigits(words[1]))
    ensures ParseInstruction(Join(words), accounts, today) ==
      Reject(NoEcho.(kind := Some(Upper(words[0]))), AM01, AmountReason, [])
  {
    WrittenWords(words, accounts, today);
    AmountAcceptance(words, accounts, today);
  }

  const NegativeWords := ["DEBIT", "-100", "USD", "FROM", "ACCOUNT", "a", "FOR", "CREDIT", "TO", "ACCOUNT", "b"]

  lemma NegativeWordsAreWords()
    ensures IsWordList(NegativeWords)
  {
  }

  /** A negative amount is refused with AM01 before anything else is read. */
  lemma NegativeAmount(accounts: seq<Account>, today: string)
    ensures ParseInstruction(Join(NegativeWords), accounts, today) ==
      Reject(NoEcho.(kind := Some("DEBIT")), AM01, AmountReason, [])
  {
    var words := NegativeWords;
    assert IsWordList(words) by { NegativeWordsAreWords(); }
    assert words[0] == "DEBIT" && words[1] == "-100";
    UpperKeywords();
    assert !IsDigits("-100") by { assert "-100"[0] == '-'; }
    BadAmountWords(words, accounts, today);
  }

  const DecimalWords := ["DEBIT", "100.50", "USD", "FROM", "ACCOUNT", "a", "FOR", "CREDIT", "TO", "ACCOUNT", "b"]

  lemma DecimalWordsAreWords()
    ensures IsWordList(DecimalWords)
  {
  }

  /** A decimal amount is refused with AM01 too. */
  lemma DecimalAmount(accounts: seq<Account>, today: string)
    ensures ParseInstruction(Join(DecimalWords), accounts, today) ==
      Reject(NoEcho.(kind := Some("DEBIT")), AM01, AmountReason, [])
  {
    var words := DecimalWords;
    assert IsWordList(words) by { DecimalWordsAreWords(); }
    assert words[0] == "DEBIT" && words[1] == "100.50";
    UpperKeywords();
    assert !IsDigits("100.50") by { assert "100.50"[3] == '.'; }
    BadAmountWords(words, accounts, today);
  }

  // ---------------------------------------------------------------------
  // SEND 100 USD TO ACCOUNT b

  /** An unknown verb in a short instruction is malformed. */
  lemma UnknownVerb(accounts: seq<Account>, today: string)
    ensures ParseInstruction(Join(["SEND", "100", "USD", "TO", "ACCOUNT", "b"]), accounts, today) == Malformed
  {
    var words := ["SEND", "100", "USD", "TO", "ACCOUNT", "b"];
    assert IsWordList(words);
    WrittenWords(words, accounts, today);
  }

  // ---------------------------------------------------------------------
  // DEBIT 100 USD FROM ACCOUNT a FOR CREDIT TO ACCOUNT a, one account supplied

  const SameWords := ["DEBIT", "100", "USD", "FROM", "ACCOUNT", "a", "FOR", "CREDIT", "TO", "ACCOUNT", "a"]

  lemma SameWordsFields()
    ensures FieldsOk(SameWords) && KindOf(SameWords) == Debit
    ensures DecimalValue(SameWords[1]) == 100 && Upper(SameWords[2]) == "USD"
  {
    var t := SameWords;
    assert t[0] == "DEBIT" && t[1] == "100" && t[2] == "USD";
    UpperKeywords();
    Supported();
    assert IsPositiveIntegerString("100");
    assert DecimalValue("100") == 100 by {
      assert "100"[..2] == "10";
      assert "10"[..1] == "1";
    }
  }

  lemma SameWordsMatch()
    ensures MatchTemplate(Debit, SameWords) == Ok(Route("a", "a", None))
  {
    var t := SameWords;
    assert t[3] == "FROM" && t[4] == "ACCOUNT" && t[5] == "a" && t[6] == "FOR";
    assert t[7] == "CREDIT" && t[8] == "TO" && t[9] == "ACCOUNT" && t[10] == "a";
    UpperKeywords();
    assert IsValidAccountId("a");
    DebitSpelled(t);
    UndatedMatch(Debit, t);
  }

  lemma SameWordsRouted()
    ensures Routed(SameWords) && KindOf(SameWords) == Debit
    ensures DecimalValue(SameWords[1]) == 100 && Upper(SameWords[2]) == "USD"
    ensures RouteOf(SameWords) == Route("a", "a", None)
  {
    SameWordsFields();
    SameWordsMatch();
  }

  lemma SameSettles(echo: Echo, today: string)
    ensures var r := Settle(echo, 100, Route("a", "a", None), [Account("a", 500, "USD")], today);
      && r.httpStatus == 400 && r.body.code == AC02
      && r.body.accounts == [AccountView("a", 500, 500, "USD")]
  {
    var accounts := [Account("a", 500, "USD")];
    UpperKeywords();
    Supported();
    assert Validate("a", "a", 100, accounts) ==
      Err(Failure(AC02, "Debit and credit accounts cannot be the same", [Unchanged(accounts[0])]));
  }

  lemma SameWordsAreWords()
    ensures IsWordList(SameWords)
  {
  }

  /** Debiting and crediting the same account is refused with AC02, listing
      that account once. */
  lemma SameAccount(today: string)
    ensures var r := ParseInstruction(Join(SameWords), [Account("a", 500, "USD")], today);
      && r.httpStatus == 400 && r.body.code == AC02
      && r.body.accounts == [AccountView("a", 500, 500, "USD")]
  {
    var accounts := [Account("a", 500, "USD")];
    SameWordsAreWords();
    SameWordsRouted();
    WordsSettle(SameWords, accounts, today);
    SameSettles(FieldsEcho(Debit, 100, "USD"), today);
  }

  // ---------------------------------------------------------------------
  // DEBIT 100 NGN FROM ACCOUNT x FOR CREDIT TO ACCOUNT y ON <today>

  function TodayWords(date: string): seq<string>
  {
    ["DEBIT", "100", "NGN", "FROM", "ACCOUNT", "x", "FOR", "CREDIT", "TO", "ACCOUNT", "y", "ON", date]
  }

  const TodayAccounts := [Account("x", 500, "NGN"), Account("y", 200, "NGN")]

  lemma TodayWordsFields(date: string)
    ensures FieldsOk(TodayWords(date)) && KindOf(TodayWords(date)) == Debit
    ensures DecimalValue(TodayWords(date)[1]) == 100 && Upper(TodayWords(date)[2]) == "NGN"
  {
    var t := TodayWords(date);
    assert t[0] == "DEBIT" && t[1] == "100" && t[2] == "NGN";
    UpperKeywords();
    Supported();
    assert IsPositiveIntegerString("100");
    assert DecimalValue("100") == 100 by {
      assert "100"[..2] == "10";
      assert "10"[..1] == "1";
    }
  }

  lemma TodayWordsSlots(date: string)
    ensures FirstRejection(TodayWords(date), Template(Debit), 0) == None
  {
    var t := TodayWords(date);
    assert t[3] == "FROM" && t[4] == "ACCOUNT" && t[5] == "x" && t[6] == "FOR";
    assert t[7] == "CREDIT" && t[8] == "TO" && t[9] == "ACCOUNT" && t[10] == "y";
    UpperKeywords();
    assert IsValidAccountId("x") && IsValidAccountId("y");
    DebitSpelled(t);
  }

  lemma TodayWordsDate(date: string)
    requires GoodDate(date)
    ensures ParseDateIfExists(TodayWords(date), 11) == Present(date)
  {
    UpperKeywords();
    var t := TodayWords(date);
    assert |t| == 13 && t[11] == "ON" && t[12] == date;
    assert ParseDate(date) == Present(date) by {
      CanonicalDateRoundTrip(date);
    }
  }

  lemma TodayWordsRouted(date: string)
    requires GoodDate(date)
    ensures FieldsOk(TodayWords(date)) && KindOf(TodayWords(date)) == Debit
    ensures DecimalValue(TodayWords(date)[1]) == 100 && Upper(TodayWords(date)[2]) == "NGN"
    ensures Routed(TodayWords(date)) && RouteOf(TodayWords(date)) == Route("x", "y", Some(date))
  {
    TodayWordsFields(date);
    var t := TodayWords(date);
    assert TokenAt(t, 5) == "x" && TokenAt(t, 10) == "y";
    TodayWordsDate(date);
    TodayWordsSlots(date);
    DatedMatch(Debit, t, date);
  }

  lemma TodaySettles(echo: Echo, date: string)
    ensures var r := Settle(echo, 100, Route("x", "y", Some(date)), TodayAccounts, date);
      && r.httpStatus == 200 && r.body.status == Successful && r.body.code == AP00
      && r.body.accounts == [AccountView("x", 400, 500, "NGN"), AccountView("y", 300, 200, "NGN")]
  {
    var accounts := TodayAccounts;
    var parties := Parties(accounts[0], accounts[1]);
    assert Validate("x", "y", 100, accounts) == Ok(parties) by {
      UpperKeywords();
      Supported();
    }
    var listing := Settled("x", "y", 400, 300);
    assert Collect(accounts, listing, 2) ==
      [AccountView("x", 400, 500, "NGN"), AccountView("y", 300, 200, "NGN")] by {
      UpperKeywords();
      assert accounts[1..][1..] == [];
    }
    assert CompareDateStrings(date, date) == 0;
    assert Resolve(100, Some(date), parties, accounts, date).views == Collect(accounts, listing, 2);
  }

  lemma TodayWordsAreWords(date: string)
    requires GoodDate(date)
    ensures IsWordList(TodayWords(date))
  {
    CanonicalChars(date);
    assert ' ' !in date;
  }

  /** An instruction dated today is executed at once, not scheduled. */
  lemma DatedTodayExecutes(today: string)
    requires GoodDate(today)
    ensures var r := ParseInstruction(Join(TodayWords(today)), TodayAccounts, today);
      && r.httpStatus == 200 && r.body.status == Successful && r.body.code == AP00
      && r.body.accounts == [AccountView("x", 400, 500, "NGN"), AccountView("y", 300, 200, "NGN")]
  {
    var t := TodayWords(today);
    TodayWordsAreWords(today);
    TodayWordsRouted(today);
    WordsSettle(t, TodayAccounts, today);
    TodaySettles(FieldsEcho(Debit, 100, "NGN"), today);
  }

  // ---------------------------------------------------------------------
  // credit 100 gbp to account abc@bank.com for debit from account xyz-01

  const LowerWords := ["credit", "100", "gbp", "to", "account", "abc@bank.com", "for", "debit", "from", "account", "xyz-01"]
  const LowerAccounts := [Account("abc@bank.com", 1000, "GBP"), Account("xyz-01", 100, "GBP")]

  lemma LowerKeywords()
    ensures Upper("credit") == "CREDIT" && Upper("debit") == "DEBIT" && Upper("gbp") == "GBP"
    ensures Upper("to") == "TO" && Upper("account") == "ACCOUNT"
    ensures Upper("for") == "FOR" && Upper("from") == "FROM"
  {
    assert forall i | 0 <= i < 6 :: Upper("credit")[i] == "CREDIT"[i];
    assert forall i | 0 <= i < 5 :: Upper("debit")[i] == "DEBIT"[i];
    assert forall i | 0 <= i < 3 :: Upper("gbp")[i] == "GBP"[i];
    assert forall i | 0 <= i < 2 :: Upper("to")[i] == "TO"[i];
    assert forall i | 0 <= i < 7 :: Upper("account")[i] == "ACCOUNT"[i];
    assert forall i | 0 <= i < 3 :: Upper("for")[i] == "FOR"[i];
    assert forall i | 0 <= i < 4 :: Upper("from")[i] == "FROM"[i];
  }

  lemma LowerWordsFields()
    ensures FieldsOk(LowerWords) && KindOf(LowerWords) == Credit
    ensures DecimalValue(LowerWords[1]) == 100 && Upper(LowerWords[2]) == "GBP"
  {
    var t := LowerWords;
    assert t[0] == "credit" && t[1] == "100" && t[2] == "gbp";
    LowerKeywords();
    Supported();
    assert IsPositiveIntegerString("100");
    assert DecimalValue("100") == 100 by {
      assert "100"[..2] == "10";
      assert "10"[..1] == "1";
    }
  }

  lemma LowerWordsMatch()
    ensures MatchTemplate(Credit, LowerWords) == Ok(Route("xyz-01", "abc@bank.com", None))
  {
    var t := LowerWords;
    assert t[3] == "to" && t[4] == "account" && t[5] == "abc@bank.com" && t[6] == "for";
    assert t[7] == "debit" && t[8] == "from" && t[9] == "account" && t[10] == "xyz-01";
    LowerKeywords();
    assert IsValidAccountId("abc@bank.com") && IsValidAccountId("xyz-01");
    CreditSpelled(t);
    UndatedMatch(Credit, t);
  }

  lemma LowerWordsRouted()
    ensures FieldsOk(LowerWords) && KindOf(LowerWords) == Credit
    ensures DecimalValue(LowerWords[1]) == 100 && Upper(LowerWords[2]) == "GBP"
    ensures Routed(LowerWords) && RouteOf(LowerWords) == Route("xyz-01", "abc@bank.com", None)
  {
    LowerWordsFields();
    LowerWordsMatch();
  }

  lemma LowerSettles(echo: Echo, today: string)
    ensures var r := Settle(echo, 100, Route("xyz-01", "abc@bank.com", None), LowerAccounts, today);
      && r.httpStatus == 200 && r.body.status == Successful && r.body.code == AP00
      && r.body.accounts == [AccountView("abc@bank.com", 1100, 1000, "GBP"), AccountView("xyz-01", 0, 100, "GBP")]
  {
    var accounts := LowerAccounts;
    var parties := Parties(accounts[1], accounts[0]);
    assert Validate("xyz-01", "abc@bank.com", 100, accounts) == Ok(parties) by {
      UpperKeywords();
      Supported();
    }
    var listing := Settled("xyz-01", "abc@bank.com", 0, 1100);
    assert Collect(accounts, listing, 2) ==
      [AccountView("abc@bank.com", 1100, 1000, "GBP"), AccountView("xyz-01", 0, 100, "GBP")] by {
      UpperKeywords();
      assert accounts[1..][1..] == [];
    }
    assert Resolve(100, None, parties, accounts, today).views == Collect(accounts, listing, 2);
  }

  lemma LowerWordsAreWords()
    ensures IsWordList(LowerWords)
  {
  }

  /** Lower-case keywords, verb and currency are accepted; identifiers with
      '@', '.' and '-' are valid; the listing follows the request's order,
      not the instruction's. */
  lemma LowerCaseWithSymbols(today: string)
    ensures var r := ParseInstruction(Join(LowerWords), LowerAccounts, today);
      && r.httpStatus == 200 && r.body.status == Successful && r.body.code == AP00
      && r.body.accounts == [AccountView("abc@bank.com", 1100, 1000, "GBP"), AccountView("xyz-01", 0, 100, "GBP")]
  {
    LowerWordsAreWords();
    LowerWordsRouted();
    WordsSettle(LowerWords, LowerAccounts, today);
    LowerSettles(FieldsEcho(Credit, 100, "GBP"), today);
  }

  // ---------------------------------------------------------------------
  // Dates as written

  /** The day is checked against 1..31 whatever the month. */
  lemma NoDaysPerMonth()
    ensures ParseDate("2026-02-31") == Present("2026-02-31")
  {
    var d := "2026-02-31";
    assert d[0..4] == "2026" && d[5..7] == "02" && d[8..10] == "31";
    assert IsCanonicalDate(d);
    assert DecimalValue("02") == 2 by { assert "02"[..1] == "0"; }
    assert DecimalValue("31") == 31 by { assert "31"[..1] == "3"; }
    CanonicalDateRoundTrip(d);
  }

  /** The token `-001-01-01` is accepted: its year reads as -1, and padding
      "-1" to four characters puts the sign inside the year field. */
  lemma NegativeYearText()
    ensures ParseDate("-001-01-01") == Present("00-1-01-01")
  {
    var t := "-001-01-01";
    assert |t| == 10 && t[4] == '-' && t[7] == '-';
    assert t[0..4] == "-001" && t[5..7] == "01" && t[8..10] == "01";
    MinusOneField();
    OneField();
    NegativeYearIso();
  }

  lemma MinusOneField()
    ensures ParseInt("-001") == Some(-1)
  {
    assert "-001"[1..] == "001";
    assert DecimalValue("001") == 1 by {
      assert "001"[..2] == "00" && "00"[..1] == "0";
    }
    ParseIntOfNegative("-001");
  }

  lemma OneField()
    ensures ParseInt("01") == Some(1)
  {
    assert DecimalValue("01") == 1 by { assert "01"[..1] == "0"; }
    ParseIntOfDigits("01");
  }

  /** A date field is read like `parseInt`: digits after the first non-digit
      are ignored, so `2026-1x-01` is accepted and re-emitted as
      `2026-01-01`. */
  lemma LenientDateField()
    ensures ParseDate("2026-1x-01") == Present("2026-01-01")
  {
    var t := "2026-1x-01";
    assert ParseDate(t) == DateFromFields(ParseInt("2026"), ParseInt("1x"), ParseInt("01")) by {
      assert |t| == 10 && t[4] == '-' && t[7] == '-';
      assert t[0..4] == "2026" && t[5..7] == "1x" && t[8..10] == "01";
    }
    assert ParseInt("1x") == ParseInt("01") by {
      TrailingLetterField();
      OneField();
    }
    FirstOfJanuary();
  }

  /** `2026`, `01` and `01` make the date `2026-01-01`. */
  lemma FirstOfJanuary()
    ensures DateFromFields(ParseInt("2026"), ParseInt("01"), ParseInt("01")) == Present("2026-01-01")
  {
    assert IsDigits("2026") && IsDigits("01");
    assert DecimalValue("01") == 1 by { assert "01"[..1] == "0"; }
    DigitFields("2026", "01", "01");
    JoinedFirstOfJanuary();
  }

  lemma JoinedFirstOfJanuary()
    ensures "2026" + "-" + "01" + "-" + "01" == "2026-01-01"
  {
    var joined := "2026" + "-" + "01" + "-" + "01";
    assert |joined| == 10;
    assert forall i | 0 <= i < 10 :: joined[i] == "2026-01-01"[i];
  }

  /** `parseInt` stops at the first character that is not a digit. */
  lemma TrailingLetterField()
    ensures ParseInt("1x") == Some(1)
  {
    DigitThenOther("1x");
  }

  /** `parseInt` of a digit followed by a non-digit reads that one digit. */
  lemma DigitThenOther(s: string)
    requires |s| == 2 && IsDigit(s[0]) && !IsDigit(s[1])
    ensures ParseInt(s) == Some(DigitValue(s[0]))
  {
    assert JsText.TrimStart(s) == s by {
      assert !JsText.IsWhiteSpace(s[0]);
    }
    var d := DigitPrefix(s);
    assert d == s[..1];
    assert DecimalValue(d) == DigitValue(s[0]) by {
      assert d[..0] == [];
    }
  }

  /** A year read as -1 with month and day 1 is re-emitted as `00-1-01-01`. */
  lemma NegativeYearIso()
    ensures Iso(-1, 1, 1) == "00-1-01-01"
    ensures DateFromFields(Some(-1), Some(1), Some(1)) == Present("00-1-01-01")
  {
    assert ToDecimal(1) == "1";
    assert IntToString(-1) == "-1";
    assert PadStart("-1", 4, '0') == "00-1";
    assert PadStart("1", 2, '0') == "01";
    var s := "00-1" + "-" + "01" + "-" + "01";
    assert |s| == 10;
    assert forall i | 0 <= i < 10 :: s[i] == "00-1-01-01"[i];
  }
}
