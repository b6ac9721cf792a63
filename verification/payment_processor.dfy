/** `parseInstruction`: tokenize the instruction, read the verb, amount and
    currency, match the rest against the verb's template, validate against
    the supplied accounts and resolve to executed or pending. Every stage
    either hands on or answers with a failed response; nothing runs twice. */
module PaymentProcessor {
  import opened Domain
  import opened Decimal
  import opened Tokenizer
  import opened Fields
  import opened Dates
  import opened Grammar
  import opened Validator
  import opened Resolver

  const AmountReason := "Amount must be a positive integer"

  function VerbOf(kind: Direction): string
  {
    match kind
    case Debit => "DEBIT"
    case Credit => "CREDIT"
  }

  /** The whole pipeline; `today` is the current UTC date as `YYYY-MM-DD`. */
  function ParseInstruction(instruction: string, accounts: seq<Account>, today: string): Response
  {
    if instruction == "" then Malformed
    else ProcessTokens(Tokenize(instruction), accounts, today)
  }

  /** Everything after tokenizing: at least seven tokens, and a first token
      reading DEBIT or CREDIT in any case, or the malformed response. */
  function ProcessTokens(tokens: seq<string>, accounts: seq<Account>, today: string): Response
  {
    if |tokens| < 7 then Malformed
    else
      var first := Upper(tokens[0]);
      if first == "DEBIT" then ProcessFields(Debit, tokens, accounts, today)
      else if first == "CREDIT" then ProcessFields(Credit, tokens, accounts, today)
      else Malformed
  }

  /** The echo once the verb, the amount and the currency are read. */
  function FieldsEcho(kind: Direction, amount: nat, currency: string): Echo
  {
    NoEcho.(kind := Some(VerbOf(kind)), amount := Some(amount), currency := Some(currency))
  }

  /** The amount, then the currency, then the template. */
  function ProcessFields(kind: Direction, tokens: seq<string>, accounts: seq<Account>, today: string): Response
    requires |tokens| >= 7
  {
    if !IsPositiveIntegerString(tokens[1]) then
      Reject(NoEcho.(kind := Some(VerbOf(kind))), AM01, AmountReason, [])
    else
      var amount := AmountValue(tokens[1]);
      var currency := Upper(tokens[2]);
      var echo := FieldsEcho(kind, amount, currency);
      if !IsSupportedCurrency(currency) then
        Reject(echo, CU02, UnsupportedCurrencyReason, Collect(accounts, Supplied, 2))
      else
        match MatchTemplate(kind, tokens)
        case Err(rejection) => Reject(echo, rejection.code, rejection.reason, [])
        case Ok(route) => Settle(echo, amount, route, accounts, today)
  }

  /** The echo once the template matched. */
  function RouteEcho(echo: Echo, route: Route): Echo
  {
    echo.(debitAccount := Some(route.debitId), creditAccount := Some(route.creditId), executeBy := route.executeBy)
  }

  /** Validation, then resolution, of a matched instruction. */
  function Settle(echo: Echo, amount: nat, route: Route, accounts: seq<Account>, today: string): Response
  {
    var echo := RouteEcho(echo, route);
    match Validate(route.debitId, route.creditId, amount, accounts)
    case Err(failure) => Reject(echo, failure.code, failure.reason, failure.views)
    case Ok(parties) =>
      var outcome := Resolve(amount, route.executeBy, parties, accounts, today);
      Response(200, Body(echo, outcome.status, outcome.reason, outcome.code, outcome.views))
  }

  // ---------------------------------------------------------------------
  // Stage predicates used to state the properties below.

  /** At least seven tokens and a known verb. */
  predicate HeaderOk(tokens: seq<string>)
  {
    |tokens| >= 7 && (Upper(tokens[0]) == "DEBIT" || Upper(tokens[0]) == "CREDIT")
  }

  function KindOf(tokens: seq<string>): Direction
    requires HeaderOk(tokens)
  {
    if Upper(tokens[0]) == "DEBIT" then Debit else Credit
  }

  /** The verb, the amount and the currency are all acceptable. */
  predicate FieldsOk(tokens: seq<string>)
  {
    HeaderOk(tokens) && IsPositiveIntegerString(tokens[1]) && IsSupportedCurrency(Upper(tokens[2]))
  }

  /** The whole grammar matched, date clause included. */
  predicate Routed(tokens: seq<string>)
  {
    FieldsOk(tokens) && MatchTemplate(KindOf(tokens), tokens).Ok?
  }

  function RouteOf(tokens: seq<string>): Route
    requires Routed(tokens)
  {
    MatchTemplate(KindOf(tokens), tokens).value
  }

  lemma ProcessTokensUnfold(tokens: seq<string>, accounts: seq<Account>, today: string)
    requires HeaderOk(tokens)
    ensures ProcessTokens(tokens, accounts, today) == ProcessFields(KindOf(tokens), tokens, accounts, today)
  {
  }

  // ---------------------------------------------------------------------
  // Properties.

  /** SY03 is the answer exactly for an instruction of fewer than seven
      tokens or whose first token is neither DEBIT nor CREDIT in any case;
      it then echoes nothing and lists no account. */
  lemma ShortOrUnknownIsMalformed(instruction: string, accounts: seq<Account>, today: string)
    ensures var tokens := Tokenize(instruction);
      var r := ParseInstruction(instruction, accounts, today);
      && (r.body.code == SY03 <==> !HeaderOk(tokens))
      && (r.body.code == SY03 ==> r == Malformed)
  {
    var tokens := Tokenize(instruction);
    if instruction == "" {
      assert Split("") == [""];
      assert tokens == [];
    } else if HeaderOk(tokens) {
      NeverMalformedPastHeader(tokens, accounts, today);
    }
  }

  /** An instruction written as words separated by single spaces is
      processed as exactly those words. */
  lemma WrittenWords(tokens: seq<string>, accounts: seq<Account>, today: string)
    requires IsWordList(tokens) && |tokens| > 0
    ensures ParseInstruction(Join(tokens), accounts, today) == ProcessTokens(tokens, accounts, today)
  {
    JoinFringe(tokens);
    TokenizeJoin(tokens);
  }

  /** Past the header, no stage answers SY03. */
  lemma NeverMalformedPastHeader(tokens: seq<string>, accounts: seq<Account>, today: string)
    requires HeaderOk(tokens)
    ensures ProcessTokens(tokens, accounts, today).body.code != SY03
  {
    ProcessTokensUnfold(tokens, accounts, today);
    var kind := KindOf(tokens);
    if FieldsOk(tokens) {
      match MatchTemplate(kind, tokens)
      case Err(rejection) =>
        RejectionCodes(kind, tokens);
      case Ok(route) =>
        var amount := AmountValue(tokens[1]);
        SettleCodes(FieldsEcho(kind, amount, Upper(tokens[2])), amount, route, accounts, today);
    }
  }

  lemma RejectionCodes(kind: Direction, tokens: seq<string>)
    requires MatchTemplate(kind, tokens).Err?
    ensures MatchTemplate(kind, tokens).error.code in {SY01, AC04, DT01}
  {
  }

  /** What validation and resolution answer: the validator's failure, or
      AP00 or AP02 with status 200. */
  lemma SettleCodes(echo: Echo, amount: nat, route: Route, accounts: seq<Account>, today: string)
    ensures var r := Settle(echo, amount, route, accounts, today);
      var v := Validate(route.debitId, route.creditId, amount, accounts);
      && r.body.echo == RouteEcho(echo, route)
      && (v.Err? ==> r == Reject(RouteEcho(echo, route), v.error.code, v.error.reason, v.error.views))
      && (v.Err? ==> v.error.code in {AC03, CU01, CU02, AC02, AC01})
      && (v.Ok? ==> r.httpStatus == 200 && r.body.status != Failed && r.body.code in {AP00, AP02})
      && (v.Ok? ==> (r.body.status == Pending <==> r.body.code == AP02))
  {
    var v := Validate(route.debitId, route.creditId, amount, accounts);
    ValidationOrder(route.debitId, route.creditId, amount, accounts);
    if v.Ok? {
      PendingIffFuture(amount, route.executeBy, v.value, accounts, today);
    }
  }

  /** The amount is accepted exactly when it is a non-empty run of ASCII
      digits; otherwise AM01 is answered before the currency, the keywords
      or any account is looked at, echoing only the verb. Once accepted, the
      echoed amount is its decimal value. */
  lemma AmountAcceptance(tokens: seq<string>, accounts: seq<Account>, today: string)
    requires HeaderOk(tokens)
    ensures var r := ProcessTokens(tokens, accounts, today);
      && (r.body.code == AM01 <==> !(|tokens[1]| > 0 && IsDigits(tokens[1])))
      && (r.body.code == AM01 ==>
            r == Reject(NoEcho.(kind := Some(Upper(tokens[0]))), AM01, AmountReason, []))
      && (r.body.code != AM01 ==>
            IsDigits(tokens[1]) && r.body.echo.amount == Some(DecimalValue(tokens[1])))
  {
    ProcessTokensUnfold(tokens, accounts, today);
    var kind := KindOf(tokens);
    if IsPositiveIntegerString(tokens[1]) {
      var amount := AmountValue(tokens[1]);
      if IsSupportedCurrency(Upper(tokens[2])) {
        match MatchTemplate(kind, tokens)
        case Err(rejection) =>
          RejectionCodes(kind, tokens);
        case Ok(route) =>
          SettleCodes(FieldsEcho(kind, amount, Upper(tokens[2])), amount, route, accounts, today);
      }
    }
  }

  /** An unsupported instruction currency gives CU02 before any keyword or
      account check. The response lists the first two supplied accounts
      with a non-empty id, whichever they are, with unchanged balances. */
  lemma UnsupportedInstructionCurrency(tokens: seq<string>, accounts: seq<Account>, today: string)
    requires HeaderOk(tokens) && IsPositiveIntegerString(tokens[1])
    requires !IsSupportedCurrency(Upper(tokens[2]))
    ensures var r := ProcessTokens(tokens, accounts, today);
      && r.httpStatus == 400 && r.body.status == Failed && r.body.code == CU02
      && r.body.echo == FieldsEcho(KindOf(tokens), DecimalValue(tokens[1]), Upper(tokens[2]))
      && r.body.accounts == Take(Selected(accounts, Supplied), 2)
      && (forall v | v in r.body.accounts :: v.id != "" && v.balance == v.balanceBefore)
  {
    ProcessTokensUnfold(tokens, accounts, today);
    CollectTakesSelected(accounts, Supplied, 2);
    UnchangedListing(accounts, Supplied, 2);
    SuppliedIds(accounts, 2);
  }

  lemma {:induction false} SuppliedIds(accounts: seq<Account>, limit: nat)
    ensures forall v | v in Collect(accounts, Supplied, limit) :: v.id != ""
  {
    if |accounts| > 0 && limit > 0 {
      SuppliedIds(accounts[1..], limit);
      SuppliedIds(accounts[1..], limit - 1);
    }
  }

  /** Keyword and identifier positions are checked in template order and
      the first one that fails decides: SY01 for a keyword, AC04 for an
      identifier, with that position's reason, no account listed and no
      identifier echoed. */
  lemma KeywordOrder(tokens: seq<string>, accounts: seq<Account>, today: string, j: nat)
    requires FieldsOk(tokens)
    requires j < |Template(KindOf(tokens))|
    requires !SlotHolds(tokens, TemplateStart + j, Template(KindOf(tokens))[j])
    requires forall i | 0 <= i < j :: SlotHolds(tokens, TemplateStart + i, Template(KindOf(tokens))[i])
    ensures var r := ProcessTokens(tokens, accounts, today);
      var slot := Template(KindOf(tokens))[j];
      && r.body.code == (if slot.Keyword? then SY01 else AC04)
      && r.body.reason == Reason(slot)
      && r == Reject(FieldsEcho(KindOf(tokens), DecimalValue(tokens[1]), Upper(tokens[2])), r.body.code, Reason(slot), [])
  {
    ProcessTokensUnfold(tokens, accounts, today);
    FirstFailureWins(tokens, Template(KindOf(tokens)), 0, j);
  }

  /** An instruction of seven to ten tokens can never get past the grammar:
      it fails with SY03, AM01, CU02, SY01 or AC04, and with SY01 or AC04
      once its verb, amount and currency are acceptable. */
  lemma ShortInstructionFailsInGrammar(tokens: seq<string>, accounts: seq<Account>, today: string)
    requires |tokens| <= 10
    ensures var r := ProcessTokens(tokens, accounts, today);
      && r.body.status == Failed
      && r.body.code in {SY03, AM01, CU02, SY01, AC04}
      && (FieldsOk(tokens) ==> r.body.code in {SY01, AC04})
  {
    if HeaderOk(tokens) {
      ProcessTokensUnfold(tokens, accounts, today);
      ShortTemplateFails(KindOf(tokens), tokens);
    }
  }

  /** After a fully matched template, the date clause decides between DT01
      (no parties echoed; also when `ON` is the last token), no execution date
      and the re-emitted date; `TrailingTokensIgnored`
      shows that nothing after the clause is read. */
  lemma DateClauseOutcome(tokens: seq<string>, accounts: seq<Account>, today: string)
    requires FieldsOk(tokens)
    requires forall j | 0 <= j < 8 :: SlotHolds(tokens, TemplateStart + j, Template(KindOf(tokens))[j])
    ensures var r := ProcessTokens(tokens, accounts, today);
      var clause := ParseDateIfExists(tokens, 11);
      && (clause == Invalid <==> r.body.code == DT01)
      && (clause == Invalid ==>
            (r.body.reason == "Invalid date format" && r.body.accounts == []
             && r.body.echo.debitAccount == None && r.body.echo.creditAccount == None
             && r.body.echo.executeBy == None))
      && (|tokens| == 12 && Upper(tokens[11]) == "ON" ==> r.body.code == DT01)
      && (clause == Absent ==> r.body.echo.executeBy == None)
      && (clause.Present? ==> r.body.echo.executeBy == Some(clause.iso))
  {
    ProcessTokensUnfold(tokens, accounts, today);
    var kind := KindOf(tokens);
    assert FirstRejection(tokens, Template(kind), 0) == None by {
      TemplateIdSlots(kind);
      FailsIffSomeSlotFails(tokens, Template(kind), 0);
    }
    DateClauseDecides(kind, tokens);
    var m := MatchTemplate(kind, tokens);
    if m.Ok? {
      var amount := AmountValue(tokens[1]);
      SettleCodes(FieldsEcho(kind, amount, Upper(tokens[2])), amount, m.value, accounts, today);
    }
  }

  /** Tokens after the date clause are never read: without a clause the
      response is that of the first eleven tokens alone, and with an `ON`
      clause that of the first thirteen. */
  lemma TrailingTokensIgnored(tokens: seq<string>, accounts: seq<Account>, today: string)
    requires |tokens| >= 11
    ensures ParseDateIfExists(tokens, 11) == Absent ==>
      ProcessTokens(tokens, accounts, today) == ProcessTokens(tokens[..11], accounts, today)
    ensures |tokens| >= 13 && Upper(tokens[11]) == "ON" ==>
      ProcessTokens(tokens, accounts, today) == ProcessTokens(tokens[..13], accounts, today)
  {
    var short := tokens[..11];
    if ParseDateIfExists(tokens, 11) == Absent {
      assert short[..11] == tokens[..11];
      ReadsElevenTokens(tokens, short, accounts, today);
    }
    if |tokens| >= 13 && Upper(tokens[11]) == "ON" {
      var dated := tokens[..13];
      assert dated[..11] == tokens[..11];
      assert dated[11] == tokens[11] && dated[12] == tokens[12];
      ReadsElevenTokens(tokens, dated, accounts, today);
    }
  }

  /** Two token lists that agree on their first eleven tokens and on the date
      clause get the same response. */
  lemma ReadsElevenTokens(t1: seq<string>, t2: seq<string>, accounts: seq<Account>, today: string)
    requires |t1| >= 11 && |t2| >= 11 && t1[..11] == t2[..11]
    requires ParseDateIfExists(t1, 11) == ParseDateIfExists(t2, 11)
    ensures ProcessTokens(t1, accounts, today) == ProcessTokens(t2, accounts, today)
  {
    assert t1[0] == t1[..11][0] && t1[1] == t1[..11][1] && t1[2] == t1[..11][2];
    assert t2[0] == t2[..11][0] && t2[1] == t2[..11][1] && t2[2] == t2[..11][2];
    if HeaderOk(t1) {
      MatchReadsElevenTokens(KindOf(t1), t1, t2);
    }
  }

  /** A matched instruction is settled with the echo of its fields. */
  lemma RoutedUnfold(tokens: seq<string>, accounts: seq<Account>, today: string)
    requires Routed(tokens)
    ensures ProcessTokens(tokens, accounts, today) ==
      Settle(FieldsEcho(KindOf(tokens), DecimalValue(tokens[1]), Upper(tokens[2])),
        DecimalValue(tokens[1]), RouteOf(tokens), accounts, today)
  {
    ProcessTokensUnfold(tokens, accounts, today);
  }

  /** Once the grammar matched, the identifiers and the date are echoed and
      the validator's verdict is the response's: its failure code, reason and
      listing with status 400, or an AP00/AP02 outcome with status 200. */
  lemma ValidationStage(tokens: seq<string>, accounts: seq<Account>, today: string)
    requires Routed(tokens)
    ensures var r := ProcessTokens(tokens, accounts, today);
      var route := RouteOf(tokens);
      var v := Validate(route.debitId, route.creditId, DecimalValue(tokens[1]), accounts);
      && r.body.echo == RouteEcho(FieldsEcho(KindOf(tokens), DecimalValue(tokens[1]), Upper(tokens[2])), route)
      && (v.Err? ==>
            (r.httpStatus == 400 && r.body.status == Failed && r.body.code == v.error.code
             && r.body.reason == v.error.reason && r.body.accounts == v.error.views))
      && (v.Ok? ==> r.httpStatus == 200 && r.body.code in {AP00, AP02})
  {
    RoutedUnfold(tokens, accounts, today);
    var amount := DecimalValue(tokens[1]);
    SettleCodes(FieldsEcho(KindOf(tokens), amount, Upper(tokens[2])), amount, RouteOf(tokens), accounts, today);
  }

  /** A validated instruction: the lookup and every check passed. */
  predicate Validated(tokens: seq<string>, accounts: seq<Account>)
  {
    Routed(tokens) &&
    Validate(RouteOf(tokens).debitId, RouteOf(tokens).creditId, DecimalValue(tokens[1]), accounts).Ok?
  }

  /** After validation passes: pending (AP02, status 200, no balance moved)
      exactly when the execution date is after today in string order;
      otherwise executed (AP00, status 200). A pending response lists the
      first two accounts named by either side, unchanged and in request
      order; with unique ids these are exactly the debit and credit
      accounts. */
  lemma PendingStage(tokens: seq<string>, accounts: seq<Account>, today: string)
    requires Validated(tokens, accounts)
    ensures var r := ProcessTokens(tokens, accounts, today);
      var route := RouteOf(tokens);
      && r.httpStatus == 200
      && (r.body.code == AP02 <==> route.executeBy.Some? && JsText.Less(today, route.executeBy.value))
      && (r.body.code == AP02 ==>
            (r.body.status == Pending && forall v | v in r.body.accounts :: v.balance == v.balanceBefore))
      && (r.body.code == AP02 ==>
            r.body.accounts == Take(Selected(accounts, Involved(route.debitId, route.creditId)), 2))
      && (r.body.code == AP02 && UniqueIds(accounts) ==>
            PendingListing(r.body.accounts,
              Validate(route.debitId, route.creditId, DecimalValue(tokens[1]), accounts).value, accounts))
      && (r.body.code != AP02 ==> r.body.status == Successful && r.body.code == AP00)
  {
    RoutedUnfold(tokens, accounts, today);
    var route := RouteOf(tokens);
    var amount := DecimalValue(tokens[1]);
    var echo := FieldsEcho(KindOf(tokens), amount, Upper(tokens[2]));
    SettlePending(echo, amount, route, accounts, today);
  }

  /** The settlement step on its own, for a validated instruction: the
      statements of `PendingStage` about a `Settle` response. */
  lemma SettlePending(echo: Echo, amount: nat, route: Route, accounts: seq<Account>, today: string)
    requires Validate(route.debitId, route.creditId, amount, accounts).Ok?
    ensures var r := Settle(echo, amount, route, accounts, today);
      var parties := Validate(route.debitId, route.creditId, amount, accounts).value;
      && r.httpStatus == 200
      && (r.body.code == AP02 <==> route.executeBy.Some? && JsText.Less(today, route.executeBy.value))
      && (r.body.code == AP02 ==>
            (r.body.status == Pending && forall v | v in r.body.accounts :: v.balance == v.balanceBefore))
      && (r.body.code == AP02 ==>
            r.body.accounts == Take(Selected(accounts, Involved(route.debitId, route.creditId)), 2))
      && (r.body.code == AP02 && UniqueIds(accounts) ==> PendingListing(r.body.accounts, parties, accounts))
      && (r.body.code != AP02 ==> r.body.status == Successful && r.body.code == AP00)
  {
    var parties := Validate(route.debitId, route.creditId, amount, accounts).value;
    ValidationOrder(route.debitId, route.creditId, amount, accounts);
    FindAccountIsFirstMatch(accounts, route.debitId);
    FindAccountIsFirstMatch(accounts, route.creditId);
    assert parties.debit.id == route.debitId && parties.credit.id == route.creditId;
    PendingIffFuture(amount, route.executeBy, parties, accounts, today);
    if Resolve(amount, route.executeBy, parties, accounts, today).status == Pending && UniqueIds(accounts) {
      PendingTransfer(amount, parties, accounts, today, route.executeBy);
    }
  }

  /** An executed instruction over accounts with unique ids lists exactly the
      two accounts, in request order: the debit one lowered and the credit one
      raised by the amount, each against its balance before; their total is
      unchanged. */
  lemma ExecutedStage(tokens: seq<string>, accounts: seq<Account>, today: string)
    requires Validated(tokens, accounts) && UniqueIds(accounts)
    requires ProcessTokens(tokens, accounts, today).body.code == AP00
    ensures var route := RouteOf(tokens);
      var amount := DecimalValue(tokens[1]);
      ExecutedListing(ProcessTokens(tokens, accounts, today).body.accounts, amount,
        Validate(route.debitId, route.creditId, amount, accounts).value, accounts)
  {
    RoutedUnfold(tokens, accounts, today);
    var route := RouteOf(tokens);
    var amount := DecimalValue(tokens[1]);
    var echo := FieldsEcho(KindOf(tokens), amount, Upper(tokens[2]));
    SettleExecuted(echo, amount, route, accounts, today);
  }

  lemma SettleExecuted(echo: Echo, amount: nat, route: Route, accounts: seq<Account>, today: string)
    requires UniqueIds(accounts)
    requires Validate(route.debitId, route.creditId, amount, accounts).Ok?
    requires Settle(echo, amount, route, accounts, today).body.code == AP00
    ensures ExecutedListing(Settle(echo, amount, route, accounts, today).body.accounts, amount,
      Validate(route.debitId, route.creditId, amount, accounts).value, accounts)
  {
    var parties := Validate(route.debitId, route.creditId, amount, accounts).value;
    ValidationOrder(route.debitId, route.creditId, amount, accounts);
    PendingIffFuture(amount, route.executeBy, parties, accounts, today);
    FindAccountIsFirstMatch(accounts, route.debitId);
    FindAccountIsFirstMatch(accounts, route.creditId);
    ExecutedTransfer(amount, parties, accounts, today, route.executeBy);
  }

  /** Invariants of every response: 200 exactly for pending and successful
      results, 400 for every failure; at most two accounts listed; only an
      executed transfer reports a moved balance; AP00 is exactly the
      successful status and AP02 exactly the pending one. */
  lemma ResponseInvariants(tokens: seq<string>, accounts: seq<Account>, today: string)
    ensures var r := ProcessTokens(tokens, accounts, today);
      && r.httpStatus == (if r.body.status == Failed then 400 else 200)
      && |r.body.accounts| <= 2
      && (r.body.status != Successful ==> forall v | v in r.body.accounts :: v.balance == v.balanceBefore)
      && (r.body.code == AP00 <==> r.body.status == Successful)
      && (r.body.code == AP02 <==> r.body.status == Pending)
  {
    if HeaderOk(tokens) {
      ProcessTokensUnfold(tokens, accounts, today);
      var kind := KindOf(tokens);
      if IsPositiveIntegerString(tokens[1]) {
        var amount := AmountValue(tokens[1]);
        if !IsSupportedCurrency(Upper(tokens[2])) {
          CollectBound(accounts, Supplied, 2);
          UnchangedListing(accounts, Supplied, 2);
        } else {
          match MatchTemplate(kind, tokens)
          case Err(rejection) =>
            RejectionCodes(kind, tokens);
          case Ok(route) =>
            var echo := FieldsEcho(kind, amount, Upper(tokens[2]));
            SettleCodes(echo, amount, route, accounts, today);
            var v := Validate(route.debitId, route.creditId, amount, accounts);
            if v.Err? {
              FailureViews(route.debitId, route.creditId, amount, accounts);
            } else {
              PendingIffFuture(amount, route.executeBy, v.value, accounts, today);
            }
        }
      }
    }
  }

  /** Keywords, the verb and the currency are read case-insensitively while
      the amount, the account identifiers and the date keep their text: two
      instructions that differ only in the case of the former get the same
      response. */
  lemma CaseInsensitiveKeywords(t1: seq<string>, t2: seq<string>, accounts: seq<Account>, today: string)
    requires SameUpToKeywordCase(t1, t2)
    ensures ProcessTokens(t1, accounts, today) == ProcessTokens(t2, accounts, today)
  {
    if |t1| >= 7 {
      assert Upper(t1[0]) == Upper(t2[0]) && Upper(t1[2]) == Upper(t2[2]) && t1[1] == t2[1];
      if HeaderOk(t1) {
        MatchIgnoresKeywordCase(KindOf(t1), t1, t2);
      }
    }
  }
}
