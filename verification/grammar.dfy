/** The grammar matcher for the part of an instruction after the verb, the
    amount and the currency. Each template is a fixed list of slots checked
    left to right by a forward-only cursor; the first slot that fails decides
    the rejection. A token past the end reads as the empty string. */
module Grammar {
  import opened Domain
  import opened Fields
  import opened Dates

  /** What a keyword's rejection reason adds after the keyword: nothing, the
      keyword it follows, or the account it comes before. */
  datatype Qualifier = Plain | After(previous: string) | Before(side: Direction)

  /** One fixed position of a template: a keyword compared case-insensitively,
      or an account identifier for one side. */
  datatype Slot = Keyword(word: string, qualifier: Qualifier) | AccountId(side: Direction)

  /** Where the cursor stands when the template begins: after the verb, the
      amount and the currency. */
  const TemplateStart: nat := 3

  /** `DEBIT <amount> <currency> FROM ACCOUNT <debit> FOR CREDIT TO ACCOUNT <credit>`
      and `CREDIT <amount> <currency> TO ACCOUNT <credit> FOR DEBIT FROM ACCOUNT <debit>`. */
  function Template(kind: Direction): seq<Slot>
  {
    match kind
    case Debit => [
      Keyword("FROM", Plain), Keyword("ACCOUNT", After("FROM")), AccountId(Debit),
      Keyword("FOR", Plain), Keyword("CREDIT", After("FOR")),
      Keyword("TO", Plain), Keyword("ACCOUNT", Before(Credit)), AccountId(Credit)]
    case Credit => [
      Keyword("TO", Plain), Keyword("ACCOUNT", After("TO")), AccountId(Credit),
      Keyword("FOR", Plain), Keyword("DEBIT", After("FOR")),
      Keyword("FROM", Plain), Keyword("ACCOUNT", Before(Debit)), AccountId(Debit)]
  }

  function SideName(side: Direction): string
  {
    match side
    case Debit => "debit"
    case Credit => "credit"
  }

  /** The reason a failing slot reports, e.g. "Missing required keyword
      ACCOUNT after FROM" or "Invalid account ID format for debit account". */
  function Reason(slot: Slot): string
  {
    match slot
    case Keyword(word, Plain) => "Missing required keyword " + word
    case Keyword(word, After(previous)) => "Missing required keyword " + word + " after " + previous
    case Keyword(word, Before(side)) =>
      "Missing required keyword " + word + " before " + SideName(side) + " account"
    case AccountId(side) => "Invalid account ID format for " + SideName(side) + " account"
  }

  /** The slot of a template that holds one side's account identifier. */
  function IdSlot(kind: Direction, side: Direction): nat
  {
    if kind == side then 2 else 7
  }

  /** `tokens[i] || ''`. */
  function TokenAt(tokens: seq<string>, i: nat): string
  {
    if i < |tokens| then tokens[i] else ""
  }

  predicate SlotHolds(tokens: seq<string>, i: nat, slot: Slot)
  {
    match slot
    case Keyword(word, _) => Upper(TokenAt(tokens, i)) == word
    case AccountId(_) => IsValidAccountId(TokenAt(tokens, i))
  }

  datatype Rejection = Rejection(code: Code, reason: string)

  function RejectionFor(slot: Slot): Rejection
  {
    match slot
    case Keyword(_, _) => Rejection(SY01, Reason(slot))
    case AccountId(_) => Rejection(AC04, Reason(slot))
  }

  /** The cursor walk over `slots[k..]`, slot k being checked against token
      `TemplateStart + k`: the rejection of the first slot that fails, if any. */
  function FirstRejection(tokens: seq<string>, slots: seq<Slot>, k: nat): (r: Option<Rejection>)
    requires k <= |slots|
    ensures r.Some? ==> r.value.code == SY01 || r.value.code == AC04
    decreases |slots| - k
  {
    if k == |slots| then None
    else if !SlotHolds(tokens, TemplateStart + k, slots[k]) then Some(RejectionFor(slots[k]))
    else FirstRejection(tokens, slots, k + 1)
  }

  /** The parsed parties and optional execution date. */
  datatype Route = Route(debitId: string, creditId: string, executeBy: Option<string>)

  /** The template for `kind`, then the optional date clause right after it. */
  function MatchTemplate(kind: Direction, tokens: seq<string>): Result<Route, Rejection>
  {
    var slots := Template(kind);
    match FirstRejection(tokens, slots, 0)
    case Some(rejection) => Err(rejection)
    case None =>
      var debitId := TokenAt(tokens, TemplateStart + IdSlot(kind, Debit));
      var creditId := TokenAt(tokens, TemplateStart + IdSlot(kind, Credit));
      match ParseDateIfExists(tokens, TemplateStart + |slots|)
      case Invalid => Err(Rejection(DT01, "Invalid date format"))
      case Absent => Ok(Route(debitId, creditId, None))
      case Present(iso) => Ok(Route(debitId, creditId, Some(iso)))
  }

  /** The walk fails exactly when some slot fails. */
  lemma {:induction false} FailsIffSomeSlotFails(tokens: seq<string>, slots: seq<Slot>, k: nat)
    requires k <= |slots|
    ensures FirstRejection(tokens, slots, k).Some? <==>
      exists j | k <= j < |slots| :: !SlotHolds(tokens, TemplateStart + j, slots[j])
    decreases |slots| - k
  {
    if k < |slots| {
      FailsIffSomeSlotFails(tokens, slots, k + 1);
      if SlotHolds(tokens, TemplateStart + k, slots[k]) {
        assert FirstRejection(tokens, slots, k) == FirstRejection(tokens, slots, k + 1);
        assert forall j | k <= j < |slots| && !SlotHolds(tokens, TemplateStart + j, slots[j]) :: j != k;
      }
    }
  }

  /** Slots are checked in template order and the first mismatch wins: when
      slot j fails and every slot before it holds, the walk reports slot j's
      rejection. */
  lemma {:induction false} FirstFailureWins(tokens: seq<string>, slots: seq<Slot>, k: nat, j: nat)
    requires k <= j < |slots|
    requires !SlotHolds(tokens, TemplateStart + j, slots[j])
    requires forall i | k <= i < j :: SlotHolds(tokens, TemplateStart + i, slots[i])
    ensures FirstRejection(tokens, slots, k) == Some(RejectionFor(slots[j]))
    decreases j - k
  {
    if k < j {
      FirstFailureWins(tokens, slots, k + 1, j);
    }
  }

  /** Once every slot held, the date clause alone decides: DT01 for an
      invalid clause, otherwise a route carrying the clause's date if any. */
  lemma DateClauseDecides(kind: Direction, tokens: seq<string>)
    requires FirstRejection(tokens, Template(kind), 0) == None
    ensures var clause := ParseDateIfExists(tokens, 11);
      var m := MatchTemplate(kind, tokens);
      && (m.Err? <==> clause == Invalid)
      && (m.Err? ==> m.error == Rejection(DT01, "Invalid date format"))
      && (m.Ok? ==> m.value.executeBy == if clause.Present? then Some(clause.iso) else None)
  {
    assert |Template(kind)| == 8;
  }

  /** Each template holds one identifier slot per side, at the place `IdSlot` names. */
  lemma TemplateIdSlots(kind: Direction)
    ensures |Template(kind)| == 8
    ensures forall side: Direction ::
      (Template(kind)[IdSlot(kind, side)].AccountId? && Template(kind)[IdSlot(kind, side)].side == side)
    ensures forall j | 0 <= j < 8 && Template(kind)[j].AccountId? :: j == 2 || j == 7
  {
  }

  /** A route is only produced when every keyword matched and both account
      identifiers are valid; the debit and credit identifiers are the tokens at
      their template positions, whichever side the template names first. */
  lemma MatchedRoute(kind: Direction, tokens: seq<string>)
    requires MatchTemplate(kind, tokens).Ok?
    ensures var route := MatchTemplate(kind, tokens).value;
      && (forall j | 0 <= j < 8 :: SlotHolds(tokens, TemplateStart + j, Template(kind)[j]))
      && IsValidAccountId(route.debitId) && IsValidAccountId(route.creditId)
      && route.debitId == tokens[if kind == Debit then 5 else 10]
      && route.creditId == tokens[if kind == Debit then 10 else 5]
  {
    FailsIffSomeSlotFails(tokens, Template(kind), 0);
    TemplateIdSlots(kind);
    assert SlotHolds(tokens, TemplateStart + 2, Template(kind)[2]);
    assert SlotHolds(tokens, TemplateStart + 7, Template(kind)[7]);
  }

  /** Fewer than eleven tokens can never fill a template: the last identifier
      slot reads the empty string, so matching stops with SY01 or AC04. */
  lemma ShortTemplateFails(kind: Direction, tokens: seq<string>)
    requires |tokens| <= 10
    ensures MatchTemplate(kind, tokens).Err?
    ensures MatchTemplate(kind, tokens).error.code in {SY01, AC04}
  {
    var slots := Template(kind);
    TemplateIdSlots(kind);
    assert !SlotHolds(tokens, TemplateStart + 7, slots[7]);
    FailsIffSomeSlotFails(tokens, slots, 0);
  }

  /** Two token lists that differ only in the case of keyword, currency and
      verb tokens: the amount, both identifiers and the date token agree
      exactly. */
  predicate SameUpToKeywordCase(t1: seq<string>, t2: seq<string>)
  {
    && |t1| == |t2|
    && forall i | 0 <= i < |t1| ::
      && Upper(t1[i]) == Upper(t2[i])
      && (i == 1 || i == 5 || i == 10 || i == 12 ==> t1[i] == t2[i])
  }

  lemma {:induction false} FirstRejectionAgrees(t1: seq<string>, t2: seq<string>, slots: seq<Slot>, k: nat)
    requires k <= |slots|
    requires forall j | k <= j < |slots| ::
      SlotHolds(t1, TemplateStart + j, slots[j]) == SlotHolds(t2, TemplateStart + j, slots[j])
    ensures FirstRejection(t1, slots, k) == FirstRejection(t2, slots, k)
    decreases |slots| - k
  {
    if k < |slots| {
      FirstRejectionAgrees(t1, t2, slots, k + 1);
    }
  }

  /** Keywords match case-insensitively while identifiers keep their case:
      changing only the case of keywords changes nothing the matcher returns. */
  lemma MatchIgnoresKeywordCase(kind: Direction, t1: seq<string>, t2: seq<string>)
    requires SameUpToKeywordCase(t1, t2)
    ensures MatchTemplate(kind, t1) == MatchTemplate(kind, t2)
  {
    var slots := Template(kind);
    TemplateIdSlots(kind);
    SlotsIgnoreKeywordCase(t1, t2, slots);
    FirstRejectionAgrees(t1, t2, slots, 0);
    assert TokenAt(t1, 5) == TokenAt(t2, 5) && TokenAt(t1, 10) == TokenAt(t2, 10);
    assert ParseDateIfExists(t1, 11) == ParseDateIfExists(t2, 11) by {
      if 11 < |t1| {
        assert Upper(t1[11]) == Upper(t2[11]);
      }
    }
  }

  /** Slots whose identifiers sit at tokens 5 and 10 hold alike on token
      lists that differ only in keyword case. */
  lemma SlotsIgnoreKeywordCase(t1: seq<string>, t2: seq<string>, slots: seq<Slot>)
    requires SameUpToKeywordCase(t1, t2)
    requires forall j | 0 <= j < |slots| && slots[j].AccountId? :: j == 2 || j == 7
    ensures forall j | 0 <= j < |slots| ::
      SlotHolds(t1, TemplateStart + j, slots[j]) == SlotHolds(t2, TemplateStart + j, slots[j])
  {
    forall j | 0 <= j < |slots|
      ensures SlotHolds(t1, TemplateStart + j, slots[j]) == SlotHolds(t2, TemplateStart + j, slots[j])
    {
      var i := TemplateStart + j;
      if i < |t1| {
        assert Upper(t1[i]) == Upper(t2[i]);
      }
    }
  }

  /** The matcher reads nothing past token 10 except through the date
      clause: two token lists that agree on their first eleven tokens and on
      the clause match alike. */
  lemma MatchReadsElevenTokens(kind: Direction, t1: seq<string>, t2: seq<string>)
    requires |t1| >= 11 && |t2| >= 11 && t1[..11] == t2[..11]
    requires ParseDateIfExists(t1, 11) == ParseDateIfExists(t2, 11)
    ensures MatchTemplate(kind, t1) == MatchTemplate(kind, t2)
  {
    var slots := Template(kind);
    TemplateIdSlots(kind);
    forall i | 0 <= i < 11 ensures TokenAt(t1, i) == TokenAt(t2, i) {
      assert t1[i] == t1[..11][i] && t2[i] == t2[..11][i];
    }
    FirstRejectionAgrees(t1, t2, slots, 0);
  }
}
