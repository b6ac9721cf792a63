/** Validation of the instruction's fields: the amount, the currency and the
    account identifiers, each checked character by character. */
module Fields {
  import opened Domain
  import opened Decimal

  /** The only currencies an instruction or an account may use. */
  const SupportedCurrencies: seq<string> := ["NGN", "USD", "GBP", "GHS"]

  predicate IsSupportedCurrency(code: string)
  {
    code in SupportedCurrencies
  }

  /** The scan of `s[i..]` for a character outside '0'..'9'. */
  predicate DigitsFrom(s: string, i: nat)
    requires i <= |s|
    ensures DigitsFrom(s, i) <==> forall j | i <= j < |s| :: IsDigit(s[j])
    decreases |s| - i
  {
    i == |s| || (IsDigit(s[i]) && DigitsFrom(s, i + 1))
  }

  /** `isPositiveIntegerString`: a non-empty run of ASCII digits. The name
      notwithstanding, "0" and leading zeros are accepted; the explicit test
      for '.' and '-' is subsumed by the digit scan. */
  predicate IsPositiveIntegerString(s: string)
    ensures IsPositiveIntegerString(s) <==> |s| > 0 && IsDigits(s)
  {
    |s| > 0 && '.' !in s && '-' !in s && DigitsFrom(s, 0)
  }

  /** A character allowed in an account identifier. */
  predicate IsIdChar(c: char)
  {
    ('a' <= c <= 'z') || ('A' <= c <= 'Z') || ('0' <= c <= '9') || c == '-' || c == '.' || c == '@'
  }

  /** The scan of `id[i..]` for a character not allowed in an identifier. */
  predicate IdCharsFrom(id: string, i: nat)
    requires i <= |id|
    ensures IdCharsFrom(id, i) <==> forall j | i <= j < |id| :: IsIdChar(id[j])
    decreases |id| - i
  {
    i == |id| || (IsIdChar(id[i]) && IdCharsFrom(id, i + 1))
  }

  /** `isValidAccountId`: non-empty, and made only of ASCII letters, ASCII
      digits, '-', '.' and '@'. */
  predicate IsValidAccountId(id: string)
    ensures IsValidAccountId(id) <==> |id| > 0 && forall j | 0 <= j < |id| :: IsIdChar(id[j])
  {
    |id| > 0 && IdCharsFrom(id, 0)
  }

  /** The amount a valid amount token stands for: `parseInt(token, 10)`. */
  function AmountValue(token: string): (amount: nat)
    requires IsPositiveIntegerString(token)
    ensures ParseInt(token) == Some(amount)
  {
    ParseIntOfDigits(token);
    DecimalValue(token)
  }
}
