/** Shared vocabulary of the payment instruction processor: the wrappers used
    for optional and failing values, the request records, the response body and
    the closed taxonomy of status codes. */
module Domain {

  /** A value that may be absent; `None` plays the part of JavaScript's `null`. */
  datatype Option<+T> = None | Some(value: T)

  /** The outcome of a stage that can reject its input. */
  datatype Result<+T, +E> = Ok(value: T) | Err(error: E)

  /** Which side the instruction names first. */
  datatype Direction = Debit | Credit

  /** The fixed set of status codes a response can carry. */
  datatype Code =
    | SY01  // missing or out-of-place keyword
    | SY03  // malformed instruction
    | AM01  // amount is not a digit string
    | CU01  // debit and credit account currencies differ
    | CU02  // unsupported currency
    | AC01  // insufficient funds
    | AC02  // debit and credit account are the same
    | AC03  // account not found
    | AC04  // account identifier has a disallowed character
    | DT01  // malformed date clause
    | AP00  // executed
    | AP02  // scheduled for later

  datatype Status = Failed | Pending | Successful

  /** An account record as the caller supplies it. */
  datatype Account = Account(id: string, balance: int, currency: string)

  /** An account as reported back: balance after and before the instruction. */
  datatype AccountView = AccountView(id: string, balance: int, balanceBefore: int, currency: string)

  /** The fields of the instruction echoed in the response; each stays `None`
      until parsing has got that far. `kind` is the response's `type`. */
  datatype Echo = Echo(
    kind: Option<string>,
    amount: Option<nat>,
    currency: Option<string>,
    debitAccount: Option<string>,
    creditAccount: Option<string>,
    executeBy: Option<string>)

  datatype Body = Body(echo: Echo, status: Status, reason: string, code: Code, accounts: seq<AccountView>)

  datatype Response = Response(httpStatus: int, body: Body)

  const NoEcho := Echo(None, None, None, None, None, None)

  const MalformedReason := "Malformed instruction"

  /** The response every early rejection starts from: nothing echoed, no accounts. */
  const Malformed := Response(400, Body(NoEcho, Failed, MalformedReason, SY03, []))

  /** ASCII upper-casing of one character. */
  function UpperChar(c: char): (u: char)
    ensures 'a' <= c <= 'z' ==> u as int == c as int - 32
    ensures !('a' <= c <= 'z') ==> u == c
  {
    if 'a' <= c <= 'z' then (c as int - 32) as char else c
  }

  /** `toUpperCase`, restricted to ASCII letters. */
  function Upper(s: string): (u: string)
    ensures |u| == |s|
    ensures forall i | 0 <= i < |s| :: u[i] == UpperChar(s[i])
  {
    seq(|s|, i requires 0 <= i < |s| => UpperChar(s[i]))
  }

  /** Two characters that are equal, or the same ASCII letter in different case. */
  predicate SameLetterIgnoringCase(c: char, d: char)
  {
    || c == d
    || ('a' <= c <= 'z' && d as int == c as int - 32)
    || ('a' <= d <= 'z' && c as int == d as int - 32)
  }

  /** Upper-casing leaves no ASCII lower-case letter behind, and a second
      pass changes nothing. */
  lemma UpperIdempotent(s: string)
    ensures forall i | 0 <= i < |Upper(s)| :: !('a' <= Upper(s)[i] <= 'z')
    ensures Upper(Upper(s)) == Upper(s)
  {
    var u := Upper(s);
    assert forall i | 0 <= i < |u| :: UpperChar(u[i]) == u[i];
  }

  /** Two characters upper-case alike exactly when they are the same letter
      up to ASCII case. */
  lemma UpperCharEquality(c: char, d: char)
    ensures UpperChar(c) == UpperChar(d) <==> SameLetterIgnoringCase(c, d)
  {
  }

  /** Two texts upper-case alike exactly when they have the same length and
      agree position by position up to ASCII case: this is what comparing a
      token with a keyword after upper-casing it accepts. */
  lemma UpperEquality(a: string, b: string)
    ensures Upper(a) == Upper(b) <==>
      |a| == |b| && forall i | 0 <= i < |a| :: SameLetterIgnoringCase(a[i], b[i])
  {
    if |a| == |b| {
      forall i | 0 <= i < |a|
        ensures Upper(a)[i] == Upper(b)[i] <==> SameLetterIgnoringCase(a[i], b[i])
      {
        UpperCharEquality(a[i], b[i]);
      }
      if forall i | 0 <= i < |a| :: SameLetterIgnoringCase(a[i], b[i]) {
        assert forall i | 0 <= i < |a| :: Upper(a)[i] == Upper(b)[i];
      }
    }
  }

  /** The report of an account whose balance does not move. */
  function Unchanged(a: Account): AccountView
  {
    AccountView(a.id, a.balance, a.balance, Upper(a.currency))
  }

  /** A failed response with the given echo; every failure maps to 400. */
  function Reject(echo: Echo, code: Code, reason: string, views: seq<AccountView>): Response
  {
    Response(400, Body(echo, Failed, reason, code, views))
  }
}
