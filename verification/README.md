# Payment instruction parser — a Dafny model

This project models `parseInstruction`, the service behind the payment
instructions endpoint. It turns a one-line English-like instruction into a
response:

    DEBIT <amount> <currency> FROM ACCOUNT <id> FOR CREDIT TO ACCOUNT <id> [ON YYYY-MM-DD]
    CREDIT <amount> <currency> TO ACCOUNT <id> FOR DEBIT FROM ACCOUNT <id> [ON YYYY-MM-DD]

It checks the instruction against a caller-supplied list of accounts. The
result is either a rejection (HTTP 400 with a status code such as SY01, AM01,
CU02, AC03) or an accepted transfer (HTTP 200). An accepted transfer is
executed at once (AP00, balances moved) or scheduled for a later date (AP02,
balances untouched).

The model follows the stages of the source:

| module | file | stage |
|---|---|---|
| `Domain` | domain.dfy | accounts, account views, status codes, the response shape, ASCII upper-casing |
| `JsText` | js_text.dfy | JavaScript `trim` (whitespace and line terminators) and the code-unit string order `<` |
| `Decimal` | decimal.dfy | decimal digit strings, `String(n)`, `padStart`, and an exact `parseInt(s, 10)` (`None` stands for `NaN`) |
| `Tokenizer` | tokenizer.dfy | trim, split on the space character, drop empty pieces |
| `Fields` | fields.dfy | the amount and account-id character checks, and the supported currency list NGN, USD, GBP, GHS |
| `Dates` | dates.dfy | the optional `ON <date>` clause, the rebuilt `YYYY-MM-DD` string, and the date comparison |
| `Grammar` | grammar.dfy | the two keyword templates as slot tables, walked left to right by a cursor |
| `Validator` | validator.dfy | account lookup, the ordered AC03/CU01/CU02/AC02/AC01 checks, and the capped account listings |
| `Resolver` | resolver.dfy | pending against executed, and the balance movement |
| `PaymentProcessor` | payment_processor.dfy | the whole pipeline `ParseInstruction(instruction, accounts, today)` and its end-to-end properties |
| `Examples` | examples.dfy | the repository's test scenarios, proved on the model |

The clock is not modelled. Today's date is an explicit `today` parameter,
written in the same `YYYY-MM-DD` form the service builds from the UTC clock.

The source differs from the grammar above in four places, and the model follows the source:
- `trim()` removes every JavaScript whitespace and line-terminator character at
  both ends, not only spaces. Only the space character separates tokens.
- The amount check accepts `0` and digit strings with leading zeros. The
  amount is the decimal value of the digits.
- A date token such as `-001-01-01` is accepted. Its year parses as `-1`, and
  the service re-emits it as `00-1-01-01`, which is not a canonical date.
  `Dates.AcceptedDateShape` states that the rebuilt date is canonical exactly
  when the parsed year is not negative.
- Each date field is read like `parseInt`, which stops at the first character
  that is not a digit. A token such as `2026-1x-01` is therefore accepted and
  re-emitted as `2026-01-01` (`Examples.LenientDateField`).

## Model

| member | source | states |
|---|---|---|
| PaymentProcessor.ParseInstruction | services/payment-processor/parse-instruction.js:68-457 | the whole pipeline from instruction text to response; its meaning is stated by `ResponseInvariants`, `ShortOrUnknownIsMalformed`, `WrittenWords`, `CaseInsensitiveKeywords` and the stage lemmas below |
| Tokenizer.Tokenize | services/payment-processor/parse-instruction.js:88-94 | trim, split on spaces and drop empty pieces; `TokensAreWords` and `TokenizeJoin` state what it returns |
| JsText.Trim | services/payment-processor/parse-instruction.js:89 | JavaScript `trim`; `TrimIsMaximal` and `TrimOfTrimmed` state what it returns |
| Decimal.ParseInt | services/payment-processor/parse-instruction.js:41-43 | `parseInt(s, 10)` with `None` for NaN; `DigitPrefix`, `ParseIntBound`, `ParseIntOfDigits` and `ParseIntOfNegative` state what it returns |
| Dates.ParseDate | services/payment-processor/parse-instruction.js:36-50 | reads a date token, and never returns an absent clause; `AcceptedDateShape` and `CanonicalDateRoundTrip` state which tokens it accepts and what it rebuilds |
| Dates.ParseDateIfExists | services/payment-processor/parse-instruction.js:31-51 | the optional date clause; `DateClauseDecides`, `DateClauseOutcome` and `TrailingTokensIgnored` state its effect |
| Grammar.MatchTemplate | services/payment-processor/parse-instruction.js:155-277 | the keyword-template walk; `FailsIffSomeSlotFails`, `FirstFailureWins`, `DateClauseDecides`, `MatchedRoute` and `MatchIgnoresKeywordCase` state what it returns |
| Validator.FindAccount | services/payment-processor/parse-instruction.js:287-293 | the account lookup; `FindAccountIsFirstMatch` states what it returns |
| Validator.Collect | services/payment-processor/parse-instruction.js:301-313 | the capped listing loop; `CollectTakesSelected`, `CollectBound` and `UnchangedListing` state what it returns |
| Validator.Validate | services/payment-processor/parse-instruction.js:287-394 | the ordered account checks; `ValidationOrder` and `FailureViews` state what it returns |
| Resolver.Resolve | services/payment-processor/parse-instruction.js:396-454 | pending or executed; `PendingIffFuture`, `PendingTransfer` and `ExecutedTransfer` state what it returns |
| Domain.UpperIdempotent | services/payment-processor/parse-instruction.js:101 | upper-casing leaves no ASCII lower-case letter, and upper-casing again changes nothing |
| Domain.UpperCharEquality | services/payment-processor/parse-instruction.js:101 | two characters upper-case alike exactly when they are equal or the same ASCII letter in different case |
| Domain.UpperEquality | services/payment-processor/parse-instruction.js:101 | two texts upper-case alike exactly when they have the same length and agree at every position up to ASCII case, which is what a keyword comparison after `toUpperCase` accepts |
| JsText.TrimIsMaximal | services/payment-processor/parse-instruction.js:89 | `trim` returns a contiguous slice of the input; everything removed before and after it is whitespace; the slice neither starts nor ends with whitespace |
| JsText.TrimOfTrimmed | services/payment-processor/parse-instruction.js:89 | `trim` leaves text that does not start or end with whitespace unchanged |
| JsText.LessIrreflexive | services/payment-processor/parse-instruction.js:64 | no string is below itself under `<` |
| JsText.LessTransitive | services/payment-processor/parse-instruction.js:64 | the string order `<` is transitive |
| JsText.LessTrichotomy | services/payment-processor/parse-instruction.js:61-66 | for any two strings exactly one of equal, below or above holds, so the comparison is total |
| JsText.LessAppend | services/payment-processor/parse-instruction.js:64 | for equal-length prefixes, the order of two concatenations is decided by the prefixes first and then by the rest |
| Decimal.ToDecimal | services/payment-processor/parse-instruction.js:49 | `String(n)` of a non-negative integer is a non-empty digit string whose value is `n`, with no leading zero, and is exactly `0` for zero: the shortest decimal form |
| Decimal.PadStart | services/payment-processor/parse-instruction.js:49 | `padStart` reaches the requested width only when the text is shorter; the original text is the suffix and only fill characters come before it |
| Decimal.DigitPrefix | services/payment-processor/parse-instruction.js:41-43 | the digits `parseInt` reads are the longest run of digits at the front of the text |
| Decimal.ParseIntBound | services/payment-processor/parse-instruction.js:41-43 | a number parsed from `n` characters is below `10^n`, and a negative one uses a character for its sign |
| Decimal.ParseIntOfDigits | services/payment-processor/parse-instruction.js:116 | `parseInt` of a digit string is its decimal value |
| Decimal.ParseIntOfNegative | services/payment-processor/parse-instruction.js:41 | `parseInt` of a minus sign followed by digits is the negated decimal value |
| Decimal.DecimalValueInjective | services/payment-processor/parse-instruction.js:49 | two digit strings of the same width with the same value are equal |
| Decimal.LessIsNumeric | services/payment-processor/parse-instruction.js:61-66 | for digit strings of equal width, the string order is the numeric order |
| Decimal.PadRoundTrip | services/payment-processor/parse-instruction.js:49 | zero-padding the printed value of a digit string back to its width gives the string back |
| Tokenizer.Split | services/payment-processor/parse-instruction.js:89 | `split(' ')` gives at least one piece, no piece contains a space, and joining the pieces with single spaces gives the text back |
| Tokenizer.SplitJoin | services/payment-processor/parse-instruction.js:89 | splitting inverts joining, for pieces without spaces |
| Tokenizer.DropEmptyAppend | services/payment-processor/parse-instruction.js:90-94 | a single piece is kept exactly when it is non-empty, and dropping distributes over concatenation, so every non-empty piece is kept, in order, repeats included |
| Tokenizer.DropEmptyOfWords | services/payment-processor/parse-instruction.js:90-94 | dropping empty pieces changes nothing when there are none |
| Tokenizer.TokensAreWords | services/payment-processor/parse-instruction.js:88-94 | every token is non-empty and contains no space |
| Tokenizer.TokenizeJoin | services/payment-processor/parse-instruction.js:88-94 | tokenizing words written with single spaces gives back the same words: tokenizing is the inverse of writing an instruction out |
| Fields.IsPositiveIntegerString | services/payment-processor/parse-instruction.js:7-17 | an amount token is accepted exactly when it is non-empty and made only of the digits 0-9, so any sign or point rejects it |
| Fields.IsValidAccountId | services/payment-processor/parse-instruction.js:19-29 | an account id is accepted exactly when it is non-empty and every character is an ASCII letter, a digit, `-`, `.` or `@` |
| Fields.AmountValue | services/payment-processor/parse-instruction.js:116 | for an accepted amount token, `parseInt` gives the non-negative amount |
| Dates.PaddedField | services/payment-processor/parse-instruction.js:49 | a value below `10^w`, printed and padded to width `w`, is a digit string of exactly that width with the same value |
| Dates.AcceptedDateShape | services/payment-processor/parse-instruction.js:36-50 | only a ten-character token with `-` at positions 4 and 7 is accepted, so every other form is DT01; the rebuilt date has `-` at positions 4 and 7, a two-digit month in 1-12 and a two-digit day in 1-31 equal to the parsed fields, and is canonical exactly when the parsed year is not negative, in which case its year is the parsed year |
| Dates.IsoShape | services/payment-processor/parse-instruction.js:49 | the rebuilt date string is ten characters with month and day zero-padded to two digits, and is a canonical date exactly for non-negative years |
| Dates.YearWithSign | services/payment-processor/parse-instruction.js:49 | a negative year prints as four characters that are not all digits |
| Dates.CanonicalDateRoundTrip | services/payment-processor/parse-instruction.js:38-50 | a canonical `YYYY-MM-DD` token is accepted unchanged when its month is in 1-12 and its day in 1-31, and is an invalid date otherwise |
| Dates.ReparseAcceptedDate | services/payment-processor/parse-instruction.js:38-50 | parsing the rebuilt date of an accepted token with a non-negative year gives the same date again |
| Dates.CompareDateStrings | services/payment-processor/parse-instruction.js:61-66 | the comparison gives 0 exactly for equal strings, -1 exactly when the first is below, and 1 exactly when it is above |
| Dates.CanonicalOrderIsCalendarOrder | services/payment-processor/parse-instruction.js:61-66 | for canonical dates, string order is the calendar order of (year, month, day) |
| Grammar.FirstRejection | services/payment-processor/parse-instruction.js:155-277 | a keyword or identifier failure inside the template is reported only as SY01 or AC04 |
| Grammar.FailsIffSomeSlotFails | services/payment-processor/parse-instruction.js:155-277 | the template walk fails exactly when some slot fails |
| Grammar.FirstFailureWins | services/payment-processor/parse-instruction.js:155-277 | when slot `j` fails and every earlier slot holds, the walk reports slot `j`'s code and reason, so the first mismatch in template order wins |
| Grammar.DateClauseDecides | services/payment-processor/parse-instruction.js:207-217 | once every slot held, matching fails exactly for an invalid date clause, and then with DT01 and "Invalid date format"; otherwise the route carries the clause's date, or none when the clause is absent |
| Grammar.TemplateIdSlots | services/payment-processor/parse-instruction.js:155-277 | each template has eight slots, with exactly one identifier slot per side at positions 2 and 7 |
| Grammar.MatchedRoute | services/payment-processor/parse-instruction.js:155-217 | a matched template had every slot hold, both ids are valid, and the debit and credit ids are the tokens at positions 5 and 10, swapped for CREDIT instructions |
| Grammar.ShortTemplateFails | services/payment-processor/parse-instruction.js:155-277 | with ten tokens or fewer the template cannot match, and matching stops with SY01 or AC04 |
| Grammar.FirstRejectionAgrees | services/payment-processor/parse-instruction.js:155-277 | two token lists whose slots hold at the same positions get the same rejection |
| Grammar.SlotsIgnoreKeywordCase | services/payment-processor/parse-instruction.js:155-277 | keyword slots hold alike on token lists that differ only in keyword case, since identifiers sit at fixed positions that keep their text |
| Grammar.MatchIgnoresKeywordCase | services/payment-processor/parse-instruction.js:155-277 | changing only the case of keywords leaves the matcher's result unchanged |
| Validator.FindAccountIsFirstMatch | services/payment-processor/parse-instruction.js:287-293 | the lookup fails exactly when no account has the id, and otherwise returns the first account in request order with that id |
| Validator.CollectTakesSelected | services/payment-processor/parse-instruction.js:131-143 | the capped listing loop reports exactly the first `limit` selected accounts in request order |
| Validator.UnchangedListing | services/payment-processor/parse-instruction.js:301-313 | a listing of untouched accounts reports each with its balance equal to its balance before |
| Validator.CollectBound | services/payment-processor/parse-instruction.js:312 | a capped listing reports at most `limit` accounts |
| Validator.ValidationOrder | services/payment-processor/parse-instruction.js:295-394 | AC03, CU01, CU02, AC02 and AC01 are each returned exactly when their check fails and every earlier one passes; validation succeeds exactly when all pass, with the first accounts carrying the two ids |
| Validator.FailureViews | services/payment-processor/parse-instruction.js:297-394 | a failed validation reports at most two accounts with unmoved balances: for AC03 the first two accounts named by either id; for AC02 the debit account only; otherwise both found accounts |
| Resolver.PendingIffFuture | services/payment-processor/parse-instruction.js:396-432 | the outcome is pending exactly when there is a date strictly after today; a pending outcome moves no balance and lists the first two accounts named by either side, in request order; every other outcome is executed |
| Resolver.PendingTransfer | services/payment-processor/parse-instruction.js:398-421 | with unique ids, a pending outcome lists exactly the debit and credit accounts, unchanged, in request order |
| Resolver.SkipUnselected | services/payment-processor/parse-instruction.js:433-452 | accounts the listing does not select are skipped without using up the cap |
| Resolver.CollectTwo | services/payment-processor/parse-instruction.js:433-452 | when exactly two accounts are selected, the listing reports both, in request order |
| Resolver.ExecutedTransfer | services/payment-processor/parse-instruction.js:425-454 | with unique ids, executing reports exactly the two accounts, in request order, with the debit one lowered and the credit one raised by the amount; the total balance is unchanged |
| PaymentProcessor.ShortOrUnknownIsMalformed | services/payment-processor/parse-instruction.js:84-104 | the result is SY03 exactly when there are fewer than seven tokens or the verb is neither DEBIT nor CREDIT, and then the response is the blank malformed-instruction template |
| PaymentProcessor.WrittenWords | services/payment-processor/parse-instruction.js:84-99 | an instruction written as words joined by single spaces is processed as exactly those tokens |
| PaymentProcessor.NeverMalformedPastHeader | services/payment-processor/parse-instruction.js:106-454 | once the header is accepted, the response is never the generic SY03 |
| PaymentProcessor.AmountAcceptance | services/payment-processor/parse-instruction.js:109-117 | AM01 is returned exactly when the amount token is not a non-empty digit string, with only the type echoed; otherwise the echoed amount is the token's decimal value |
| PaymentProcessor.UnsupportedInstructionCurrency | services/payment-processor/parse-instruction.js:119-146 | an unsupported currency gives CU02 with the type, amount and upper-cased currency echoed, and lists the first two supplied accounts with a non-empty id, unchanged, in request order |
| PaymentProcessor.SuppliedIds | services/payment-processor/parse-instruction.js:134 | the CU02 listing only reports accounts with a non-empty id |
| PaymentProcessor.RejectionCodes | services/payment-processor/parse-instruction.js:155-277 | a grammar failure is always SY01, AC04 or DT01 |
| PaymentProcessor.KeywordOrder | services/payment-processor/parse-instruction.js:155-277 | when slot `j` is the first to fail, the response is SY01 for a keyword slot or AC04 for an identifier slot, with that slot's reason and no accounts |
| PaymentProcessor.ShortInstructionFailsInGrammar | services/payment-processor/parse-instruction.js:96-277 | an instruction of ten tokens or fewer always fails, and once the amount and currency are accepted it fails with SY01 or AC04 |
| Grammar.MatchReadsElevenTokens | services/payment-processor/parse-instruction.js:207-217 | token lists that agree on their first eleven tokens and on the date clause get the same match result |
| PaymentProcessor.TrailingTokensIgnored | services/payment-processor/parse-instruction.js:207-217 | tokens after the date clause are never read: without a clause the response is that of the first eleven tokens, and with an `ON` clause that of the first thirteen |
| PaymentProcessor.DateClauseOutcome | services/payment-processor/parse-instruction.js:207-217 | after a complete template, DT01 is returned exactly when the date clause is invalid, with no accounts and neither party echoed, which includes `ON` as the last token; an absent clause echoes no date and a present one echoes the rebuilt date |
| PaymentProcessor.SettleCodes | services/payment-processor/parse-instruction.js:295-454 | past parsing, both parties are echoed; a failed validation is returned as it is, with one of AC03, CU01, CU02, AC02, AC01; a passed one is HTTP 200 with AP00 or AP02, pending exactly for AP02 |
| PaymentProcessor.ValidationStage | services/payment-processor/parse-instruction.js:282-394 | for a parsed instruction the response echoes all fields, carries the validator's code, reason and accounts when it fails, and is HTTP 200 with AP00 or AP02 otherwise |
| PaymentProcessor.PendingStage | services/payment-processor/parse-instruction.js:396-432 | a validated instruction is AP02 exactly when its date is strictly after today, and then no balance moves and the first two accounts named by either side are listed unchanged in request order, which with unique ids are exactly the debit and credit accounts; otherwise it is AP00 and successful |
| PaymentProcessor.SettlePending | services/payment-processor/parse-instruction.js:396-432 | the same as `PendingStage`, for the settlement step on its own |
| PaymentProcessor.ExecutedStage | services/payment-processor/parse-instruction.js:425-454 | an executed instruction reports the debit and credit accounts with the amount moved between them, ordered as in the request, and the total balance is unchanged |
| PaymentProcessor.SettleExecuted | services/payment-processor/parse-instruction.js:425-454 | the same as `ExecutedStage`, for the settlement step on its own |
| PaymentProcessor.ResponseInvariants | services/payment-processor/parse-instruction.js:68-454 | for every input: HTTP 400 exactly for failures and 200 otherwise; at most two accounts; balances move only on success; AP00 exactly for successful and AP02 exactly for pending |
| PaymentProcessor.CaseInsensitiveKeywords | services/payment-processor/parse-instruction.js:101-277 | two instructions that differ only in the case of the verb, the currency and the keywords get the same response |
| Examples.ImmediateDebit | test/parse-instruction.spec.js:5-26 | the immediate DEBIT of 500 USD is AP00, with N90394 going from 1000 to 500 and N9122 from 500 to 1000 |
| Examples.FarFutureDate | test/parse-instruction.spec.js:34 | 2999-12-31 is an accepted date and lies after 2026-10-09 |
| Examples.FutureCreditIsPending | test/parse-instruction.spec.js:28-44 | the CREDIT dated after today is AP02 with both balances unchanged and the date echoed |
| Examples.CurrencyMismatch | test/parse-instruction.spec.js:46-58 | a USD and a GBP account give CU01 with HTTP 400 and both accounts reported unchanged |
| Examples.NegativeAmount | test/parse-instruction.spec.js:60-72 | the amount `-100` gives AM01 |
| Examples.UnknownVerb | test/parse-instruction.spec.js:74-86 | `SEND 100 USD TO ACCOUNT b` gives the malformed-instruction response |
| Examples.DecimalAmount | test/parse-instruction.edge.spec.js:13-25 | the amount `100.50` gives AM01 |
| Examples.SameAccount | test/parse-instruction.edge.spec.js:27-36 | the same id on both sides, with one account supplied, gives AC02 and reports that account once |
| Examples.DatedTodayExecutes | test/parse-instruction.edge.spec.js:38-51 | an instruction dated today is executed at once (AP00) |
| Examples.LowerCaseWithSymbols | test/parse-instruction.edge.spec.js:53-65 | a lower-case CREDIT with ids containing `@`, `.` and `-` is AP00 with 100 GBP moved from xyz-01 to abc@bank.com |
| Examples.NoDaysPerMonth | services/payment-processor/parse-instruction.js:46-49 | 2026-02-31 is accepted: the day is checked only against 1-31 |
| Examples.LenientDateField | services/payment-processor/parse-instruction.js:41-43 | the token `2026-1x-01` is accepted and re-emitted as `2026-01-01`, because the month field is read like `parseInt` |
| Examples.NegativeYearText | services/payment-processor/parse-instruction.js:38-50 | the token `-001-01-01` is accepted, its year read as -1, and rebuilt as `00-1-01-01` |

## Left out

- The clock: `todayUTCDateString` (lines 53-59) is replaced by the `today` parameter.
- The HTTP endpoint (endpoints/payment-instructions/process.js) and the request's dynamic typing: the instruction is a string and each account is a record with a string id, an integer balance and a string currency. A missing or non-string instruction is modelled by the empty string. Missing ids and currencies are modelled by the empty string, which the source's `a && a.id` and `a.currency || ''` guards treat the same way.
- `async` and the `try`/`catch` at lines 154 and 278-280: no statement inside the block can throw once tokens are non-empty strings, so the catch branch is not modelled.
- The `Missing currency` branch (lines 120-124): it cannot be reached, because there are at least seven tokens and none is empty.
- The `nextIdx` field of the date parser's result: nothing reads it after the date clause.
- Characters: strings are sequences of Dafny characters. JavaScript measures and compares UTF-16 code units, so the model is exact for text in the Basic Multilingual Plane.
- `Domain.Upper`: models `toUpperCase` for ASCII letters only. Non-ASCII letters, such as `ß` becoming `SS`, are left as they are.
- Numbers: amounts and balances are unbounded integers. Double-precision rounding of very large amounts is not modelled.
- `PaymentProcessor.ExecutedStage`: requires unique account ids. With duplicate ids the source reports every copy until it has two, each with the first copy's new balance, and the total is then not preserved.
- `Resolver.ExecutedTransfer`: requires unique account ids, for the same reason as `ExecutedStage`.
- `PaymentProcessor.SettleExecuted`: requires unique account ids, for the same reason: with duplicate ids every copy is reported, each with the first copy's new balance, so the total is not preserved.
- `Examples.ImmediateDebit`: like the other end-to-end examples, it is stated on the instruction written as its words joined by single spaces (`Join(words)`). It is not stated on the literal string.
- `Examples.FutureCreditIsPending`: states the pending outcome for any accepted date after `today`. `Examples.FarFutureDate` shows that 2999-12-31 is such a date for 2026-10-09.
- `Examples.DatedTodayExecutes`: states the result for any accepted canonical date used as both the clause and `today`.
