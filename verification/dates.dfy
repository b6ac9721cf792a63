/** The optional `ON YYYY-MM-DD` clause and the comparison of date strings. */
module Dates {
  import opened Domain
  import opened JsText
  import opened Decimal

  /** What `parseDateIfExists` finds at the cursor: no clause, a clause that
      does not parse, or a date re-emitted in ISO form. */
  datatype DateClause = Absent | Invalid | Present(iso: string)

  /** The ISO text for a parsed year, month and day, each zero-padded. */
  function Iso(year: int, month: int, day: int): string
  {
    PadStart(IntToString(year), 4, '0') + "-" + PadStart(IntToString(month), 2, '0')
      + "-" + PadStart(IntToString(day), 2, '0')
  }

  /** The date token after `ON`: ten characters with '-' at indices 4 and 7;
      the three fields are read with `parseInt`, the month must lie in 1..12
      and the day in 1..31 whatever the month. */
  function ParseDate(token: string): (r: DateClause)
    ensures r != Absent
  {
    if |token| != 10 then Invalid
    else if token[4] != '-' || token[7] != '-' then Invalid
    else DateFromFields(ParseInt(token[0..4]), ParseInt(token[5..7]), ParseInt(token[8..10]))
  }

  /** The range checks on the three numbers read; `None` is NaN. */
  function DateFromFields(year: Option<int>, month: Option<int>, day: Option<int>): DateClause
  {
    if year.None? || month.None? || day.None? then Invalid
    else if month.value < 1 || month.value > 12 then Invalid
    else if day.value < 1 || day.value > 31 then Invalid
    else Present(Iso(year.value, month.value, day.value))
  }

  /** `parseDateIfExists(tokens, idx)`; a missing token reads as absent. */
  function ParseDateIfExists(tokens: seq<string>, idx: nat): DateClause
  {
    if idx >= |tokens| then Absent
    else if Upper(tokens[idx]) != "ON" then Absent
    else if idx + 1 >= |tokens| || tokens[idx + 1] == "" then Invalid
    else ParseDate(tokens[idx + 1])
  }

  /** Text in the canonical `YYYY-MM-DD` form, digits in every field. */
  predicate IsCanonicalDate(s: string)
  {
    && |s| == 10 && s[4] == '-' && s[7] == '-'
    && IsDigits(s[0..4]) && IsDigits(s[5..7]) && IsDigits(s[8..10])
  }

  function YearOf(s: string): nat
    requires IsCanonicalDate(s)
  {
    DecimalValue(s[0..4])
  }

  function MonthOf(s: string): nat
    requires IsCanonicalDate(s)
  {
    DecimalValue(s[5..7])
  }

  function DayOf(s: string): nat
    requires IsCanonicalDate(s)
  {
    DecimalValue(s[8..10])
  }

  /** A number of at most w digits, zero-padded to w. */
  lemma PaddedField(n: nat, w: nat)
    requires 1 <= w && n < Pow10(w)
    ensures var f := PadStart(ToDecimal(n), w, '0');
      |f| == w && IsDigits(f) && DecimalValue(f) == n
  {
    var t := ToDecimal(n);
    ToDecimalWidth(n, w);
    var f := PadStart(t, w, '0');
    var z := f[..|f| - |t|];
    assert f == z + t;
    LeadingZeros(z, t);
  }

  /** Only a ten-character token with '-' at indices 4 and 7 is accepted,
      and every accepted date is re-emitted as ten characters with '-' at
      indices 4 and 7, a two-digit month in 1..12 and a two-digit day in
      1..31 equal to the values read from the token; when the year read is
      not negative the whole text is canonical and its year is that year. */
  lemma AcceptedDateShape(token: string)
    requires ParseDate(token).Present?
    ensures |token| == 10 && token[4] == '-' && token[7] == '-'
    ensures var iso := ParseDate(token).iso;
      && |iso| == 10 && iso[4] == '-' && iso[7] == '-'
      && IsDigits(iso[5..7]) && Some(DecimalValue(iso[5..7]) as int) == ParseInt(token[5..7])
      && IsDigits(iso[8..10]) && Some(DecimalValue(iso[8..10]) as int) == ParseInt(token[8..10])
      && 1 <= DecimalValue(iso[5..7]) <= 12 && 1 <= DecimalValue(iso[8..10]) <= 31
      && (ParseInt(token[0..4]).value >= 0 <==> IsCanonicalDate(iso))
      && (IsCanonicalDate(iso) ==> Some(YearOf(iso) as int) == ParseInt(token[0..4]))
  {
    var py, pm, pd := ParseInt(token[0..4]), ParseInt(token[5..7]), ParseInt(token[8..10]);
    assert ParseDate(token) == DateFromFields(py, pm, pd);
    ParseIntBound(token[0..4]);
    IsoShape(py.value, pm.value, pd.value);
  }

  /** The ISO text of a year of at most four characters, a month in 1..12
      and a day in 1..31. */
  lemma IsoShape(year: int, month: int, day: int)
    requires 0 <= year < 10000 || (year < 0 && -year < 1000)
    requires 1 <= month <= 12 && 1 <= day <= 31
    ensures var iso := Iso(year, month, day);
      && |iso| == 10 && iso[4] == '-' && iso[7] == '-'
      && IsDigits(iso[5..7]) && DecimalValue(iso[5..7]) == month
      && IsDigits(iso[8..10]) && DecimalValue(iso[8..10]) == day
      && (year >= 0 <==> IsCanonicalDate(iso))
      && (IsCanonicalDate(iso) ==> YearOf(iso) == year)
  {
    var y := PadStart(IntToString(year), 4, '0');
    var m := PadStart(IntToString(month), 2, '0');
    var d := PadStart(IntToString(day), 2, '0');
    assert |m| == 2 && IsDigits(m) && DecimalValue(m) == month by {
      PaddedField(month, 2);
    }
    assert |d| == 2 && IsDigits(d) && DecimalValue(d) == day by {
      PaddedField(day, 2);
    }
    assert |y| == 4 && (year >= 0 ==> IsDigits(y) && DecimalValue(y) == year) && (year < 0 ==> !IsDigits(y)) by {
      if year >= 0 {
        PaddedField(year, 4);
      } else {
        YearWithSign(year);
      }
    }
    assert Iso(year, month, day) == y + "-" + m + "-" + d;
    JoinedFields(y, m, d, year, month, day);
  }

  /** Padded fields joined by '-': the month and the day read back, and the
      text is canonical exactly when the year field is all digits. */
  lemma JoinedFields(y: string, m: string, d: string, year: int, month: nat, day: nat)
    requires |y| == 4 && |m| == 2 && |d| == 2
    requires IsDigits(m) && DecimalValue(m) == month && IsDigits(d) && DecimalValue(d) == day
    requires year >= 0 ==> IsDigits(y) && DecimalValue(y) == year
    requires year < 0 ==> !IsDigits(y)
    ensures var iso := y + "-" + m + "-" + d;
      && |iso| == 10 && iso[4] == '-' && iso[7] == '-'
      && IsDigits(iso[5..7]) && DecimalValue(iso[5..7]) == month
      && IsDigits(iso[8..10]) && DecimalValue(iso[8..10]) == day
      && (year >= 0 <==> IsCanonicalDate(iso))
      && (IsCanonicalDate(iso) ==> YearOf(iso) == year)
  {
    DateFields(y, m, d);
  }

  /** A negative year of at most three digits pads to four characters that
      are not all digits. */
  lemma YearWithSign(year: int)
    requires year < 0 && -year < 1000
    ensures var y := PadStart(IntToString(year), 4, '0');
      |y| == 4 && !IsDigits(y)
  {
    ToDecimalWidth(-year, 3);
    var t := IntToString(year);
    var y := PadStart(t, 4, '0');
    assert y[4 - |t|] == t[0] == '-';
  }

  /** Four, two and two characters joined by '-' sit at the ISO positions. */
  lemma DateFields(y: string, m: string, d: string)
    requires |y| == 4 && |m| == 2 && |d| == 2
    ensures var s := y + "-" + m + "-" + d;
      && |s| == 10 && s[4] == '-' && s[7] == '-'
      && s[0..4] == y && s[5..7] == m && s[8..10] == d
  {
  }

  /** Ten characters with '-' at indices 4 and 7 are their fields joined by '-'. */
  lemma DateSplits(s: string)
    requires |s| == 10 && s[4] == '-' && s[7] == '-'
    ensures s == s[0..4] + "-" + s[5..7] + "-" + s[8..10]
  {
  }

  /** A token already in canonical form is accepted exactly when its month
      is in 1..12 and its day in 1..31, and is then re-emitted unchanged. */
  lemma CanonicalDateRoundTrip(token: string)
    requires IsCanonicalDate(token)
    ensures ParseDate(token) ==
      if 1 <= MonthOf(token) <= 12 && 1 <= DayOf(token) <= 31 then Present(token) else Invalid
  {
    DateSplits(token);
    DigitFields(token[0..4], token[5..7], token[8..10]);
  }

  /** The range checks on three digit fields of widths 4, 2 and 2: in range,
      the rebuilt date is the fields joined by '-'. */
  lemma DigitFields(y: string, m: string, d: string)
    requires |y| == 4 && |m| == 2 && |d| == 2 && IsDigits(y) && IsDigits(m) && IsDigits(d)
    ensures DateFromFields(ParseInt(y), ParseInt(m), ParseInt(d)) ==
      if 1 <= DecimalValue(m) <= 12 && 1 <= DecimalValue(d) <= 31 then Present(y + "-" + m + "-" + d) else Invalid
  {
    var year, month, day := DecimalValue(y), DecimalValue(m), DecimalValue(d);
    assert ParseInt(y) == Some(year) && ParseInt(m) == Some(month) && ParseInt(d) == Some(day) by {
      ParseIntOfDigits(y);
      ParseIntOfDigits(m);
      ParseIntOfDigits(d);
    }
    if 1 <= month <= 12 && 1 <= day <= 31 {
      assert Iso(year, month, day) == y + "-" + m + "-" + d by {
        FieldRoundTrip(y);
        FieldRoundTrip(m);
        FieldRoundTrip(d);
      }
    }
    RangeChecked(ParseInt(y), ParseInt(m), ParseInt(d), year, month, day, y + "-" + m + "-" + d);
  }

  /** `DateFromFields` on three numbers already read, with the rebuilt
      date named. */
  lemma RangeChecked(py: Option<int>, pm: Option<int>, pd: Option<int>, year: int, month: int, day: int, joined: string)
    requires py == Some(year) && pm == Some(month) && pd == Some(day)
    requires 1 <= month <= 12 && 1 <= day <= 31 ==> Iso(year, month, day) == joined
    ensures DateFromFields(py, pm, pd) == if 1 <= month <= 12 && 1 <= day <= 31 then Present(joined) else Invalid
  {
  }

  /** A digit field printed back at its own width is the field itself. */
  lemma FieldRoundTrip(s: string)
    requires IsDigits(s) && |s| >= 1
    ensures PadStart(IntToString(DecimalValue(s)), |s|, '0') == s
  {
    PadRoundTrip(s);
  }

  /** Accepting is idempotent: an accepted date with a non-negative year,
      parsed again, is accepted as itself. */
  lemma ReparseAcceptedDate(token: string)
    requires ParseDate(token).Present? && ParseInt(token[0..4]).value >= 0
    ensures ParseDate(ParseDate(token).iso) == ParseDate(token)
  {
    AcceptedDateShape(token);
    CanonicalDateRoundTrip(ParseDate(token).iso);
  }

  /** `compareDateStringsUTC`: -1, 0 or 1 as `a` is below, equal to or above
      `b` in JavaScript's string order. */
  function CompareDateStrings(a: string, b: string): (r: int)
    ensures r == 0 <==> a == b
    ensures r == -1 <==> Less(a, b)
    ensures r == 1 <==> Less(b, a)
  {
    LessIrreflexive(a);
    LessTrichotomy(a, b);
    if a == b then 0 else if Less(a, b) then -1 else 1
  }

  /** Calendar order on (year, month, day). */
  predicate EarlierDay(y: nat, m: nat, d: nat, y': nat, m': nat, d': nat)
  {
    y < y' || (y == y' && (m < m' || (m == m' && d < d')))
  }

  /** The string order on canonical dates is calendar order: the fixed width
      and the zero padding make the lexicographic comparison sound. */
  lemma CanonicalOrderIsCalendarOrder(a: string, b: string)
    requires IsCanonicalDate(a) && IsCanonicalDate(b)
    ensures Less(a, b) <==> EarlierDay(YearOf(a), MonthOf(a), DayOf(a), YearOf(b), MonthOf(b), DayOf(b))
  {
    var ya, ma, da := a[0..4], a[5..7], a[8..10];
    var yb, mb, db := b[0..4], b[5..7], b[8..10];
    assert a == ya + ("-" + (ma + ("-" + da)));
    assert b == yb + ("-" + (mb + ("-" + db)));
    LessAppend(ya, "-" + (ma + ("-" + da)), yb, "-" + (mb + ("-" + db)));
    LessAppend("-", ma + ("-" + da), "-", mb + ("-" + db));
    LessAppend(ma, "-" + da, mb, "-" + db);
    LessAppend("-", da, "-", db);
    LessIrreflexive("-");
    LessIsNumeric(ya, yb);
    LessIsNumeric(ma, mb);
    LessIsNumeric(da, db);
    if DecimalValue(ya) == DecimalValue(yb) { DecimalValueInjective(ya, yb); }
    if DecimalValue(ma) == DecimalValue(mb) { DecimalValueInjective(ma, mb); }
  }
}
