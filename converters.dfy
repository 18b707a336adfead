/**
 * Room's type converters: a `LocalDate` is stored as the text of
 * `LocalDate.toString()` and read back with `LocalDate.parse`, which uses
 * `DateTimeFormatter.ISO_LOCAL_DATE` with strict resolution; a
 * `TransactionType` is stored as its enum name and read back with `valueOf`.
 * Every converter maps null to null.
 */
module Converters {
  import opened Wrappers
  import opened Text
  import opened Dates
  import opened Entities

  /** The exceptions `LocalDate.parse` and `valueOf` throw. */
  datatype ConversionError = DateTimeParseException | IllegalArgumentException

  // ------------------------------------------------------------- writing

  /**
   * The year as `LocalDate.toString()` prints it: four digits with leading
   * zeros for 0..9999, a '+' before longer positive years, and a '-' before
   * the absolute value, padded to four digits, for negative years.
   */
  function YearText(y: int): (s: string)
    ensures 0 <= y <= 9999 ==> s == FixedDigits(y, 4)
  {
    if y > 9999 then "+" + NatToDigits(y)
    else if y >= 0 then PadDigits(y, 4)
    else "-" + PadDigits(-y, 4)
  }

  /** `fromLocalDate` on a date: the extended calendar date form `YYYY-MM-DD` of ISO 8601. */
  function FormatDate(d: Date): (s: string)
    requires Valid(d)
    ensures 0 <= d.year <= 9999 ==> |s| == 10 && s[4] == '-' && s[7] == '-'
    ensures 0 <= d.year <= 9999 ==> AllDigits(s[..4]) && AllDigits(s[5..7]) && AllDigits(s[8..])
  {
    YearText(d.year) + "-" + FixedDigits(d.month, 2) + "-" + FixedDigits(d.day, 2)
  }

  // ------------------------------------------------------------- reading

  /** Java refuses "minus zero": a '-' before a year whose digits are all '0'. */
  predicate AllZeros(s: string)
  {
    forall i :: 0 <= i < |s| ==> s[i] == '0'
  }

  lemma {:induction false} AllZerosValue(s: string)
    requires AllDigits(s)
    ensures AllZeros(s) <==> DigitsValue(s) == 0
  {
    if s != [] {
      var init := s[..|s| - 1];
      AllZerosValue(init);
      assert AllZeros(s) <==> AllZeros(init) && s[|s| - 1] == '0';
    }
  }

  /** The number of decimal digits at the start of `s`. */
  function LeadingDigits(s: string): (n: nat)
    ensures n <= |s| && AllDigits(s[..n])
    ensures n < |s| ==> !IsDigit(s[n])
  {
    if s != [] && IsDigit(s[0]) then
      var n := LeadingDigits(s[1..]) + 1;
      assert s[..n] == [s[0]] + s[1..][..n - 1];
      n
    else 0
  }

  /**
   * The text layout `ISO_LOCAL_DATE` reads: an optional sign and a year of 4
   * to 10 digits, then `-MM-DD` with exactly two digits each, and nothing
   * after. Without a sign the year has exactly four digits, a '+' needs more
   * than four, and "-0000" is refused. The result is the fields' values.
   */
  function ParseFields(s: string): Option<Date>
  {
    var signed := |s| > 0 && (s[0] == '+' || s[0] == '-');
    ParseUnsigned(signed, signed && s[0] == '-', if signed then s[1..] else s)
  }

  /** `ParseFields` once the sign, if any, is consumed. */
  function ParseUnsigned(signed: bool, negative: bool, body: string): Option<Date>
  {
    var n := LeadingDigits(body);
    if n < 4 || n > 10 || |body| != n + 6 then None
    else if body[n] != '-' || body[n + 3] != '-' then None
    else if !IsDigit(body[n + 1]) || !IsDigit(body[n + 2]) || !IsDigit(body[n + 4]) || !IsDigit(body[n + 5]) then None
    else if !signed && n != 4 then None
    else if signed && !negative && n <= 4 then None
    else if negative && AllZeros(body[..n]) then None
    else
      var v: int := DigitsValue(body[..n]);
      Some(Date(if negative then -v else v, TwoDigits(body[n + 1], body[n + 2]), TwoDigits(body[n + 4], body[n + 5])))
  }

  function TwoDigits(tens: char, units: char): int
    requires IsDigit(tens) && IsDigit(units)
  {
    DigitValue(tens) * 10 + DigitValue(units)
  }

  lemma TwoDigitsOfFixed(m: nat)
    requires m < 100
    ensures TwoDigits(FixedDigits(m, 2)[0], FixedDigits(m, 2)[1]) == m
  {
    assert FixedDigits(m, 2) == [DigitChar(m / 10 % 10), DigitChar(m % 10)];
  }

  /**
   * `LocalDate.parse`: the fields must then form a real date, with the year
   * in `LocalDate`'s range and no day clamping (strict resolution).
   */
  function ParseIso(s: string): (r: Option<Date>)
    ensures r.Some? <==> ParseFields(s).Some? && Valid(ParseFields(s).value)
    ensures r.Some? ==> r == ParseFields(s)
  {
    match ParseFields(s)
    case None => None
    case Some(d) => if Valid(d) then Some(d) else None
  }

  // ------------------------------------------------------ the four converters

  /** `fromLocalDate`. */
  function FromLocalDate(date: Option<Date>): (r: Option<string>)
    requires date.Some? ==> Valid(date.value)
    ensures r.None? <==> date.None?
  {
    match date
    case None => None
    case Some(d) => Some(FormatDate(d))
  }

  /** `toLocalDate`: a text that does not parse throws `DateTimeParseException`. */
  function ToLocalDate(text: Option<string>): (r: Result<Option<Date>, ConversionError>)
    ensures text.None? <==> r == Success(None)
    ensures r.Failure? ==> r.error == DateTimeParseException
    ensures r.Success? && r.value.Some? ==> Valid(r.value.value)
  {
    match text
    case None => Success(None)
    case Some(s) =>
      match ParseIso(s)
      case None => Failure(DateTimeParseException)
      case Some(d) => Success(Some(d))
  }

  /** The enum constant's `name`. */
  function TypeName(t: TransactionType): string
  {
    match t
    case Income => "INCOME"
    case Expense => "EXPENSE"
  }

  /** `TransactionType.valueOf`: exact, case-sensitive names only. */
  function TypeValueOf(s: string): (r: Result<TransactionType, ConversionError>)
    ensures r.Success? <==> s == "INCOME" || s == "EXPENSE"
    ensures r.Success? ==> TypeName(r.value) == s
    ensures r.Failure? ==> r.error == IllegalArgumentException
  {
    if s == "INCOME" then Success(Income)
    else if s == "EXPENSE" then Success(Expense)
    else Failure(IllegalArgumentException)
  }

  /** `fromTransactionType`. */
  function FromTransactionType(t: Option<TransactionType>): (r: Option<string>)
    ensures r.None? <==> t.None?
    ensures t.Some? ==> r.value == "INCOME" || r.value == "EXPENSE"
  {
    match t
    case None => None
    case Some(v) => Some(TypeName(v))
  }

  /** `toTransactionType`. */
  function ToTransactionType(text: Option<string>): (r: Result<Option<TransactionType>, ConversionError>)
    ensures text.None? <==> r == Success(None)
    ensures r.Failure? <==> text.Some? && text.value != "INCOME" && text.value != "EXPENSE"
  {
    match text
    case None => Success(None)
    case Some(s) =>
      match TypeValueOf(s)
      case Failure(e) => Failure(e)
      case Success(t) => Success(Some(t))
  }

  // ---------------------------------------------------------------- lemmas

  lemma TypeRoundTrip(t: TransactionType)
    ensures ToTransactionType(FromTransactionType(Some(t))) == Success(Some(t))
    ensures TypeName(Income) != TypeName(Expense)
  {
  }

  lemma {:induction false} LeadingDigitsOf(ds: string, rest: string)
    requires AllDigits(ds) && rest != [] && !IsDigit(rest[0])
    ensures LeadingDigits(ds + rest) == |ds|
  {
    if ds != [] {
      assert (ds + rest)[1..] == ds[1..] + rest;
      LeadingDigitsOf(ds[1..], rest);
    } else {
      assert ds + rest == rest;
    }
  }

  /** The text of a valid date's year: its digits, their value, and the sign. */
  lemma YearTextShape(y: int) returns (sign: string, ds: string)
    requires MinYear <= y <= MaxYear
    ensures YearText(y) == sign + ds && AllDigits(ds) && 4 <= |ds| <= 9
    ensures DigitsValue(ds) == if y < 0 then -y else y
    ensures y > 9999 ==> sign == "+" && |ds| > 4
    ensures 0 <= y <= 9999 ==> sign == "" && |ds| == 4
    ensures y < 0 ==> sign == "-"
  {
    assert Pow10(9) == 1_000_000_000;
    assert Pow10(4) == 10_000;
    if y > 9999 {
      sign, ds := "+", NatToDigits(y);
      NatToDigitsLength(y, 4);
      NatToDigitsLength(y, 9);
      NatToDigitsValue(y);
    } else {
      var a := if y < 0 then -y else y;
      sign, ds := if y < 0 then "-" else "", PadDigits(a, 4);
      PadDigitsValue(a, 4);
      if a >= Pow10(4) {
        NatToDigitsLength(a, 4);
        NatToDigitsLength(a, 9);
      }
      assert YearText(y) == sign + ds;
    }
  }

  /** `toLocalDate(fromLocalDate(d)) == d` for every date `LocalDate` can hold. */
  lemma DateRoundTrip(d: Date)
    requires Valid(d)
    ensures ToLocalDate(FromLocalDate(Some(d))) == Success(Some(d))
  {
    ParseFormatted(d);
  }

  lemma ParseFormatted(d: Date)
    requires Valid(d)
    ensures ParseIso(FormatDate(d)) == Some(d)
  {
    var sign, ds := YearTextShape(d.year);
    var mm, dd := FixedDigits(d.month, 2), FixedDigits(d.day, 2);
    var s := sign + (ds + ("-" + mm + ("-" + dd)));
    FormatDateParts(d, sign, ds);
    assert ParseFields(s) == Some(d) by {
      TwoDigitsOfFixed(d.month);
      TwoDigitsOfFixed(d.day);
      assert sign == "-" ==> !AllZeros(ds) by {
        AllZerosValue(ds);
      }
      ParseParts(sign, ds, mm, dd);
    }
  }

  lemma FormatDateParts(d: Date, sign: string, ds: string)
    requires Valid(d) && YearText(d.year) == sign + ds
    ensures FormatDate(d) == sign + (ds + ("-" + FixedDigits(d.month, 2) + ("-" + FixedDigits(d.day, 2))))
  {
  }

  /** How `ParseFields` reads a text assembled from a sign, year digits, month and day. */
  lemma ParseParts(sign: string, ds: string, mm: string, dd: string)
    requires sign == "" || sign == "+" || sign == "-"
    requires AllDigits(ds) && 4 <= |ds| <= 10 && AllDigits(mm) && |mm| == 2 && AllDigits(dd) && |dd| == 2
    requires sign == "" ==> |ds| == 4
    requires sign == "+" ==> |ds| > 4
    requires sign == "-" ==> !AllZeros(ds)
    ensures var r := ParseFields(sign + (ds + ("-" + mm + ("-" + dd))));
      && r.Some?
      && r.value.year == (if sign == "-" then -(DigitsValue(ds) as int) else DigitsValue(ds))
      && r.value.month == TwoDigits(mm[0], mm[1])
      && r.value.day == TwoDigits(dd[0], dd[1])
  {
    var body := ds + ("-" + mm + ("-" + dd));
    var s := sign + body;
    assert sign == "" ==> s[0] == ds[0] && IsDigit(ds[0]);
    assert sign != "" ==> s[0] == sign[0] && s[1..] == body;
    var signed := |s| > 0 && (s[0] == '+' || s[0] == '-');
    assert signed == (sign != "");
    assert (signed && s[0] == '-') == (sign == "-");
    assert (if signed then s[1..] else s) == body;
    assert ParseFields(s) == ParseUnsigned(sign != "", sign == "-", body);
    ParseBody(sign != "", sign == "-", ds, mm, dd);
  }

  lemma ParseBody(signed: bool, negative: bool, ds: string, mm: string, dd: string)
    requires negative ==> signed
    requires AllDigits(ds) && 4 <= |ds| <= 10 && AllDigits(mm) && |mm| == 2 && AllDigits(dd) && |dd| == 2
    requires !signed ==> |ds| == 4
    requires signed && !negative ==> |ds| > 4
    requires negative ==> !AllZeros(ds)
    ensures var r := ParseUnsigned(signed, negative, ds + ("-" + mm + ("-" + dd)));
      && r.Some?
      && r.value.year == (if negative then -(DigitsValue(ds) as int) else DigitsValue(ds))
      && r.value.month == TwoDigits(mm[0], mm[1])
      && r.value.day == TwoDigits(dd[0], dd[1])
  {
    var rest := "-" + mm + ("-" + dd);
    var body := ds + rest;
    LeadingDigitsOf(ds, rest);
    var n := |ds|;
    assert body[..n] == ds;
    assert body[n..] == rest;
    assert rest[0] == '-' && rest[3] == '-' && rest[1] == mm[0] && rest[2] == mm[1] && rest[4] == dd[0] && rest[5] == dd[1];
  }

  /** Distinct dates are stored as distinct texts. */
  lemma FormatDateInjective(a: Date, b: Date)
    requires Valid(a) && Valid(b) && FormatDate(a) == FormatDate(b)
    ensures a == b
  {
    ParseFormatted(a);
    ParseFormatted(b);
  }

  /**
   * For years 0..9999 the stored texts compare, character by character, as
   * the dates compare chronologically: the SQL range and ORDER BY on the
   * `date` column then agree with date order.
   */
  lemma EncodingOrder(a: Date, b: Date)
    requires Valid(a) && Valid(b) && 0 <= a.year <= 9999 && 0 <= b.year <= 9999
    ensures LexLess(FormatDate(a), FormatDate(b)) <==> Before(a, b)
  {
    assert Pow10(4) == 10_000;
    var ya, yb := FixedDigits(a.year, 4), FixedDigits(b.year, 4);
    var ma, mb := Dashed(a.month), Dashed(b.month);
    var da, db := Dashed(a.day), Dashed(b.day);
    FourDigitYearText(a);
    FourDigitYearText(b);
    LexAppend(ya, ma + da, yb, mb + db);
    LexAppend(ma, da, mb, db);
    FieldOrder(a.year, b.year, 4);
    DashedOrder(a.month, b.month);
    DashedOrder(a.day, b.day);
  }

  /** A month or day field with its leading '-'. */
  function Dashed(n: nat): string
  {
    "-" + FixedDigits(n, 2)
  }

  lemma FourDigitYearText(d: Date)
    requires Valid(d) && 0 <= d.year <= 9999
    ensures FormatDate(d) == FixedDigits(d.year, 4) + (Dashed(d.month) + Dashed(d.day))
  {
  }

  /** Fixed-width digit fields are equal and ordered exactly as their values. */
  lemma FieldOrder(n: nat, m: nat, w: nat)
    requires n < Pow10(w) && m < Pow10(w)
    ensures FixedDigits(n, w) == FixedDigits(m, w) <==> n == m
    ensures LexLess(FixedDigits(n, w), FixedDigits(m, w)) <==> n < m
  {
    FixedDigitsOrder(n, m, w);
    FixedDigitsValue(n, w);
    FixedDigitsValue(m, w);
  }

  lemma DashedOrder(n: nat, m: nat)
    requires n < 100 && m < 100
    ensures Dashed(n) == Dashed(m) <==> n == m
    ensures LexLess(Dashed(n), Dashed(m)) <==> n < m
  {
    assert Pow10(2) == 100;
    FieldOrder(n, m, 2);
    LexAppend("-", FixedDigits(n, 2), "-", FixedDigits(m, 2));
    LexIrreflexive("-");
    assert Dashed(n)[1..] == FixedDigits(n, 2) && Dashed(m)[1..] == FixedDigits(m, 2);
  }
}
