/**
 * `CategoryReportDetailViewModel`: one category's transactions over a date
 * range given as text, with their total, count, the average per transaction
 * and per day with a transaction, and the transactions grouped by date,
 * latest first.
 */
module CategoryReportDetail {
  import opened Wrappers
  import opened Seqs
  import opened Grouping
  import opened Text
  import opened Dates
  import opened Entities
  import opened Converters
  import opened Views
  import Dao = TransactionDao
  import CategoryDao

  // ------------------------------------------------------- date parsing

  /**
   * Why `LocalDate.parse(text, DateTimeFormatter.ofPattern("yyyy-MM-dd"))`
   * throws: a part of the pattern refused the text at `index`, text was
   * left over after the day, or the resolver found a field outside its
   * range (the `DateTimeException` naming the field, the range and the value).
   */
  datatype ParseError =
    | RefusedAt(index: nat)
    | UnparsedAt(index: nat)
    | OutOfRange(field: Field, value: int)

  /**
   * The three `ChronoField`s the pattern reads, and `Year`, the proleptic
   * year the resolver derives from the year of era.
   */
  datatype Field = YearOfEra | Year | MonthOfYear | DayOfMonth

  /** The field's name and its printed `ValueRange`, as the resolver's message shows them. */
  function FieldName(f: Field): string
  {
    match f
    case YearOfEra => "YearOfEra"
    case Year => "Year"
    case MonthOfYear => "MonthOfYear"
    case DayOfMonth => "DayOfMonth"
  }

  function FieldRange(f: Field): string
  {
    match f
    case YearOfEra => "1 - 999999999/1000000000"
    case Year => "-999999999 - 999999999"
    case MonthOfYear => "1 - 12"
    case DayOfMonth => "1 - 28/31"
  }

  /**
   * The year-of-era field ("yyyy": 4 to 19 digits, `SignStyle.EXCEEDS_PAD`,
   * strict) read from the start of `s`: its value and the index after it,
   * or the index where it fails. A sign comes first if there is one. Minus
   * zero is refused, a '+' needs more than four digits and more than four
   * digits need a '+'. A 19-digit value outside `Long` loses its last digit.
   */
  function YearOfEraField(s: string): (r: Result<(int, nat), nat>)
    ensures r.Success? ==> 4 <= r.value.1 <= |s|
    ensures r.Failure? ==> r.error <= 1
  {
    if s == [] then Failure(0)
    else YearDigits(s, if s[0] == '+' || s[0] == '-' then 1 else 0)
  }

  /** The year's digits from index `p`, just after the sign if there is one. */
  function YearDigits(s: string, p: nat): (r: Result<(int, nat), nat>)
    requires p <= 1 <= |s|
    ensures r.Success? ==> 4 <= r.value.1 <= |s|
    ensures r.Failure? ==> r.error <= 1
  {
    if p + 4 > |s| then Failure(p)
    else
      var k := Min(LeadingDigits(s[p..]), 19);
      if k < 4 then Failure(p) else SignedYear(s[0], s[p..][..k], p)
  }

  /** The value of the year's digits `ds` under the sign `c` (or the first digit when `p` is 0). */
  function SignedYear(c: char, ds: string, p: nat): (r: Result<(int, nat), nat>)
    requires AllDigits(ds) && 4 <= |ds| <= 19
    ensures r.Success? ==> r.value.1 == p + |ds| || r.value.1 == p + 18
    ensures r.Failure? ==> r.error == 0
  {
    var v: int := DigitsValue(ds);
    var value := if c == '-' then -v else v;
    if c == '-' && v == 0 then Failure(0)
    else if c == '+' && |ds| <= 4 then Failure(0)
    else if p == 0 && |ds| > 4 then Failure(0)
    else if |ds| == 19 && !(LongMin <= value <= LongMax) then
      var w: int := DigitsValue(ds[..18]);
      Success((if c == '-' then -w else w, p + 18))
    else Success((value, p + |ds|))
  }

  /** A two-digit field ("MM", "dd": `SignStyle.NOT_NEGATIVE`) at index `p`: its value and the index after it, or `p`. */
  function TwoDigitField(s: string, p: nat): (r: Result<(int, nat), nat>)
    ensures r.Success? <==> p + 2 <= |s| && IsDigit(s[p]) && IsDigit(s[p + 1])
    ensures r.Success? ==> r.value == (TwoDigits(s[p], s[p + 1]), p + 2)
    ensures r.Failure? ==> r.error == p
  {
    if p + 2 <= |s| && IsDigit(s[p]) && IsDigit(s[p + 1]) then Success((TwoDigits(s[p], s[p + 1]), p + 2))
    else Failure(p)
  }

  /** The literal '-' at index `p`. */
  predicate DashAt(s: string, p: nat) { p < |s| && s[p] == '-' }

  /**
   * SMART resolution of the parsed fields, in the resolver's order: the year
   * of era must be 1..1,000,000,000 and becomes the proleptic year, which
   * must be at most 999,999,999; then the month must be 1..12, then the day
   * 1..31, and a day past the end of the month becomes its last day.
   */
  function Resolve(y: int, m: int, d: int): (r: Result<LocalDate, ParseError>)
    ensures r.Success? <==> 1 <= y <= MaxYear && 1 <= m <= 12 && 1 <= d <= 31
    ensures r.Success? ==> r.value == Date(y, m, Min(d, LengthOfMonth(y, m)))
    ensures r.Failure? ==> r.error.OutOfRange?
    ensures !(1 <= y <= MaxYear + 1) ==> r == Failure(OutOfRange(YearOfEra, y))
    ensures y == MaxYear + 1 ==> r == Failure(OutOfRange(Year, y))
    ensures 1 <= y <= MaxYear && !(1 <= m <= 12) ==> r == Failure(OutOfRange(MonthOfYear, m))
    ensures 1 <= y <= MaxYear && 1 <= m <= 12 && !(1 <= d <= 31) ==> r == Failure(OutOfRange(DayOfMonth, d))
  {
    if y < 1 || y > MaxYear + 1 then Failure(OutOfRange(YearOfEra, y))
    else if y > MaxYear then Failure(OutOfRange(Year, y))
    else if m < 1 || m > 12 then Failure(OutOfRange(MonthOfYear, m))
    else if d < 1 || d > 31 then Failure(OutOfRange(DayOfMonth, d))
    else Success(Date(y, m, Min(d, LengthOfMonth(y, m))))
  }

  /**
   * `LocalDate.parse(s, DateTimeFormatter.ofPattern("yyyy-MM-dd"))`: the
   * year of era, '-', the month, '-', the day, each read where the previous
   * one stopped, with nothing after; then the fields are resolved.
   */
  function PatternParse(s: string): (r: Result<LocalDate, ParseError>)
    ensures r.Failure? && r.error.RefusedAt? ==> r.error.index <= |s|
    ensures r.Failure? && r.error.UnparsedAt? ==> r.error.index < |s|
    ensures r.Success? ==> r.value.year >= 1
  {
    var year := YearOfEraField(s);
    if year.Failure? then Failure(RefusedAt(year.error)) else AfterYear(s, year.value.0, year.value.1)
  }

  /** The rest of the pattern once the year has been read up to index `p`. */
  function AfterYear(s: string, y: int, p: nat): (r: Result<LocalDate, ParseError>)
    requires p <= |s|
    ensures r.Failure? && r.error.RefusedAt? ==> r.error.index <= |s|
    ensures r.Failure? && r.error.UnparsedAt? ==> r.error.index < |s|
    ensures r.Success? ==> r.value.year >= 1
  {
    if !DashAt(s, p) then Failure(RefusedAt(p))
    else
      var month := TwoDigitField(s, p + 1);
      if month.Failure? then Failure(RefusedAt(month.error)) else AfterMonth(s, y, month.value.0, month.value.1)
  }

  /** The rest of the pattern once the month has been read up to index `q`. */
  function AfterMonth(s: string, y: int, m: int, q: nat): (r: Result<LocalDate, ParseError>)
    requires q <= |s|
    ensures r.Failure? && r.error.RefusedAt? ==> r.error.index <= |s|
    ensures r.Failure? && r.error.UnparsedAt? ==> r.error.index < |s|
    ensures r.Success? ==> r.value.year >= 1
  {
    if !DashAt(s, q) then Failure(RefusedAt(q))
    else
      var day := TwoDigitField(s, q + 1);
      if day.Failure? then Failure(RefusedAt(day.error))
      else if day.value.1 < |s| then Failure(UnparsedAt(day.value.1))
      else Resolve(y, m, day.value.0)
  }

  /** The parsed date, or `None` where `LocalDate.parse` throws. */
  function ParsePatternDate(s: string): (r: Option<LocalDate>)
    ensures r.Some? <==> PatternParse(s).Success?
    ensures r.Some? ==> r.value == PatternParse(s).value && r.value.year >= 1
  {
    var p := PatternParse(s);
    if p.Success? then Some(p.value) else None
  }

  /** The text as the exception's message quotes it: cut after 64 characters, with "..." added. */
  function Abbreviated(text: string): (a: string)
    ensures |text| <= 64 ==> a == text
    ensures |text| > 64 ==> |a| == 67 && a[..64] == text[..64] && a[64..] == "..."
  {
    if |text| > 64 then text[..64] + "..." else text
  }

  /** `Long.toString(v)`. */
  function LongText(v: int): (s: string)
    ensures v >= 0 ==> s == NatToDigits(v)
    ensures v < 0 ==> |s| >= 2 && s[0] == '-' && s[1..] == NatToDigits(-v)
  {
    if v < 0 then "-" + NatToDigits(-v) else NatToDigits(v)
  }

  /** What the message says of the error after "could not be parsed". */
  function ErrorText(e: ParseError): string
  {
    match e
    case RefusedAt(i) => " at index " + NatToDigits(i)
    case UnparsedAt(i) => ", unparsed text found at index " + NatToDigits(i)
    case OutOfRange(f, v) => ": Invalid value for " + FieldName(f) + " (valid values " + FieldRange(f) + "): " + LongText(v)
  }

  /** The message of the `DateTimeParseException` thrown for `text` with error `e`. */
  function ParseFailure(text: string, e: ParseError): (msg: string)
    ensures |QuotedText(text)| < |msg|
    ensures msg[..|QuotedText(text)|] == QuotedText(text)
    ensures msg[|QuotedText(text)|..] == ErrorText(e)
  {
    QuotedText(text) + ErrorText(e)
  }

  /** The start every such message shares. */
  function QuotedText(text: string): string
  {
    "Text '" + Abbreviated(text) + "' could not be parsed"
  }

  /**
   * A text of a sign, 4 to 18 year digits, '-', two month digits, '-' and
   * two day digits parses as `Resolve` of their values, when the sign agrees
   * with the number of digits: none for exactly four, '+' for more, or '-'
   * before a non-zero year.
   */
  lemma PatternParts(sign: string, ds: string, mm: string, dd: string)
    requires AllDigits(ds) && 4 <= |ds| <= 18
    requires (sign == "" && |ds| == 4) || (sign == "+" && |ds| > 4) || (sign == "-" && DigitsValue(ds) > 0)
    requires AllDigits(mm) && |mm| == 2 && AllDigits(dd) && |dd| == 2
    ensures PatternParse(sign + (ds + ("-" + mm + ("-" + dd))))
         == Resolve(SignedValue(sign, ds), TwoDigits(mm[0], mm[1]), TwoDigits(dd[0], dd[1]))
  {
    var rest := "-" + mm + ("-" + dd);
    var s := sign + (ds + rest);
    var p := |sign| + |ds|;
    YearOfEraParts(sign, ds, rest);
    DateTail(sign, ds, mm, dd);
    PatternAt(s, SignedValue(sign, ds), p);
  }

  /** The characters of "-MM-" and a day field `dd` (with whatever follows it) after a sign and year digits. */
  lemma DateTail(sign: string, ds: string, mm: string, dd: string)
    requires |mm| == 2 && |dd| >= 2
    ensures var s := sign + (ds + ("-" + mm + ("-" + dd))); var p := |sign| + |ds|;
      && |s| == p + 4 + |dd| && s[p] == '-' && s[p + 1] == mm[0] && s[p + 2] == mm[1]
      && s[p + 3] == '-' && s[p + 4] == dd[0] && s[p + 5] == dd[1]
  {
  }

  /** The year-of-era field reads `y` and stops at `p`. */
  predicate YearAt(s: string, y: int, p: nat)
  {
    var r := YearOfEraField(s);
    r.Success? && r.value.0 == y && r.value.1 == p
  }

  /**
   * A year read up to `p` followed by "-MM-DD" resolves its three values
   * when nothing follows, and is refused as unparsed text at `p + 6` otherwise.
   */
  lemma PatternAt(s: string, y: int, p: nat)
    requires YearAt(s, y, p) && |s| >= p + 6
    requires s[p] == '-' && IsDigit(s[p + 1]) && IsDigit(s[p + 2])
    requires s[p + 3] == '-' && IsDigit(s[p + 4]) && IsDigit(s[p + 5])
    ensures |s| == p + 6 ==> PatternParse(s) == Resolve(y, TwoDigits(s[p + 1], s[p + 2]), TwoDigits(s[p + 4], s[p + 5]))
    ensures |s| > p + 6 ==> PatternParse(s) == Failure(UnparsedAt(p + 6))
  {
    assert PatternParse(s) == AfterYear(s, y, p);
    assert AfterYear(s, y, p) == AfterMonth(s, y, TwoDigits(s[p + 1], s[p + 2]), p + 3);
  }

  /** The year's value with its sign. */
  function SignedValue(sign: string, ds: string): int
    requires AllDigits(ds)
  {
    var v: int := DigitsValue(ds);
    if sign == "-" then -v else v
  }

  /** How the year-of-era field reads a sign and 4 to 18 digits followed by a non-digit. */
  lemma YearOfEraParts(sign: string, ds: string, rest: string)
    requires AllDigits(ds) && 4 <= |ds| <= 18
    requires (sign == "" && |ds| == 4) || (sign == "+" && |ds| > 4) || (sign == "-" && DigitsValue(ds) > 0)
    requires rest != [] && !IsDigit(rest[0])
    ensures YearAt(sign + (ds + rest), SignedValue(sign, ds), |sign| + |ds|)
  {
    YearFieldOf(sign, ds, rest);
  }

  /** The year-of-era field on a sign (or none), 4 to 19 digits and a non-digit is `SignedYear` of those digits. */
  lemma YearFieldOf(sign: string, ds: string, rest: string)
    requires sign == "" || sign == "+" || sign == "-"
    requires AllDigits(ds) && 4 <= |ds| <= 19
    requires rest != [] && !IsDigit(rest[0])
    ensures YearOfEraField(sign + (ds + rest)) == SignedYear(if sign == "" then ds[0] else sign[0], ds, |sign|)
  {
    var s := sign + (ds + rest);
    var p := |sign|;
    assert s[p..] == ds + rest;
    assert LeadingDigits(s[p..]) == |ds| by {
      LeadingDigitsOf(ds, rest);
    }
    assert s[p..][..|ds|] == ds;
    assert s[0] == if sign == "" then ds[0] else sign[0];
    assert YearOfEraField(s) == YearDigits(s, p);
  }

  /** The texts `fromLocalDate` writes parse back to the same date, for every year from 1 on. */
  lemma PatternReadsStoredText(d: LocalDate)
    requires d.year >= 1
    ensures ParsePatternDate(FormatDate(d)) == Some(d)
  {
    var sign, ds := YearTextShape(d.year);
    var mm, dd := FixedDigits(d.month, 2), FixedDigits(d.day, 2);
    assert FormatDate(d) == sign + (ds + ("-" + mm + ("-" + dd))) by {
      FormatDateParts(d, sign, ds);
    }
    assert PatternParse(FormatDate(d)) == Resolve(d.year, d.month, d.day) by {
      TwoDigitsOfFixed(d.month);
      TwoDigitsOfFixed(d.day);
      PatternParts(sign, ds, mm, dd);
    }
  }

  /**
   * The year of era 1,000,000,000 is in its own range but not in the
   * proleptic year's, so the resolver refuses it as `Year`, before looking
   * at the month or the day.
   */
  lemma PatternRefusesYearPastMax(ds: string, mm: string, dd: string)
    requires AllDigits(ds) && 4 < |ds| <= 18 && DigitsValue(ds) == MaxYear + 1
    requires AllDigits(mm) && |mm| == 2 && AllDigits(dd) && |dd| == 2
    ensures var s := "+" + (ds + ("-" + mm + ("-" + dd)));
      PatternParse(s) == Failure(OutOfRange(Year, MaxYear + 1))
      && ParseFailure(s, PatternParse(s).error)
         == QuotedText(s) + (": Invalid value for " + "Year" + " (valid values " + "-999999999 - 999999999" + "): " + LongText(MaxYear + 1))
  {
    var s := "+" + (ds + ("-" + mm + ("-" + dd)));
    PatternParts("+", ds, mm, dd);
    assert SignedValue("+", ds) == MaxYear + 1;
    assert PatternParse(s) == Failure(OutOfRange(Year, MaxYear + 1));
    assert FieldName(Year) == "Year" && FieldRange(Year) == "-999999999 - 999999999";
  }

  /**
   * Year 0 and negative years, which a year of era cannot express, are
   * refused with the year's value as the resolver's complaint.
   */
  lemma PatternRefusesNonPositiveYears(d: LocalDate)
    requires d.year < 1
    ensures PatternParse(FormatDate(d)) == Failure(OutOfRange(YearOfEra, d.year))
  {
    var sign, ds := YearTextShape(d.year);
    var mm, dd := FixedDigits(d.month, 2), FixedDigits(d.day, 2);
    assert FormatDate(d) == sign + (ds + ("-" + mm + ("-" + dd))) by {
      FormatDateParts(d, sign, ds);
    }
    assert PatternParse(FormatDate(d)) == Resolve(d.year, d.month, d.day) by {
      TwoDigitsOfFixed(d.month);
      TwoDigitsOfFixed(d.day);
      PatternParts(sign, ds, mm, dd);
    }
  }

  /**
   * A four-digit year with month 1..12 and day 1..31 parses, a day past the
   * end of the month becoming its last day (so "2023-02-30" is 28 February);
   * any other two-digit month or day is refused by the resolver.
   */
  lemma PatternClampsDay(y: nat, m: nat, d: nat)
    requires 1 <= y <= 9999 && m < 100 && d < 100
    ensures var r := ParsePatternDate(FixedDigits(y, 4) + "-" + FixedDigits(m, 2) + "-" + FixedDigits(d, 2));
      && (r.Some? <==> 1 <= m <= 12 && 1 <= d <= 31)
      && (r.Some? ==> r.value == Date(y, m, Min(d, LengthOfMonth(y, m))))
  {
    var ds, mm, dd := FixedDigits(y, 4), FixedDigits(m, 2), FixedDigits(d, 2);
    assert ds + "-" + mm + "-" + dd == "" + (ds + ("-" + mm + ("-" + dd)));
    assert Pow10(4) == 10_000;
    FixedDigitsValue(y, 4);
    TwoDigitsOfFixed(m);
    TwoDigitsOfFixed(d);
    PatternParts("", ds, mm, dd);
  }

  /** A text that is empty or starts with neither a digit nor a sign is refused at index 0. */
  lemma PatternRefusesNonDigitStart(s: string)
    requires s != [] ==> !IsDigit(s[0]) && s[0] != '+' && s[0] != '-'
    ensures PatternParse(s) == Failure(RefusedAt(0))
  {
    if s != [] && |s| >= 4 {
      assert LeadingDigits(s[0..]) == 0;
    }
  }

  /**
   * Four year digits must not have a '+', more than four must have one, and
   * an all-zero year must not have a '-': each is refused at index 0.
   */
  lemma PatternSignRules(ds: string, rest: string)
    requires AllDigits(ds) && 4 <= |ds| <= 19 && rest != [] && !IsDigit(rest[0])
    ensures |ds| == 4 ==> PatternParse("+" + (ds + rest)) == Failure(RefusedAt(0))
    ensures |ds| > 4 ==> PatternParse(ds + rest) == Failure(RefusedAt(0))
    ensures DigitsValue(ds) == 0 ==> PatternParse("-" + (ds + rest)) == Failure(RefusedAt(0))
  {
    if |ds| == 4 {
      YearFieldOf("+", ds, rest);
    }
    if |ds| > 4 {
      YearFieldOf("", ds, rest);
      assert "" + (ds + rest) == ds + rest;
    }
    if DigitsValue(ds) == 0 {
      YearFieldOf("-", ds, rest);
    }
  }

  /**
   * Text after a well-formed date is refused as unparsed at the index where
   * it starts, before the fields are resolved.
   */
  lemma PatternRefusesTrailingText(sign: string, ds: string, mm: string, dd: string, extra: string)
    requires AllDigits(ds) && 4 <= |ds| <= 18
    requires (sign == "" && |ds| == 4) || (sign == "+" && |ds| > 4) || (sign == "-" && DigitsValue(ds) > 0)
    requires AllDigits(mm) && |mm| == 2 && AllDigits(dd) && |dd| == 2 && extra != []
    ensures PatternParse(sign + (ds + ("-" + mm + ("-" + (dd + extra))))) == Failure(UnparsedAt(|sign| + |ds| + 6))
  {
    var rest := "-" + mm + ("-" + (dd + extra));
    var s := sign + (ds + rest);
    YearOfEraParts(sign, ds, rest);
    DateTail(sign, ds, mm, dd + extra);
    PatternAt(s, SignedValue(sign, ds), |sign| + |ds|);
  }

  /** The index a `RefusedAt` or `UnparsedAt` message ends with reads back as that index. */
  lemma MessageIndexReadsBack(text: string, e: ParseError)
    requires e.RefusedAt? || e.UnparsedAt?
    ensures var msg := ParseFailure(text, e);
      var n := |QuotedText(text)| + (if e.RefusedAt? then 10 else 31);
      && n <= |msg| && AllDigits(msg[n..]) && DigitsValue(msg[n..]) == e.index
  {
    var msg := ParseFailure(text, e);
    var q := |QuotedText(text)|;
    var head := if e.RefusedAt? then " at index " else ", unparsed text found at index ";
    assert ErrorText(e) == head + NatToDigits(e.index);
    assert msg[q..] == head + NatToDigits(e.index);
    assert msg[q + |head|..] == NatToDigits(e.index);
    NatToDigitsValue(e.index);
  }

  // ---------------------------------------------------------- the screen

  /** `TransactionItemDetailUi`; `color` is the ARGB value. */
  datatype ItemDetail = ItemDetail(
    id: int,
    categoryName: string,
    note: string,
    amount: int,
    color: nat,
    icon: Option<string>)

  /** `TransactionDateGroupUi`. */
  datatype DateGroup = DateGroup(dateText: string, totalAmount: int, transactions: seq<ItemDetail>)

  /** The results of a successful load. */
  datatype Detail = Detail(total: int, count: int, avgPerTransaction: int, avgPerDay: int, groups: seq<DateGroup>)

  const OtherName: string := "Khác"

  /** An item resolves its category through the map, or shows "Khác" with no icon and the grey fallback. */
  function ItemOf(t: Transaction, categories: map<int, Category>): (item: ItemDetail)
    ensures item.id == t.id && item.note == t.note && item.amount == t.amount
    ensures t.categoryId in categories ==>
      var c := categories[t.categoryId];
      item.categoryName == c.name && item.icon == Some(c.icon) && item.color == ResolveColor(Some(c))
    ensures t.categoryId !in categories ==>
      item.categoryName == OtherName && item.icon == None && item.color == 0xFF60_7D8B
  {
    var category := Lookup(categories, t.categoryId);
    ItemDetail(t.id, if category.Some? then category.value.name else OtherName, t.note, t.amount,
               ResolveColor(category), if category.Some? then Some(category.value.icon) else None)
  }

  /** `date.format(ofPattern("'Th'M dd"))`: "Th", the month without padding, a space, the two-digit day. */
  function DateText(d: LocalDate): string
  {
    "Th" + NatToDigits(d.month) + " " + FixedDigits(d.day, 2)
  }

  function GroupOf(g: Group<LocalDate, Transaction>, categories: map<int, Category>): DateGroup
  {
    DateGroup(DateText(g.key), SumBy(g.items, Amount), MapSeq(g.items, t => ItemOf(t, categories)))
  }

  function GroupTotal(g: DateGroup): int { g.totalAmount }

  predicate HasCategory(t: Transaction, categoryId: int) { t.categoryId == categoryId }

  /** The range's rows (`getTransactionsByMonthOnce`) of the category, in query order. */
  function CategoryRows(rows: seq<Transaction>, categoryId: int, start: LocalDate, end: LocalDate): seq<Transaction>
  {
    Filter(Dao.TransactionsByMonth(rows, start, end), t => HasCategory(t, categoryId))
  }

  /** The statistics of the rows and their groups by date. */
  function DetailOf(txs: seq<Transaction>, categories: map<int, Category>): Detail
  {
    var total := SumBy(txs, Amount);
    var days := |DistinctKeys(txs, DateOf)|;
    Detail(total, |txs|, AverageOrZero(total, |txs|), AverageOrZero(total, days),
           MapSeq(ByDateDescending(txs), g => GroupOf(g, categories)))
  }

  /** `loadData(categoryId, startDateStr, endDateStr)` once the store has answered: a parse failure or the results. */
  function LoadResult(rows: seq<Transaction>, cats: seq<Category>, categoryId: int, startText: string,
                      endText: string): (r: Result<Detail, string>)
    ensures r.Success? <==> PatternParse(startText).Success? && PatternParse(endText).Success?
    ensures PatternParse(startText).Failure? ==> r == Failure(ParseFailure(startText, PatternParse(startText).error))
    ensures PatternParse(startText).Success? && PatternParse(endText).Failure? ==>
      r == Failure(ParseFailure(endText, PatternParse(endText).error))
    ensures r.Success? ==>
      r.value == DetailOf(CategoryRows(rows, categoryId, PatternParse(startText).value, PatternParse(endText).value),
                          CategoryMap(CategoryDao.AllCategories(cats)))
  {
    match PatternParse(startText)
    case Failure(e) => Failure(ParseFailure(startText, e))
    case Success(start) =>
      match PatternParse(endText)
      case Failure(e) => Failure(ParseFailure(endText, e))
      case Success(end) =>
        Success(DetailOf(CategoryRows(rows, categoryId, start, end), CategoryMap(CategoryDao.AllCategories(cats))))
  }

  // ------------------------------------------------------------- lemmas

  /** Only stored rows dated within the range, both ends included, and of the category count. */
  lemma CategoryRowsSelect(rows: seq<Transaction>, categoryId: int, start: LocalDate, end: LocalDate)
    ensures forall t :: multiset(CategoryRows(rows, categoryId, start, end))[t]
                  == if Dao.InRange(t, start, end) && t.categoryId == categoryId then multiset(rows)[t] else 0
  {
    var fetched := Dao.TransactionsByMonth(rows, start, end);
    forall t ensures multiset(CategoryRows(rows, categoryId, start, end))[t]
      == if Dao.InRange(t, start, end) && t.categoryId == categoryId then multiset(rows)[t] else 0
    {
      FilterMultiset(fetched, x => HasCategory(x, categoryId), t);
    }
  }

  /** The number of days with a transaction is the size of the set of their dates. */
  lemma DaysWithTransactions(txs: seq<Transaction>)
    ensures |DistinctKeys(txs, DateOf)| == |(set t | t in txs :: t.date)|
  {
    var ks := DistinctKeys(txs, DateOf);
    DistinctSetSize(ks);
    forall d ensures d in ks <==> d in (set t | t in txs :: t.date) {
      if d in ks {
        var i :| 0 <= i < |txs| && DateOf(txs[i]) == d;
        assert txs[i] in txs;
      }
    }
    assert (set x | x in ks) == (set t | t in txs :: t.date);
  }

  /**
   * The total is the sum of the amounts and the count their number; the
   * averages divide the total, truncating, by the count and by the number of
   * distinct dates (not the days of the range), and are 0 when that number is 0.
   */
  lemma DetailStatistics(txs: seq<Transaction>, categories: map<int, Category>)
    ensures var d := DetailOf(txs, categories);
      var days := |(set t | t in txs :: t.date)|;
      && d.total == SumBy(txs, Amount)
      && d.count == |txs|
      && (txs == [] ==> d.avgPerTransaction == 0 && d.avgPerDay == 0)
      && (txs != [] ==> d.avgPerTransaction == TruncDiv(d.total, d.count) && days > 0 && d.avgPerDay == TruncDiv(d.total, days))
  {
    DaysWithTransactions(txs);
    if txs != [] {
      assert txs[0] in txs;
      assert txs[0].date in (set t | t in txs :: t.date);
    }
  }

  /**
   * One group per date with a transaction, in the order of `ByDateDescending`:
   * each shows its date, the sum of its rows and one item per row.
   */
  lemma DetailGroups(txs: seq<Transaction>, categories: map<int, Category>)
    ensures var d := DetailOf(txs, categories);
      var gs := ByDateDescending(txs);
      && |d.groups| == |gs| == |(set t | t in txs :: t.date)|
      && (forall i :: 0 <= i < |gs| ==>
            && d.groups[i].dateText == DateText(gs[i].key)
            && d.groups[i].totalAmount == SumBy(ItemsWithKey(txs, DateOf, gs[i].key), Amount)
            && |d.groups[i].transactions| == |ItemsWithKey(txs, DateOf, gs[i].key)| > 0)
  {
    var gs := ByDateDescending(txs);
    assert DetailOf(txs, categories).groups == MapSeq(gs, g => GroupOf(g, categories));
    DaysWithTransactions(txs);
    ByDateDescendingGroups(txs);
  }

  /** The group totals add up to the total. */
  lemma DetailGroupsAddUp(txs: seq<Transaction>, categories: map<int, Category>)
    ensures var d := DetailOf(txs, categories);
      SumBy(d.groups, GroupTotal) == d.total
  {
    var d := DetailOf(txs, categories);
    var gs := ByDateDescending(txs);
    assert d.groups == MapSeq(gs, g => GroupOf(g, categories));
    ByDateDescendingPartition(txs);
    SumMatchesGroups(d.groups, gs, GroupTotal, Amount);
  }

  // ---------------------------------------------------------- view-model

  /** `CategoryReportDetailUiState` and its load. */
  class CategoryReportDetailViewModel {
    var total: int
    var count: int
    var avgPerTransaction: int
    var avgPerDay: int
    var transactionsByDate: seq<DateGroup>
    var isLoading: bool
    var error: Option<string>

    constructor()
      ensures total == 0 && count == 0 && avgPerTransaction == 0 && avgPerDay == 0
      ensures transactionsByDate == [] && !isLoading && error == None
    {
      total, count, avgPerTransaction, avgPerDay := 0, 0, 0, 0;
      transactionsByDate, isLoading, error := [], false, None;
    }

    /** Whether the result fields hold `d`. */
    predicate Shows(d: Detail)
      reads this
    {
      total == d.total && count == d.count && avgPerTransaction == d.avgPerTransaction
      && avgPerDay == d.avgPerDay && transactionsByDate == d.groups
    }

    /** `_uiState.value.copy(...)` with the results of a load, the flag cleared and the error kept. */
    method Show(d: Detail)
      modifies this
      ensures Shows(d) && error == old(error) && !isLoading
    {
      total, count, avgPerTransaction, avgPerDay := d.total, d.count, d.avgPerTransaction, d.avgPerDay;
      transactionsByDate, isLoading := d.groups, false;
    }

    /**
     * `loadData`: the two texts are parsed first; a text that does not parse
     * sets the error and keeps the old results, without a crash. Otherwise
     * the store reads (`store`) either complete, giving the results with
     * `error` left as it was, or throw, setting `error` to the message.
     */
    method LoadData(categoryId: int, startText: string, endText: string,
                    rows: seq<Transaction>, cats: seq<Category>, store: Outcome)
      modifies this
      ensures !isLoading
      ensures var r := LoadResult(rows, cats, categoryId, startText, endText);
        r.Failure? || store.Throws? ==>
          && total == old(total) && count == old(count) && avgPerTransaction == old(avgPerTransaction)
          && avgPerDay == old(avgPerDay) && transactionsByDate == old(transactionsByDate)
          && error == (if r.Failure? then Some(r.error) else store.message)
      ensures var r := LoadResult(rows, cats, categoryId, startText, endText);
        r.Success? && store.Completes? ==> Shows(r.value) && error == old(error)
    {
      isLoading := true;
      var r := LoadResult(rows, cats, categoryId, startText, endText);
      if r.Failure? {
        isLoading, error := false, Some(r.error);
      } else if store.Throws? {
        isLoading, error := false, store.message;
      } else {
        Show(r.value);
      }
    }
  }
}
