/**
 * The two stored entities, the aggregate rows built from them, and the
 * lookups every screen uses: the category map built with `associateBy { it.id }`
 * and the colour a category's hex string stands for.
 */
module Entities {
  import opened Wrappers
  import opened Dates
  import opened Text
  import opened Seqs

  datatype TransactionType = Income | Expense

  /** A row of the `transactions` table; `createdAt` is epoch milliseconds. */
  datatype Transaction = Transaction(
    id: int,
    amount: int,
    ttype: TransactionType,
    categoryId: int,
    note: string,
    date: LocalDate,
    createdAt: int)

  /** A row of the `categories` table. */
  datatype Category = Category(
    id: int,
    name: string,
    ctype: TransactionType,
    icon: string,
    color: string,
    isDefault: bool)

  /** The entity's default values: id 0 (not yet generated) and an empty note. */
  function NewTransaction(amount: int, ttype: TransactionType, categoryId: int, date: LocalDate, createdAt: int,
                          note: string := ""): (t: Transaction)
    ensures t.id == 0 && t.amount == amount && t.ttype == ttype && t.categoryId == categoryId
    ensures t.note == note && t.date == date && t.createdAt == createdAt
  {
    Transaction(0, amount, ttype, categoryId, note, date, createdAt)
  }

  const DefaultIcon: string := "💰"
  const DefaultColor: string := "#4CAF50"

  /** The entity's defaults: id 0, icon "💰", colour "#4CAF50", not a default category. */
  function NewCategory(name: string, ctype: TransactionType, icon: string := DefaultIcon,
                       color: string := DefaultColor, isDefault: bool := false): (c: Category)
    ensures c.id == 0 && c.name == name && c.ctype == ctype
    ensures c.icon == icon && c.color == color && c.isDefault == isDefault
  {
    Category(0, name, ctype, icon, color, isDefault)
  }

  /** A row of `getDailyTransactionsByMonth`. */
  datatype DailyTransaction = DailyTransaction(date: LocalDate, totalIncome: int, totalExpense: int)

  /** One day of the home screen's series. */
  datatype DayData = DayData(date: LocalDate, income: int, expense: int)

  // ---------------------------------------------------------- accessors

  function DayDate(d: DayData): LocalDate { d.date }

  function DayIncome(d: DayData): int { d.income }

  function DayExpense(d: DayData): int { d.expense }

  function Amount(t: Transaction): int { t.amount }

  function DateOf(t: Transaction): LocalDate { t.date }

  function CategoryIdOf(t: Transaction): int { t.categoryId }

  predicate IsIncome(t: Transaction) { t.ttype == Income }

  predicate IsExpense(t: Transaction) { t.ttype == Expense }

  /** `SUM(CASE WHEN type = 'INCOME' THEN amount ELSE 0 END)`. */
  function IncomeAmount(t: Transaction): int { if t.ttype == Income then t.amount else 0 }

  function ExpenseAmount(t: Transaction): int { if t.ttype == Expense then t.amount else 0 }

  ghost predicate DistinctIds(ts: seq<Transaction>)
  {
    forall i, j :: 0 <= i < j < |ts| ==> ts[i].id != ts[j].id
  }

  /** `categories.count { it.type == t }`. */
  function CountOfType(cs: seq<Category>, t: TransactionType): (n: nat)
    ensures n <= |cs|
  {
    if cs == [] then 0 else (if cs[0].ctype == t then 1 else 0) + CountOfType(cs[1..], t)
  }

  /** Every category is of exactly one of the two types. */
  lemma {:induction false} CountsAddUp(cs: seq<Category>)
    ensures CountOfType(cs, Expense) + CountOfType(cs, Income) == |cs|
  {
    if cs != [] {
      CountsAddUp(cs[1..]);
    }
  }

  lemma {:induction false} CountAppend(a: seq<Category>, b: seq<Category>, t: TransactionType)
    ensures CountOfType(a + b, t) == CountOfType(a, t) + CountOfType(b, t)
  {
    if a == [] {
      assert a + b == b;
    } else {
      assert (a + b)[1..] == a[1..] + b;
      CountAppend(a[1..], b, t);
    }
  }

  /** Categories all of one type count in full for it and not at all for the other. */
  lemma {:induction false} CountUniform(cs: seq<Category>, t: TransactionType)
    requires forall i :: 0 <= i < |cs| ==> cs[i].ctype == t
    ensures CountOfType(cs, t) == |cs|
    ensures CountOfType(cs, if t == Expense then Income else Expense) == 0
  {
    if cs != [] {
      CountUniform(cs[1..], t);
    }
  }

  // ---------------------------------------------------------- category map

  function TransactionId(t: Transaction): int { t.id }

  function CategoryId(c: Category): int { c.id }

  /** `associateBy { it.id }` over the categories (see `AssociateBy` for what it promises). */
  function CategoryMap(cs: seq<Category>): map<int, Category>
  {
    AssociateBy(cs, CategoryId)
  }

  /** `categoryMap[id]`: `None` when no category carries the id. */
  function Lookup(m: map<int, Category>, id: int): (r: Option<Category>)
    ensures r.Some? <==> id in m
    ensures r.Some? ==> r.value == m[id]
  {
    if id in m then Some(m[id]) else None
  }

  // --------------------------------------------------------------- colours

  /** The colour of the catch-all "Khác" entries. */
  const FallbackColor: string := "#607D8B"

  predicate IsHexDigit(c: char)
  {
    IsDigit(c) || 'a' <= c <= 'f' || 'A' <= c <= 'F'
  }

  function HexDigitValue(c: char): (v: int)
    requires IsHexDigit(c)
    ensures 0 <= v < 16
  {
    if IsDigit(c) then DigitValue(c)
    else if 'a' <= c <= 'f' then c as int - 'a' as int + 10
    else c as int - 'A' as int + 10
  }

  predicate AllHex(s: string)
  {
    forall i :: 0 <= i < |s| ==> IsHexDigit(s[i])
  }

  function HexValue(s: string): (v: nat)
    requires AllHex(s)
    ensures v < Power(16, |s|)
  {
    if s == [] then 0 else HexValue(s[..|s| - 1]) * 16 + HexDigitValue(s[|s| - 1])
  }

  function Power(b: nat, k: nat): (p: nat)
    ensures p >= 1 || b == 0
  {
    if k == 0 then 1 else b * Power(b, k - 1)
  }

  const OpaqueAlpha: int := 0xFF00_0000

  /**
   * `Long.parseLong(s, 16)` on the texts `parseColor` hands it (at most
   * eight characters, so no value leaves `Long`): an optional '+' or '-' and
   * at least one hex digit; anything else throws, which is `None`.
   */
  function ParseHexLong(s: string): (r: Option<int>)
    ensures r.Some? <==> (|s| >= 2 && (s[0] == '+' || s[0] == '-') && AllHex(s[1..])) || (s != [] && AllHex(s))
    ensures r.Some? && s[0] == '-' ==> r.value == -(HexValue(s[1..]) as int)
    ensures r.Some? && s[0] == '+' ==> r.value == HexValue(s[1..])
    ensures AllHex(s) && s != [] ==> r == Some(HexValue(s))
  {
    if s != [] && (s[0] == '+' || s[0] == '-') then
      if |s| >= 2 && AllHex(s[1..]) then
        var v: int := HexValue(s[1..]);
        Some(if s[0] == '-' then -v else v)
      else None
    else if s != [] && AllHex(s) then Some(HexValue(s))
    else None
  }

  /**
   * `android.graphics.Color.parseColor`. A text starting with '#' is read
   * as a `Long` in base 16; "#RRGGBB" (seven characters) gets an opaque
   * alpha and "#AARRGGBB" (nine) is taken as it stands, both cut to 32 bits
   * as the `(int)` cast does. Any other text is looked up, lower-cased, among
   * the colour names. Whatever throws is `None`. The value is the 32-bit
   * ARGB pattern as an unsigned number.
   */
  function ParseColor(s: string): (r: Option<nat>)
    ensures r.Some? ==> r.value < 0x1_0000_0000
    ensures s == [] ==> r.None?
    ensures s != [] && s[0] == '#' ==> (r.Some? <==> (|s| == 7 || |s| == 9) && ParseHexLong(s[1..]).Some?)
    ensures s != [] && s[0] == '#' && |s| == 7 && r.Some? ==> r.value >= OpaqueAlpha
    ensures s != [] && s[0] == '#' && (|s| == 7 || |s| == 9) && AllHex(s[1..]) ==>
      r == Some(if |s| == 7 then OpaqueAlpha + HexValue(s[1..]) else HexValue(s[1..]))
    ensures s != [] && s[0] != '#' ==> r == NamedColor(Lower(s))
  {
    if s == [] then None
    else if s[0] == '#' then
      if |s| != 7 && |s| != 9 then None
      else
        match ParseHexLong(s[1..])
        case None => None
        case Some(v) =>
          assert AllHex(s[1..]) ==> HexValue(s[1..]) < 0x1_0000_0000 by {
            assert Power(16, 6) == 0x100_0000 && Power(16, 8) == 0x1_0000_0000;
          }
          Some(if |s| == 7 then OpaqueAlpha + v % 0x100_0000 else v % 0x1_0000_0000)
    else NamedColor(Lower(s))
  }

  /** The colour names `parseColor` knows, with their ARGB values. */
  function NamedColor(name: string): (r: Option<nat>)
    ensures r.Some? ==> OpaqueAlpha <= r.value < 0x1_0000_0000
  {
    if name == "black" then Some(0xFF00_0000)
    else if name == "darkgray" || name == "darkgrey" then Some(0xFF44_4444)
    else if name == "gray" || name == "grey" then Some(0xFF88_8888)
    else if name == "lightgray" || name == "lightgrey" then Some(0xFFCC_CCCC)
    else if name == "white" then Some(0xFFFF_FFFF)
    else if name == "red" then Some(0xFFFF_0000)
    else if name == "green" || name == "lime" then Some(0xFF00_FF00)
    else if name == "blue" then Some(0xFF00_00FF)
    else if name == "yellow" then Some(0xFFFF_FF00)
    else if name == "cyan" || name == "aqua" then Some(0xFF00_FFFF)
    else if name == "magenta" || name == "fuchsia" then Some(0xFFFF_00FF)
    else if name == "maroon" then Some(0xFF80_0000)
    else if name == "navy" then Some(0xFF00_0080)
    else if name == "olive" then Some(0xFF80_8000)
    else if name == "purple" then Some(0xFF80_0080)
    else if name == "silver" then Some(0xFFC0_C0C0)
    else if name == "teal" then Some(0xFF00_8080)
    else None
  }

  /** A colour name is read whatever its case: the text and its lower-case form give the same colour. */
  lemma NamedColorAnyCase(s: string)
    requires s != [] && s[0] != '#'
    ensures ParseColor(Lower(s)) == ParseColor(s)
    ensures ParseColor(s).Some? ==> OpaqueAlpha <= ParseColor(s).value
  {
    LowerIdempotent(s);
    assert Lower(s)[0] == LowerChar(s[0]);
  }

  /** How a '#' text of seven or nine characters that `parseLong` reads becomes a colour. */
  lemma HashColor(s: string, v: int)
    requires s != [] && s[0] == '#' && (|s| == 7 || |s| == 9) && ParseHexLong(s[1..]) == Some(v)
    ensures ParseColor(s) == Some(if |s| == 7 then OpaqueAlpha + v % 0x100_0000 else v % 0x1_0000_0000)
  {
  }

  /** A sign followed by hex digits, as `parseLong` reads it. */
  lemma SignedHexLong(sign: char, h: string)
    requires sign == '-' || sign == '+'
    requires AllHex(h) && h != []
    ensures ParseHexLong([sign] + h) == Some(if sign == '-' then -(HexValue(h) as int) else HexValue(h))
  {
    assert ([sign] + h)[1..] == h;
  }

  /**
   * A signed hex text is taken in two's complement: the value of "#-" and
   * five or seven hex digits is the negated number cut to 24 or 32 bits,
   * with an opaque alpha added to the 24.
   */
  lemma SignedHexColor(h: string)
    requires AllHex(h) && (|h| == 5 || |h| == 7)
    ensures |h| == 5 ==> ParseColor("#-" + h) == Some(OpaqueAlpha + (-(HexValue(h) as int)) % 0x100_0000)
    ensures |h| == 7 ==> ParseColor("#-" + h) == Some((-(HexValue(h) as int)) % 0x1_0000_0000)
  {
    var s := "#-" + h;
    SignedHexLong('-', h);
    assert s[1..] == ['-'] + h;
    HashColor(s, -(HexValue(h) as int));
  }

  /** A value below the modulus is its own remainder. */
  lemma ModBelow(v: int, m: int)
    requires 0 <= v < m
    ensures v % m == v
  {
  }

  /** A '+' before five or seven hex digits changes nothing. */
  lemma PlusHexColor(h: string)
    requires AllHex(h) && (|h| == 5 || |h| == 7)
    ensures |h| == 5 ==> ParseColor("#+" + h) == Some(OpaqueAlpha + HexValue(h))
    ensures |h| == 7 ==> ParseColor("#+" + h) == Some(HexValue(h))
  {
    var s := "#+" + h;
    var v: int := HexValue(h);
    SignedHexLong('+', h);
    assert s[1..] == ['+'] + h;
    HashColor(s, v);
    if |h| == 5 {
      assert 0 <= v < 0x10_0000 by {
        assert Power(16, 5) == 0x10_0000;
      }
      ModBelow(v, 0x100_0000);
    } else {
      assert 0 <= v < 0x1000_0000 by {
        assert Power(16, 7) == 0x1000_0000;
      }
      ModBelow(v, 0x1_0000_0000);
    }
  }

  /**
   * `try { parseColor(category?.color ?: "#607D8B") } catch { parseColor("#607D8B") }`:
   * the category's colour when it parses, the fallback grey otherwise.
   */
  function ResolveColor(category: Option<Category>): (argb: nat)
    ensures category.None? ==> argb == 0xFF60_7D8B
    ensures category.Some? && ParseColor(category.value.color).Some? ==> argb == ParseColor(category.value.color).value
    ensures category.Some? && ParseColor(category.value.color).None? ==> argb == 0xFF60_7D8B
  {
    var fallback := ParseColor(FallbackColor);
    assert fallback == Some(0xFF60_7D8B) by {
      assert AllHex(FallbackColor[1..]);
      HexValueOfFallback();
    }
    match (if category.Some? then ParseColor(category.value.color) else fallback)
    case Some(v) => v
    case None => fallback.value
  }

  lemma HexValueOfFallback()
    ensures AllHex(FallbackColor[1..]) && HexValue(FallbackColor[1..]) == 0x60_7D8B
  {
    var s := FallbackColor[1..];
    assert s == "607D8B";
    assert HexValue(s[..1]) == 0x6 by { assert s[..1][..0] == []; }
    assert HexValue(s[..2]) == 0x60 by { assert s[..2][..1] == s[..1]; }
    assert HexValue(s[..3]) == 0x607 by { assert s[..3][..2] == s[..2]; }
    assert HexValue(s[..4]) == 0x607D by { assert s[..4][..3] == s[..3]; }
    assert HexValue(s[..5]) == 0x607D8 by { assert s[..5][..4] == s[..4]; }
    assert s[..6] == s;
  }
}
