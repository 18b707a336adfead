/**
 * Character and string primitives of the JVM/Kotlin library that the source
 * relies on: decimal digits, `Char.isWhitespace`, `isBlank`, `trim`,
 * `lowercase`, `contains`, and SQLite's BINARY collation on TEXT.
 */
module Text {

  // ---------------------------------------------------------------- digits

  /** The range of Kotlin's `Long`. */
  const LongMin: int := -0x8000_0000_0000_0000
  const LongMax: int := 0x7FFF_FFFF_FFFF_FFFF

  predicate IsDigit(c: char) { '0' <= c <= '9' }

  predicate AllDigits(s: string) { forall i :: 0 <= i < |s| ==> IsDigit(s[i]) }

  function DigitValue(c: char): (d: int)
    requires IsDigit(c)
    ensures 0 <= d < 10
  {
    c as int - '0' as int
  }

  function DigitChar(d: int): (c: char)
    requires 0 <= d < 10
    ensures IsDigit(c) && DigitValue(c) == d
  {
    (d + '0' as int) as char
  }

  function Pow10(k: nat): (p: nat)
    ensures p >= 1
  {
    if k == 0 then 1 else 10 * Pow10(k - 1)
  }

  /** The number a string of decimal digits denotes, most significant digit first. */
  function DigitsValue(s: string): nat
    requires AllDigits(s)
  {
    if s == [] then 0 else DigitsValue(s[..|s| - 1]) * 10 + DigitValue(s[|s| - 1])
  }

  /** Shortest decimal rendering of `n` (what `Long.toString` prints for `n >= 0`). */
  function NatToDigits(n: nat): (s: string)
    ensures |s| >= 1 && AllDigits(s)
  {
    if n < 10 then [DigitChar(n)] else NatToDigits(n / 10) + [DigitChar(n % 10)]
  }

  /** The last `w` decimal digits of `n`, with leading zeros. */
  function FixedDigits(n: nat, w: nat): (s: string)
    ensures |s| == w && AllDigits(s)
  {
    if w == 0 then "" else FixedDigits(n / 10, w - 1) + [DigitChar(n % 10)]
  }

  /** At least `w` digits: zero-padded when shorter, in full otherwise. */
  function PadDigits(n: nat, w: nat): (s: string)
    ensures AllDigits(s)
  {
    if n < Pow10(w) then FixedDigits(n, w) else NatToDigits(n)
  }

  lemma {:induction false} NatToDigitsValue(n: nat)
    ensures DigitsValue(NatToDigits(n)) == n
  {
    if n >= 10 {
      var s := NatToDigits(n);
      assert s[..|s| - 1] == NatToDigits(n / 10);
      NatToDigitsValue(n / 10);
    }
  }

  lemma {:induction false} FixedDigitsValue(n: nat, w: nat)
    requires n < Pow10(w)
    ensures DigitsValue(FixedDigits(n, w)) == n
  {
    if w > 0 {
      var s := FixedDigits(n, w);
      assert s[..|s| - 1] == FixedDigits(n / 10, w - 1);
      assert n / 10 < Pow10(w - 1);
      FixedDigitsValue(n / 10, w - 1);
    }
  }

  /** `NatToDigits(n)` fits in `w` digits exactly when `n < 10^w`. */
  lemma {:induction false} NatToDigitsLength(n: nat, w: nat)
    requires w >= 1
    ensures |NatToDigits(n)| <= w <==> n < Pow10(w)
  {
    if n >= 10 {
      if w == 1 {
        assert Pow10(1) == 10;
        assert |NatToDigits(n)| == |NatToDigits(n / 10)| + 1;
      } else {
        NatToDigitsLength(n / 10, w - 1);
        assert n / 10 < Pow10(w - 1) <==> n < Pow10(w);
      }
    } else {
      assert Pow10(w) >= 10 by { PowMonotone(1, w); }
    }
  }

  lemma {:induction false} PowMonotone(a: nat, b: nat)
    requires a <= b
    ensures Pow10(a) <= Pow10(b)
  {
    if a < b {
      PowMonotone(a, b - 1);
    }
  }

  lemma {:induction false} PadDigitsValue(n: nat, w: nat)
    ensures DigitsValue(PadDigits(n, w)) == n
  {
    if n < Pow10(w) {
      FixedDigitsValue(n, w);
    } else {
      NatToDigitsValue(n);
    }
  }

  // ---------------------------------------------------------- whitespace

  /**
   * Kotlin's `Char.isWhitespace()`: Java's `isWhitespace` or `isSpaceChar`,
   * that is the control characters TAB..CR and FS..US, and the Unicode space,
   * line and paragraph separators.
   */
  predicate IsWhitespace(c: char)
  {
    || '\t' <= c <= '\r'
    || '\U{1C}' <= c <= '\U{1F}'
    || c == ' ' || c == '\U{A0}' || c == '\U{1680}'
    || '\U{2000}' <= c <= '\U{200A}'
    || c == '\U{2028}' || c == '\U{2029}' || c == '\U{202F}' || c == '\U{205F}' || c == '\U{3000}'
  }

  /** `String.isBlank()`: empty or only whitespace. */
  predicate IsBlank(s: string)
  {
    forall k :: 0 <= k < |s| ==> IsWhitespace(s[k])
  }

  /** The first index at or after `i` that does not hold whitespace, or `|s|`. */
  function SkipBlanks(s: string, i: nat): (k: nat)
    requires i <= |s|
    ensures i <= k <= |s|
    ensures forall m :: i <= m < k ==> IsWhitespace(s[m])
    ensures k < |s| ==> !IsWhitespace(s[k])
    decreases |s| - i
  {
    if i < |s| && IsWhitespace(s[i]) then SkipBlanks(s, i + 1) else i
  }

  /** The end of `s[lo..j]` once its trailing whitespace is dropped. */
  function SkipBlanksBack(s: string, lo: nat, j: nat): (k: nat)
    requires lo <= j <= |s|
    ensures lo <= k <= j
    ensures forall m :: k <= m < j ==> IsWhitespace(s[m])
    ensures k > lo ==> !IsWhitespace(s[k - 1])
  {
    if j > lo && IsWhitespace(s[j - 1]) then SkipBlanksBack(s, lo, j - 1) else j
  }

  /** `String.trim()`: drops leading and trailing whitespace. */
  function Trim(s: string): (r: string)
    ensures exists i :: 0 <= i <= |s| && TrimmedAt(s, r, i)
    ensures r == [] || (!IsWhitespace(r[0]) && !IsWhitespace(r[|r| - 1]))
    ensures r == [] <==> IsBlank(s)
  {
    var i := SkipBlanks(s, 0);
    var j := SkipBlanksBack(s, i, |s|);
    assert i == |s| ==> IsBlank(s);
    assert TrimmedAt(s, s[i..j], i);
    s[i..j]
  }

  /** `r` is `s` from index `i` on with only whitespace cut off on either side. */
  predicate TrimmedAt(s: string, r: string, i: nat)
  {
    && i + |r| <= |s| && r == s[i..i + |r|]
    && (forall m :: 0 <= m < i ==> IsWhitespace(s[m]))
    && (forall m :: i + |r| <= m < |s| ==> IsWhitespace(s[m]))
  }

  // ------------------------------------------------------------ lowercase

  /**
   * `lowercase()` on one character, for the Latin letters the application's
   * Vietnamese and English texts use: ASCII, Latin-1, Latin Extended-A, the
   * horned O and U, and the Vietnamese block of Latin Extended Additional.
   * U+0130 'İ' is kept: `lowercase()` turns it into two characters, 'i' and
   * U+0307, which a map of characters cannot give.
   */
  function LowerChar(c: char): (l: char)
    ensures 'A' <= c <= 'Z' ==> l as int == c as int + 32
    ensures 'a' <= c <= 'z' || IsDigit(c) || IsWhitespace(c) ==> l == c
  {
    var n := c as int;
    if 'A' <= c <= 'Z' || (0xC0 <= n <= 0xDE && n != 0xD7) then (n + 32) as char
    else if (0x100 <= n <= 0x12F || 0x132 <= n <= 0x137 || 0x14A <= n <= 0x177) && n % 2 == 0 then (n + 1) as char
    else if (0x139 <= n <= 0x148 || 0x179 <= n <= 0x17E) && n % 2 == 1 then (n + 1) as char
    else if n == 0x178 then 0xFF as char
    else if n == 0x1A0 || n == 0x1AF then (n + 1) as char
    else if 0x1EA0 <= n <= 0x1EF9 && n % 2 == 0 then (n + 1) as char
    else c
  }

  function Lower(s: string): (r: string)
    ensures |r| == |s|
    ensures forall i :: 0 <= i < |s| ==> r[i] == LowerChar(s[i])
  {
    if s == [] then [] else [LowerChar(s[0])] + Lower(s[1..])
  }

  lemma LowerCharIdempotent(c: char)
    ensures LowerChar(LowerChar(c)) == LowerChar(c)
    ensures IsWhitespace(LowerChar(c)) <==> IsWhitespace(c)
  {
  }

  lemma LowerIdempotent(s: string)
    ensures Lower(Lower(s)) == Lower(s)
    ensures IsBlank(Lower(s)) <==> IsBlank(s)
  {
    forall i | 0 <= i < |s| ensures Lower(Lower(s))[i] == Lower(s)[i] && (IsWhitespace(Lower(s)[i]) <==> IsWhitespace(s[i])) {
      LowerCharIdempotent(s[i]);
    }
  }

  /** `hay.contains(needle)`: `needle` occurs in `hay` at some position. */
  predicate Contains(hay: string, needle: string)
  {
    exists i :: 0 <= i <= |hay| - |needle| && OccursAt(hay, needle, i)
  }

  predicate OccursAt(hay: string, needle: string, i: nat)
  {
    i + |needle| <= |hay| && hay[i..i + |needle|] == needle
  }

  // ------------------------------------------------------------ collation

  /**
   * SQLite's BINARY collation: compare the UTF-8 bytes, a proper prefix first.
   * UTF-8 preserves the order of code points, so comparing characters suffices.
   */
  predicate LexLess(a: string, b: string)
  {
    if a == [] then b != []
    else if b == [] then false
    else if a[0] != b[0] then a[0] < b[0]
    else LexLess(a[1..], b[1..])
  }

  lemma {:induction false} LexIrreflexive(a: string)
    ensures !LexLess(a, a)
  {
    if a != [] {
      LexIrreflexive(a[1..]);
    }
  }

  lemma {:induction false} LexTransitive(a: string, b: string, c: string)
    requires LexLess(a, b) && LexLess(b, c)
    ensures LexLess(a, c)
  {
    if a != [] && b != [] && c != [] && a[0] == b[0] && b[0] == c[0] {
      LexTransitive(a[1..], b[1..], c[1..]);
    }
  }

  lemma {:induction false} LexTotal(a: string, b: string)
    requires a != b
    ensures LexLess(a, b) || LexLess(b, a)
  {
    if a != [] && b != [] && a[0] == b[0] {
      assert a == [a[0]] + a[1..] && b == [b[0]] + b[1..];
      LexTotal(a[1..], b[1..]);
    }
  }

  lemma {:induction false} LexAsymmetric(a: string, b: string)
    requires LexLess(a, b)
    ensures !LexLess(b, a)
  {
    if a != [] && b != [] && a[0] == b[0] {
      LexAsymmetric(a[1..], b[1..]);
    }
  }

  /** Comparing equal-length heads first, then the rest. */
  lemma {:induction false} LexAppend(a: string, x: string, b: string, y: string)
    requires |a| == |b|
    ensures LexLess(a + x, b + y) <==> LexLess(a, b) || (a == b && LexLess(x, y))
  {
    if a != [] {
      assert (a + x)[0] == a[0] && (b + y)[0] == b[0];
      assert (a + x)[1..] == a[1..] + x && (b + y)[1..] == b[1..] + y;
      if a[0] == b[0] {
        LexAppend(a[1..], x, b[1..], y);
        assert a == b <==> a[1..] == b[1..] by {
          assert a == [a[0]] + a[1..] && b == [b[0]] + b[1..];
        }
      }
    } else {
      assert a + x == x && b + y == y;
    }
  }

  /** Fixed-width digit strings sort like the numbers they denote. */
  lemma {:induction false} FixedDigitsOrder(n: nat, m: nat, w: nat)
    requires n < Pow10(w) && m < Pow10(w)
    ensures LexLess(FixedDigits(n, w), FixedDigits(m, w)) <==> n < m
  {
    if w == 0 {
      assert n == 0 && m == 0;
    } else {
      var hn, hm := FixedDigits(n / 10, w - 1), FixedDigits(m / 10, w - 1);
      var dn, dm := [DigitChar(n % 10)], [DigitChar(m % 10)];
      assert n / 10 < Pow10(w - 1) && m / 10 < Pow10(w - 1);
      FixedDigitsOrder(n / 10, m / 10, w - 1);
      LexAppend(hn, dn, hm, dm);
      FixedDigitsValue(n / 10, w - 1);
      FixedDigitsValue(m / 10, w - 1);
      assert hn == hm <==> n / 10 == m / 10;
      assert LexLess(dn, dm) <==> n % 10 < m % 10 by {
        assert dn[1..] == [] && dm[1..] == [];
      }
      assert n < m <==> n / 10 < m / 10 || (n / 10 == m / 10 && n % 10 < m % 10);
    }
  }

  // ------------------------------------------------------ number display

  /** Digit grouping of the `vi-VN` number format: a '.' between groups of three. */
  function GroupThousands(n: nat): (s: string)
    ensures |s| >= 1
  {
    if n < 1000 then NatToDigits(n) else GroupThousands(n / 1000) + "." + FixedDigits(n % 1000, 3)
  }

  /**
   * `NumberFormat` for `vi-VN` with no fraction digits, on a whole number:
   * with its dots dropped the text reads back as the number, after a '-'
   * when the number is negative.
   */
  function FormatGrouped(x: int): (s: string)
    ensures x >= 0 ==> AllDigits(RemoveDots(s)) && DigitsValue(RemoveDots(s)) == x
    ensures x < 0 ==> |s| >= 2 && s[0] == '-' && AllDigits(RemoveDots(s[1..])) && DigitsValue(RemoveDots(s[1..])) == -x
  {
    if x < 0 then
      GroupThousandsDenotes(-x);
      assert ("-" + GroupThousands(-x))[1..] == GroupThousands(-x);
      "-" + GroupThousands(-x)
    else
      GroupThousandsDenotes(x);
      GroupThousands(x)
  }

  function RemoveDots(s: string): string
  {
    if s == [] then [] else (if s[0] == '.' then [] else [s[0]]) + RemoveDots(s[1..])
  }

  lemma {:induction false} RemoveDotsAppend(a: string, b: string)
    ensures RemoveDots(a + b) == RemoveDots(a) + RemoveDots(b)
  {
    if a == [] {
      assert a + b == b;
    } else {
      assert (a + b)[1..] == a[1..] + b;
      RemoveDotsAppend(a[1..], b);
    }
  }

  lemma {:induction false} RemoveDotsOfDigits(s: string)
    requires AllDigits(s)
    ensures RemoveDots(s) == s
  {
    if s != [] {
      RemoveDotsOfDigits(s[1..]);
    }
  }

  lemma {:induction false} DigitsValueAppend(a: string, b: string)
    requires AllDigits(a) && AllDigits(b)
    ensures AllDigits(a + b)
    ensures DigitsValue(a + b) == DigitsValue(a) * Pow10(|b|) + DigitsValue(b)
  {
    if b == [] {
      assert a + b == a;
    } else {
      var ab := a + b;
      var b' := b[..|b| - 1];
      var d := DigitValue(b[|b| - 1]);
      assert DigitsValue(ab) == DigitsValue(a + b') * 10 + d by {
        assert ab[..|ab| - 1] == a + b';
        assert ab[|ab| - 1] == b[|b| - 1];
      }
      DigitsValueAppend(a, b');
      var x, p, v := DigitsValue(a), Pow10(|b'|), DigitsValue(b');
      assert (x * p + v) * 10 + d == x * (p * 10) + (v * 10 + d) by {
        MulAssoc(x, p, 10);
        Distribute(x * p, v, 10);
      }
      assert DigitsValue(b) == v * 10 + d;
    }
  }

  lemma Distribute(x: int, y: int, z: int)
    ensures (x + y) * z == x * z + y * z
  {
  }

  lemma MulAssoc(x: int, y: int, z: int)
    ensures (x * y) * z == x * (y * z)
  {
  }

  /** The grouped display reads back as the number once its separators are dropped. */
  lemma {:induction false} GroupThousandsDenotes(n: nat)
    ensures AllDigits(RemoveDots(GroupThousands(n)))
    ensures DigitsValue(RemoveDots(GroupThousands(n))) == n
  {
    if n < 1000 {
      RemoveDotsOfDigits(NatToDigits(n));
      NatToDigitsValue(n);
    } else {
      var head, tail := GroupThousands(n / 1000), FixedDigits(n % 1000, 3);
      GroupThousandsDenotes(n / 1000);
      var h := RemoveDots(head);
      assert RemoveDots(GroupThousands(n)) == h + tail by {
        RemoveDotsAppend(head + ".", tail);
        RemoveDotsAppend(head, ".");
        RemoveDotsOfDigits(tail);
        assert RemoveDots(".") == [];
        assert h + [] == h;
      }
      DigitsValueAppend(h, tail);
      assert DigitsValue(tail) == n % 1000 by {
        assert Pow10(3) == 1000;
        FixedDigitsValue(n % 1000, 3);
      }
      assert DigitsValue(h + tail) == (n / 1000) * 1000 + n % 1000;
    }
  }
}
