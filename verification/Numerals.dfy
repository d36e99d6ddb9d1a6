/** Decimal numerals and the byte-wise text comparison SQLite applies to two TEXT values.

    The rolling-cap query compares `strftime('%s', timestamp)` with `str(int(cutoff))`,
    and both sides are text.  This module says exactly when that agrees with `<=` on
    the numbers. */
module Numerals {

  function Digit(d: nat): char
    requires d < 10
  {
    ('0' as int + d) as char
  }

  function Decimal(n: nat): (s: string)
    ensures |s| > 0
  {
    if n < 10 then [Digit(n)] else Decimal(n / 10) + [Digit(n % 10)]
  }

  /** Python's `str` of an integer. */
  function IntText(i: int): string {
    if i < 0 then "-" + Decimal(-i) else Decimal(i)
  }

  /** What a numeral reads as: base ten, with `0` to `9` at code points 48 to 57. */
  function ReadsAs(s: string): int {
    if s == "" then 0 else 10 * ReadsAs(s[..|s| - 1]) + (s[|s| - 1] as int - 48)
  }

  /** A numeral reads back as the number it was written for, and a sign is written for negative ones only. */
  lemma {:induction false} NumeralsReadBack(n: nat)
    ensures ReadsAs(Decimal(n)) == n && IntText(n) == Decimal(n)
    ensures n > 0 ==> IntText(-(n as int)) == "-" + Decimal(n)
  {
    if n >= 10 {
      NumeralsReadBack(n / 10);
      assert Decimal(n)[..|Decimal(n)| - 1] == Decimal(n / 10);
    }
  }

  /** `a <= b` in code-point order; a proper prefix comes first. */
  predicate TextLe(a: string, b: string) {
    a == "" || (b != "" && (a[0] < b[0] || (a[0] == b[0] && TextLe(a[1..], b[1..]))))
  }

  lemma {:induction false} TextLeRefl(a: string)
    ensures TextLe(a, a)
  {
    if a != "" { TextLeRefl(a[1..]); }
  }

  lemma {:induction false} TextLeTrans(a: string, b: string, c: string)
    requires TextLe(a, b) && TextLe(b, c)
    ensures TextLe(a, c)
  {
    if a != "" && b[0] == a[0] && c[0] == b[0] { TextLeTrans(a[1..], b[1..], c[1..]); }
  }

  lemma {:induction false} TextLeAntisym(a: string, b: string)
    requires TextLe(a, b) && TextLe(b, a)
    ensures a == b
  {
    if a != "" && b != "" {
      TextLeAntisym(a[1..], b[1..]);
      assert a == [a[0]] + a[1..] && b == [b[0]] + b[1..];
    }
  }

  lemma {:induction false} TextLeTotal(a: string, b: string)
    ensures TextLe(a, b) || TextLe(b, a)
  {
    if a != "" && b != "" && a[0] == b[0] { TextLeTotal(a[1..], b[1..]); }
  }

  /** Equal-length texts compare on their last character only when everything before it ties. */
  lemma {:induction false} TextLeSnoc(s: string, t: string, c: char, d: char)
    requires |s| == |t|
    ensures TextLe(s + [c], t + [d]) <==> TextLe(s, t) && (s == t ==> c <= d)
  {
    if s == "" {
      assert s + [c] == [c] && t + [d] == [d];
      assert TextLe([c][1..], [d][1..]);
    } else {
      assert (s + [c])[1..] == s[1..] + [c] && (t + [d])[1..] == t[1..] + [d];
      assert s == [s[0]] + s[1..] && t == [t[0]] + t[1..];
      TextLeSnoc(s[1..], t[1..], c, d);
    }
  }

  /** Lexicographic and numeric order coincide on numerals of equal length, in both directions. */
  lemma {:induction false} TextOrderIsNumericOrder(a: nat, b: nat)
    requires |Decimal(a)| == |Decimal(b)|
    ensures TextLe(Decimal(a), Decimal(b)) <==> a <= b
    ensures Decimal(a) == Decimal(b) <==> a == b
  {
    if a < 10 {
      TextLeSnoc("", "", Digit(a), Digit(b));
      assert "" + Decimal(a) == Decimal(a) && "" + Decimal(b) == Decimal(b);
      assert Decimal(a)[0] == Digit(a) && Decimal(b)[0] == Digit(b);
    } else {
      TextOrderIsNumericOrder(a / 10, b / 10);
      TextLeSnoc(Decimal(a / 10), Decimal(b / 10), Digit(a % 10), Digit(b % 10));
      var da, db := Decimal(a), Decimal(b);
      assert da[|da| - 1] == Digit(a % 10) && db[|db| - 1] == Digit(b % 10);
      assert da[..|da| - 1] == Decimal(a / 10) && db[..|db| - 1] == Decimal(b / 10);
    }
  }

  function Pow10(k: nat): nat {
    if k == 0 then 1 else 10 * Pow10(k - 1)
  }

  lemma {:induction false} NumeralLength(n: nat, k: nat)
    requires k > 0
    ensures |Decimal(n)| <= k <==> n < Pow10(k)
    decreases k
  {
    if n >= 10 {
      if k == 1 {
        assert Pow10(1) == 10;
      } else {
        NumeralLength(n / 10, k - 1);
      }
    } else if k > 1 {
      NumeralLength(n, k - 1);
    } else {
      assert Pow10(1) == 10;
    }
  }

  /** A shorter numeral is compared against the leading digits of a longer one, so the
      comparison silently divides the longer number by ten for every extra digit. */
  lemma {:induction false} ShorterNumeral(a: nat, b: nat)
    requires |Decimal(a)| < |Decimal(b)|
    ensures b >= 10
    ensures TextLe(Decimal(a), Decimal(b)) <==> TextLe(Decimal(a), Decimal(b / 10))
  {
    assert b >= 10;
    TextLePrefix(Decimal(a), Decimal(b / 10), Digit(b % 10));
  }

  lemma {:induction false} TextLePrefix(s: string, t: string, d: char)
    requires |s| <= |t|
    ensures TextLe(s, t + [d]) <==> TextLe(s, t)
  {
    if s != "" {
      assert (t + [d])[1..] == t[1..] + [d];
      TextLePrefix(s[1..], t[1..], d);
    }
  }
}
