/** Decimal numerals as the programs print and read them (`String(n)`, `padStart`, `Number`),
    and the order in which strings sort. */
module Decimals {
  import opened Sequences

  function Digit(d: nat): char
    requires d < 10
  {
    '0' + (d as char)
  }

  predicate IsDigit(c: char) {
    '0' <= c <= '9'
  }

  function DigitValue(c: char): nat
    requires IsDigit(c)
  {
    c as nat - '0' as nat
  }

  predicate AllDigits(s: string) {
    forall i :: 0 <= i < |s| ==> IsDigit(s[i])
  }

  function Decimal(n: nat): (s: string)
    ensures s != "" && AllDigits(s)
  {
    if n < 10 then [Digit(n)] else Decimal(n / 10) + [Digit(n % 10)]
  }

  function Value(s: string): nat
    requires AllDigits(s)
  {
    if s == "" then 0 else Value(s[..|s| - 1]) * 10 + DigitValue(s[|s| - 1])
  }

  lemma {:induction false} ValueOfDecimal(n: nat)
    ensures Value(Decimal(n)) == n
  {
    if n < 10 {
      assert [Digit(n)][..0] == "";
    } else {
      var s := Decimal(n / 10) + [Digit(n % 10)];
      assert s[..|s| - 1] == Decimal(n / 10);
      ValueOfDecimal(n / 10);
    }
  }

  function Zeros(count: nat): (s: string)
    ensures |s| == count && AllDigits(s)
  {
    if count == 0 then "" else "0" + Zeros(count - 1)
  }

  /** `s.padStart(width, "0")` */
  function PadStart(s: string, width: nat): (r: string)
    ensures AllDigits(s) ==> AllDigits(r)
    ensures |r| == if |s| < width then width else |s|
  {
    if |s| < width then Zeros(width - |s|) + s else s
  }

  function Padded(n: nat, width: nat): string {
    PadStart(Decimal(n), width)
  }

  lemma {:induction false} ValueOfZeros(count: nat)
    ensures Value(Zeros(count)) == 0
  {
    if count > 0 {
      ZerosEnd(count);
      ValueOfZeros(count - 1);
      assert (Zeros(count - 1) + "0")[..count - 1] == Zeros(count - 1);
    }
  }

  lemma {:induction false} ZerosEnd(count: nat)
    requires count > 0
    ensures Zeros(count) == Zeros(count - 1) + "0"
  {
    if count > 1 {
      ZerosEnd(count - 1);
    }
  }

  lemma {:induction false} LeadingZeros(count: nat, s: string)
    requires AllDigits(s)
    ensures Value(Zeros(count) + s) == Value(s)
  {
    if s == "" {
      assert Zeros(count) + s == Zeros(count);
      ValueOfZeros(count);
    } else {
      assert (Zeros(count) + s)[..count + |s| - 1] == Zeros(count) + s[..|s| - 1];
      LeadingZeros(count, s[..|s| - 1]);
    }
  }

  lemma ValueOfPadded(n: nat, width: nat)
    ensures AllDigits(Padded(n, width)) && Value(Padded(n, width)) == n
  {
    ValueOfDecimal(n);
    if |Decimal(n)| < width {
      LeadingZeros(width - |Decimal(n)|, Decimal(n));
    }
  }

  lemma PaddedInjective(n: nat, m: nat, width: nat)
    requires Padded(n, width) == Padded(m, width)
    ensures n == m
  {
    ValueOfPadded(n, width);
    ValueOfPadded(m, width);
  }

  function Pow10(k: nat): (p: nat)
    ensures p > 0
  {
    if k == 0 then 1 else 10 * Pow10(k - 1)
  }

  lemma {:induction false} DecimalFits(n: nat, width: nat)
    requires width > 0 && n < Pow10(width)
    ensures |Decimal(n)| <= width
  {
    if n >= 10 {
      assert width > 1;
      DecimalFits(n / 10, width - 1);
    }
  }

  lemma {:induction false} DecimalWide(n: nat, width: nat)
    requires n >= Pow10(width)
    ensures |Decimal(n)| > width
  {
    if width > 0 {
      DecimalWide(n / 10, width - 1);
    }
  }

  /** Padded numerals widen only where the number passes a power of ten beyond the padding. */
  lemma WidensAtPower(n: nat, m: nat, width: nat)
    requires n <= m && width > 0
    ensures |Padded(n, width)| <= |Padded(m, width)|
    ensures |Padded(n, width)| < |Padded(m, width)| ==> exists k :: k >= width && n < Pow10(k) <= m
  {
    var (a, b) := (|Padded(n, width)|, |Padded(m, width)|);
    if b > width {
      DecimalReaches(m, b - 1);
      if a < b && n >= Pow10(b - 1) {
        DecimalWide(n, b - 1);
      }
    }
    if a > width && a > b {
      DecimalReaches(n, a - 1);
      DecimalWide(m, a - 1);
    }
  }

  lemma DecimalReaches(n: nat, width: nat)
    requires width > 0 && |Decimal(n)| > width
    ensures n >= Pow10(width)
  {
    if n < Pow10(width) {
      DecimalFits(n, width);
    }
  }

  lemma {:induction false} PowerStartsWithOne(k: nat)
    ensures Decimal(Pow10(k))[0] == '1'
  {
    if k > 0 {
      PowerStartsWithOne(k - 1);
      assert Pow10(k) / 10 == Pow10(k - 1);
    }
  }

  lemma {:induction false} BelowPowerStartsWithNine(k: nat)
    requires k > 0
    ensures Decimal(Pow10(k) - 1)[0] == '9'
  {
    if k > 1 {
      BelowPowerStartsWithNine(k - 1);
      assert Pow10(k - 1) >= 10;
      assert (Pow10(k) - 1) / 10 == Pow10(k - 1) - 1;
    }
  }

  lemma {:induction false} PowersGrow(k: nat, m: nat)
    requires k <= m
    ensures Pow10(k) <= Pow10(m)
  {
    if k < m {
      PowersGrow(k, m - 1);
    }
  }

  // ----- Sorting order of strings

  predicate Lex(a: string, b: string) {
    if a == "" then b != ""
    else b != "" && (a[0] < b[0] || (a[0] == b[0] && Lex(a[1..], b[1..])))
  }

  lemma {:induction false} LexPrefix(p: string, a: string, b: string)
    ensures Lex(p + a, p + b) <==> Lex(a, b)
  {
    if p == "" {
      assert p + a == a && p + b == b;
    } else {
      assert (p + a)[1..] == p[1..] + a && (p + b)[1..] == p[1..] + b;
      LexPrefix(p[1..], a, b);
    }
  }

  lemma {:induction false} LexExtends(a: string, b: string, x: string, y: string)
    requires |a| == |b| && Lex(a, b)
    ensures Lex(a + x, b + y)
  {
    assert (a + x)[1..] == a[1..] + x && (b + y)[1..] == b[1..] + y;
    if a[0] == b[0] {
      LexExtends(a[1..], b[1..], x, y);
    }
  }

  /** Numerals of one width sort by value. */
  lemma {:induction false} LexIsValue(a: string, b: string)
    requires AllDigits(a) && AllDigits(b) && |a| == |b|
    ensures Lex(a, b) <==> Value(a) < Value(b)
    decreases |a|
  {
    if a != "" {
      var (f, g) := (a[..|a| - 1], b[..|b| - 1]);
      var (x, y) := ([a[|a| - 1]], [b[|b| - 1]]);
      assert a == f + x && b == g + y;
      LexIsValue(f, g);
      LexIsValue(g, f);
      if f == g {
        LexPrefix(f, x, y);
      } else if Lex(f, g) {
        LexExtends(f, g, x, y);
      } else {
        LexConnected(f, g);
        LexExtends(g, f, y, x);
        LexAsymmetric(a, b);
      }
    }
  }

  lemma {:induction false} LexConnected(a: string, b: string)
    ensures a == b || Lex(a, b) || Lex(b, a)
  {
    if a != "" && b != "" && a[0] == b[0] {
      LexConnected(a[1..], b[1..]);
      assert a == [a[0]] + a[1..] && b == [b[0]] + b[1..];
    }
  }

  lemma {:induction false} LexAsymmetric(a: string, b: string)
    ensures !(Lex(a, b) && Lex(b, a))
  {
    if a != "" && b != "" && a[0] == b[0] {
      LexAsymmetric(a[1..], b[1..]);
    }
  }

  lemma {:induction false} LexTransitive(a: string, b: string, c: string)
    requires Lex(a, b) && Lex(b, c)
    ensures Lex(a, c)
  {
    if a != "" && a[0] == b[0] == c[0] {
      LexTransitive(a[1..], b[1..], c[1..]);
    }
  }

  function LexOrEqual(): (string, string) -> bool {
    (a: string, b: string) => a == b || Lex(a, b)
  }

  lemma LexIsPreorder()
    ensures TotalPreorder(LexOrEqual())
  {
    forall a: string, b: string ensures LexOrEqual()(a, b) || LexOrEqual()(b, a) { LexConnected(a, b); }
    forall a: string, b: string, c: string | LexOrEqual()(a, b) && LexOrEqual()(b, c) ensures LexOrEqual()(a, c) {
      if a != b && b != c {
        LexTransitive(a, b, c);
      }
    }
  }
}
