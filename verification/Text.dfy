/** Printed numbers and identifiers: decimal and zero-padded decimal text, canonical UUID text, and
    the lexicographic order in which a Redis sorted set breaks ties between members. */
module Text {

  datatype Option<+T> = None | Some(value: T)

  // ---------- digits ----------

  function Digit(d: nat): (c: char)
    requires d < 16
    ensures c != ':' && c != '-' && c != '\n'
  {
    if d < 10 then (48 + d) as char else (87 + d) as char
  }

  function DigitValue(c: char): Option<nat> {
    if '0' <= c <= '9' then Some(c as nat - 48)
    else if 'a' <= c <= 'f' then Some(c as nat - 87)
    else None
  }

  type Base = b: nat | b == 10 || b == 16 witness 10

  // One digit split off and put back. The two bases are told apart so that every division is by a
  // constant.

  function High(n: nat, base: Base): (h: nat)
    ensures n > 0 ==> h < n
    ensures n == 0 ==> h == 0
  {
    if base == 10 then n / 10 else n / 16
  }

  function Low(n: nat, base: Base): (d: nat)
    ensures d < base
  {
    if base == 10 then n % 10 else n % 16
  }

  function Recompose(high: nat, low: nat, base: Base): nat {
    if base == 10 then high * 10 + low else high * 16 + low
  }

  lemma RecomposeSplit(n: nat, base: Base)
    ensures Recompose(High(n, base), Low(n, base), base) == n
  {
  }

  /** The digits of `n`, most significant first, padded with zeros to at least `width`. */
  function Digits(n: nat, base: Base, width: nat): (text: string)
    ensures |text| >= width
    decreases n + width
  {
    if n == 0 && width == 0 then
      ""
    else
      Digits(High(n, base), base, if width == 0 then 0 else width - 1) + [Digit(Low(n, base))]
  }

  lemma DigitRoundTrip(d: nat)
    requires d < 16
    ensures DigitValue(Digit(d)) == Some(d)
  {
  }

  function ParseDigits(text: string, base: Base): Option<nat> {
    if text == "" then
      Some(0)
    else
      match (ParseDigits(text[..|text| - 1], base), DigitValue(text[|text| - 1]))
      case (Some(high), Some(low)) => if low < base then Some(Recompose(high, low, base)) else None
      case _ => None
  }

  lemma LastDigit(n: nat, base: Base, width: nat)
    requires n != 0 || width != 0
    ensures var text := Digits(n, base, width);
      && text != ""
      && text[..|text| - 1] == Digits(High(n, base), base, if width == 0 then 0 else width - 1)
      && text[|text| - 1] == Digit(Low(n, base))
  {
    hide High, Low, Digit;
  }

  lemma ParseLast(text: string, base: Base, high: nat, low: nat)
    requires text != "" && ParseDigits(text[..|text| - 1], base) == Some(high)
    requires DigitValue(text[|text| - 1]) == Some(low) && low < base
    ensures ParseDigits(text, base) == Some(Recompose(high, low, base))
  {
    hide DigitValue, Recompose;
  }

  /** Reading printed digits gives back the number, whatever the padding. */
  lemma {:induction false} ParsePrinted(n: nat, base: Base, width: nat)
    ensures ParseDigits(Digits(n, base, width), base) == Some(n)
    decreases n + width
  {
    if n != 0 || width != 0 {
      var w := if width == 0 then 0 else width - 1;
      ParsePrinted(High(n, base), base, w);
      LastDigit(n, base, width);
      DigitRoundTrip(Low(n, base));
      RecomposeSplit(n, base);
      hide Digits, ParseDigits, High, Low, Digit, DigitValue, Recompose;
      ParseLast(Digits(n, base, width), base, High(n, base), Low(n, base));
    }
  }

  lemma PrintedInjective(m: nat, n: nat, base: Base, v: nat, w: nat)
    requires Digits(m, base, v) == Digits(n, base, w)
    ensures m == n
  {
    ParsePrinted(m, base, v);
    ParsePrinted(n, base, w);
  }

  predicate IsDigitText(text: string) {
    forall i | 0 <= i < |text| :: DigitValue(text[i]).Some?
  }

  lemma {:induction false} PrintedIsDigits(n: nat, base: Base, width: nat)
    ensures IsDigitText(Digits(n, base, width))
    decreases n + width
  {
    if n != 0 || width != 0 {
      PrintedIsDigits(High(n, base), base, if width == 0 then 0 else width - 1);
    }
  }

  function Power(base: Base, exponent: nat): nat {
    if exponent == 0 then 1 else base * Power(base, exponent - 1)
  }

  lemma {:induction false} PowerAdd(base: Base, m: nat, n: nat)
    ensures Power(base, m + n) == Power(base, m) * Power(base, n)
  {
    if m > 0 {
      PowerAdd(base, m - 1, n);
      MulAssociates(base, Power(base, m - 1), Power(base, n));
    }
  }

  lemma MulAssociates(a: int, b: int, c: int)
    ensures a * (b * c) == a * b * c
  {
  }

  lemma PowersOfTen()
    ensures Power(10, 19) == SIGNED_LIMIT && Power(10, 20) == PAD_LIMIT
  {
    assert Power(10, 1) == 10 * Power(10, 0) == 10;
    PowerAdd(10, 1, 1);
    PowerAdd(10, 2, 2);
    PowerAdd(10, 4, 1);
    PowerAdd(10, 5, 5);
    PowerAdd(10, 5, 4);
    PowerAdd(10, 10, 9);
    PowerAdd(10, 10, 10);
  }

  lemma PowersOfSixteen()
    ensures Power(16, 32) == UUID_LIMIT
  {
    assert Power(16, 1) == 16 * Power(16, 0) == 16;
    PowerAdd(16, 1, 1);
    PowerAdd(16, 2, 2);
    PowerAdd(16, 4, 4);
    PowerAdd(16, 8, 8);
    PowerAdd(16, 16, 16);
  }

  lemma DivBelow(n: nat, base: Base, k: nat)
    requires n < base * k
    ensures High(n, base) < k
  {
    if base == 10 { assert n < 10 * k; } else { assert n < 16 * k; }
  }

  /** A number below base^width fills its field exactly. */
  lemma {:induction false} PrintedLength(n: nat, base: Base, width: nat)
    requires n < Power(base, width)
    ensures |Digits(n, base, width)| == width
  {
    if width > 0 {
      DivBelow(n, base, Power(base, width - 1));
      PrintedLength(High(n, base), base, width - 1);
    }
  }

  /** Decimal text as Python's `str` prints a non-negative integer. */
  function Decimal(n: nat): (text: string)
    ensures |text| >= 1
  {
    Digits(n, 10, 1)
  }

  /** Python's `f"{n:020d}"`, whose sign takes one of the twenty places. */
  function Padded(n: int): (text: string) {
    if n < 0 then "-" + Digits(-n, 10, 19) else Digits(n, 10, 20)
  }

  const PAD_LIMIT: nat := 100000000000000000000  // 10^20

  lemma PaddedLength(n: nat)
    requires n < PAD_LIMIT
    ensures |Padded(n)| == 20
  {
    PowersOfTen();
    PrintedLength(n, 10, 20);
  }

  lemma PaddedSign(n: int)
    ensures Padded(n)[0] == '-' <==> n < 0
  {
    if n >= 0 {
      PrintedIsDigits(n, 10, 20);
      assert Padded(n)[0] in Padded(n);
    }
  }

  lemma PaddedInjective(m: int, n: int)
    requires Padded(m) == Padded(n)
    ensures m == n
  {
    if m < 0 && n < 0 {
      assert Padded(m)[1..] == Padded(n)[1..];
      PrintedInjective(-m, -n, 10, 19, 19);
    } else if m >= 0 && n >= 0 {
      PrintedInjective(m, n, 10, 20, 20);
    } else {
      PaddedSign(m);
      PaddedSign(n);
      assert false;
    }
  }

  predicate NoColon(text: string) {
    forall i | 0 <= i < |text| :: text[i] != ':'
  }

  lemma PaddedNoColon(n: int)
    ensures NoColon(Padded(n))
  {
    PrintedIsDigits(if n < 0 then -n else n, 10, if n < 0 then 19 else 20);
  }

  // ---------- lexicographic order ----------

  /** The order of two strings of single-byte characters: `memcmp`, shorter first. */
  predicate LexLess(a: string, b: string) {
    if b == "" then false
    else if a == "" then true
    else a[0] < b[0] || (a[0] == b[0] && LexLess(a[1..], b[1..]))
  }

  lemma {:induction false} LexIrreflexive(a: string)
    ensures !LexLess(a, a)
  {
    if a != "" { LexIrreflexive(a[1..]); }
  }

  lemma {:induction false} LexTransitive(a: string, b: string, c: string)
    requires LexLess(a, b) && LexLess(b, c)
    ensures LexLess(a, c)
  {
    if a != "" && a[0] == b[0] == c[0] {
      LexTransitive(a[1..], b[1..], c[1..]);
    }
  }

  lemma LexAsymmetric(a: string, b: string)
    requires LexLess(a, b)
    ensures !LexLess(b, a)
  {
    if LexLess(b, a) {
      LexTransitive(a, b, a);
      LexIrreflexive(a);
    }
  }

  lemma {:induction false} LexTotal(a: string, b: string)
    ensures a == b || LexLess(a, b) || LexLess(b, a)
  {
    if a != "" && b != "" && a[0] == b[0] {
      LexTotal(a[1..], b[1..]);
      assert a == [a[0]] + a[1..] && b == [b[0]] + b[1..];
    }
  }

  /** Fields of equal length decide first; the rest of the text only breaks their tie. */
  lemma {:induction false} LexFields(p: string, q: string, x: string, y: string)
    requires |p| == |q|
    ensures LexLess(p + x, q + y) <==> LexLess(p, q) || (p == q && LexLess(x, y))
  {
    if p == "" {
      assert p + x == x && q + y == y;
    } else {
      LexFields(p[1..], q[1..], x, y);
      assert (p + x)[1..] == p[1..] + x && (q + y)[1..] == q[1..] + y;
      assert p == [p[0]] + p[1..] && q == [q[0]] + q[1..];
    }
  }

  lemma LexOne(c: char, d: char)
    ensures LexLess([c], [d]) <==> c < d
  {
  }

  lemma DivOrder(m: nat, n: nat, base: Base)
    requires m < n
    ensures High(m, base) < High(n, base) || (High(m, base) == High(n, base) && Low(m, base) < Low(n, base))
  {
    if base == 10 {
      assert m / 10 < n / 10 || (m / 10 == n / 10 && m % 10 < n % 10);
    } else {
      assert m / 16 < n / 16 || (m / 16 == n / 16 && m % 16 < n % 16);
    }
  }

  /** Numbers printed in the same number of digits are ordered as their text. */
  lemma {:induction false} PrintedOrder(m: nat, n: nat, base: Base, width: nat)
    requires m < n
    requires |Digits(m, base, width)| == |Digits(n, base, width)|
    ensures LexLess(Digits(m, base, width), Digits(n, base, width))
    decreases n + width
  {
    DivOrder(m, n, base);
    var w := if width == 0 then 0 else width - 1;
    assert |Digits(m, base, width)| > 0;
    LexFields(Digits(High(m, base), base, w), Digits(High(n, base), base, w), [Digit(Low(m, base))], [Digit(Low(n, base))]);
    LexOne(Digit(Low(m, base)), Digit(Low(n, base)));
    if High(m, base) < High(n, base) {
      PrintedOrder(High(m, base), High(n, base), base, w);
    }
  }

  lemma PaddedOrder(m: nat, n: nat)
    requires m < PAD_LIMIT && n < PAD_LIMIT
    ensures LexLess(Padded(m), Padded(n)) <==> m < n
    ensures |Padded(m)| == |Padded(n)|
  {
    PaddedLength(m);
    PaddedLength(n);
    if m < n {
      PrintedOrder(m, n, 10, 20);
    } else if n < m {
      PrintedOrder(n, m, 10, 20);
      LexAsymmetric(Padded(n), Padded(m));
    }
    LexIrreflexive(Padded(m));
  }

  const SIGNED_LIMIT: int := 10000000000000000000  // 10^19

  /** Outside the range the padded text stops being an order: two times m < n are ordered by their
      text exactly when n is not negative. */
  lemma SignedPaddedOrder(m: int, n: int)
    requires -SIGNED_LIMIT < m < n < PAD_LIMIT
    ensures LexLess(Padded(m), Padded(n)) <==> n >= 0
  {
    if m >= 0 {
      PaddedOrder(m, n);
    } else if n >= 0 {
      hide Digits;
      PaddedLength(n);
      PrintedIsDigits(n, 10, 20);
      assert Padded(n)[0] in Padded(n);
    } else {
      NegativePaddedOrder(m, n);
    }
  }

  lemma MagnitudeLength(n: nat)
    requires n < SIGNED_LIMIT
    ensures |Digits(n, 10, 19)| == 19
  {
    PowersOfTen();
    PrintedLength(n, 10, 19);
  }

  /** Magnitudes are printed after the sign, so they sort the wrong way round. */
  lemma NegativePaddedOrder(m: int, n: int)
    requires -SIGNED_LIMIT < m < n < 0
    ensures !LexLess(Padded(m), Padded(n))
  {
    hide Digits, LexLess;
    MagnitudeLength(-m);
    MagnitudeLength(-n);
    PrintedOrder(-n, -m, 10, 19);
    LexFields("-", "-", Digits(-m, 10, 19), Digits(-n, 10, 19));
    LexIrreflexive("-");
    LexAsymmetric(Digits(-n, 10, 19), Digits(-m, 10, 19));
  }

  // ---------- UUIDs ----------

  const UUID_LIMIT: nat := 0x1_0000_0000_0000_0000_0000_0000_0000_0000

  /** A UUID as the 128-bit number whose bytes PostgreSQL compares. */
  type Uuid = u: nat | u < UUID_LIMIT

  function Dash(text: string, at: nat): string
    requires at <= |text|
  {
    text[..at] + "-" + text[at..]
  }

  /** Canonical lower-case text, in groups of 8-4-4-4-12 digits. */
  function UuidText(u: Uuid): string {
    Dash(Dash(Dash(Dash(Digits(u, 16, 32), 20), 16), 12), 8)
  }

  lemma UuidDigits(u: Uuid)
    ensures |Digits(u, 16, 32)| == 32
  {
    PowersOfSixteen();
    PrintedLength(u, 16, 32);
  }

  lemma UuidTextLength(u: Uuid)
    ensures |UuidText(u)| == 36
  {
    UuidDigits(u);
  }

  lemma DashOrder(a: string, b: string, at: nat)
    requires |a| == |b| && at <= |a|
    ensures LexLess(Dash(a, at), Dash(b, at)) <==> LexLess(a, b)
  {
    LexFields(a[..at], b[..at], a[at..], b[at..]);
    assert a == a[..at] + a[at..] && b == b[..at] + b[at..];
    LexFields(a[..at], b[..at], "-" + a[at..], "-" + b[at..]);
    LexFields("-", "-", a[at..], b[at..]);
    LexIrreflexive("-");
    assert Dash(a, at) == a[..at] + ("-" + a[at..]) && Dash(b, at) == b[..at] + ("-" + b[at..]);
  }

  lemma DashInjective(a: string, b: string, at: nat)
    requires |a| == |b| && at <= |a| && Dash(a, at) == Dash(b, at)
    ensures a == b
  {
    assert a == Dash(a, at)[..at] + Dash(a, at)[at + 1..];
    assert b == Dash(b, at)[..at] + Dash(b, at)[at + 1..];
  }

  /** PostgreSQL's order on UUIDs is the order of their canonical text. */
  lemma UuidTextOrder(u: Uuid, v: Uuid)
    ensures LexLess(UuidText(u), UuidText(v)) <==> u < v
    ensures UuidText(u) == UuidText(v) ==> u == v
  {
    UuidDigits(u);
    UuidDigits(v);
    var a, b := Digits(u, 16, 32), Digits(v, 16, 32);
    var a1, b1 := Dash(a, 20), Dash(b, 20);
    var a2, b2 := Dash(a1, 16), Dash(b1, 16);
    var a3, b3 := Dash(a2, 12), Dash(b2, 12);
    DashOrder(a, b, 20);
    DashOrder(a1, b1, 16);
    DashOrder(a2, b2, 12);
    DashOrder(a3, b3, 8);
    DigitsOrder(u, v);
    if UuidText(u) == UuidText(v) {
      DashInjective(a3, b3, 8);
      DashInjective(a2, b2, 12);
      DashInjective(a1, b1, 16);
      DashInjective(a, b, 20);
      PrintedInjective(u, v, 16, 32, 32);
    }
  }

  lemma DigitsOrder(u: Uuid, v: Uuid)
    ensures LexLess(Digits(u, 16, 32), Digits(v, 16, 32)) <==> u < v
  {
    UuidDigits(u);
    UuidDigits(v);
    var a, b := Digits(u, 16, 32), Digits(v, 16, 32);
    if u < v {
      PrintedOrder(u, v, 16, 32);
    } else if v < u {
      PrintedOrder(v, u, 16, 32);
      LexAsymmetric(b, a);
    }
    LexIrreflexive(a);
  }

  lemma UuidNoColon(u: Uuid)
    ensures NoColon(UuidText(u))
  {
    UuidDigits(u);
    var hex := Digits(u, 16, 32);
    PrintedIsDigits(u, 16, 32);
    assert NoColon(hex);
    DashNoColon(hex, 20);
    DashNoColon(Dash(hex, 20), 16);
    DashNoColon(Dash(Dash(hex, 20), 16), 12);
    DashNoColon(Dash(Dash(Dash(hex, 20), 16), 12), 8);
  }

  lemma DashNoColon(text: string, at: nat)
    requires at <= |text| && NoColon(text)
    ensures NoColon(Dash(text, at))
  {
  }
}
