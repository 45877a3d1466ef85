/**
 * Numbers as the converter turns them into text: powers of ten, Python's
 * `round` idealised on real numbers (nearest, ties to even), decimal digit
 * strings, and the fixed-point format `f"{x:f}"` (six fraction digits) and
 * its general form `f"{x:.{d}f}"`.
 */
module Numerals {
  import opened Text

  function Pow10Nat(n: nat): (r: nat)
    ensures r >= 1
  {
    if n == 0 then 1 else 10 * Pow10Nat(n - 1)
  }

  /** `10 ** p` for any integer `p`, as a real. */
  function Pow10(p: int): (r: real)
    ensures r > 0.0
  {
    if p >= 0 then Pow10Nat(p) as real else 1.0 / (Pow10Nat(-p) as real)
  }

  function Abs(x: real): (r: real)
    ensures r >= 0.0 && (r == x || r == -x)
  {
    if x < 0.0 then -x else x
  }

  /** The integer nearest to `x`; a tie goes to the even neighbour. */
  function RoundHalfEven(x: real): (n: int)
    ensures (n as real) - x <= 0.5 && x - (n as real) <= 0.5
    ensures x == (x.Floor as real) ==> n == x.Floor
    ensures x >= 0.0 ==> n >= 0
  {
    var f := x.Floor;
    var frac := x - f as real;
    if frac < 0.5 then f
    else if frac > 0.5 then f + 1
    else if f % 2 == 0 then f
    else f + 1
  }

  /** `round(x, p)` on reals: the multiple of `10 ** -p` nearest to `x`. */
  function RoundTo(x: real, p: int): (r: real)
  {
    (RoundHalfEven(x * Pow10(p)) as real) / Pow10(p)
  }

  predicate AllDigits(s: string) { forall i :: 0 <= i < |s| ==> IsDigit(s[i]) }

  predicate HasNonzeroDigit(s: string) { exists i :: 0 <= i < |s| && '1' <= s[i] <= '9' }

  function DigitChar(d: nat): (c: char)
    requires d < 10
    ensures IsDigit(c)
  {
    ('0' as int + d) as char
  }

  /** The decimal numeral of `n`, without leading zeros. */
  function Digits(n: nat): (s: string)
    ensures |s| >= 1 && AllDigits(s)
    decreases n
  {
    if n < 10 then [DigitChar(n)] else Digits(n / 10) + [DigitChar(n % 10)]
  }

  /** The last `w` decimal digits of `n`, zero-padded on the left. */
  function PadDigits(n: nat, w: nat): (s: string)
    ensures |s| == w && AllDigits(s)
  {
    if w == 0 then [] else PadDigits(n / 10, w - 1) + [DigitChar(n % 10)]
  }

  /** The number a string of decimal digits denotes. */
  function Value(s: string): nat
    requires AllDigits(s)
  {
    if s == [] then 0 else Value(s[..|s| - 1]) * 10 + (s[|s| - 1] as int - '0' as int)
  }

  lemma {:induction false} ValueOfDigits(n: nat)
    ensures Value(Digits(n)) == n
    decreases n
  {
    if n >= 10 {
      ValueOfDigits(n / 10);
      var s := Digits(n);
      assert s[..|s| - 1] == Digits(n / 10);
    }
  }

  lemma {:induction false} ValueOfPadDigits(n: nat, w: nat)
    ensures Value(PadDigits(n, w)) == n % Pow10Nat(w)
  {
    if w > 0 {
      ValueOfPadDigits(n / 10, w - 1);
      var s := PadDigits(n, w);
      assert s[..|s| - 1] == PadDigits(n / 10, w - 1);
      ModShift(n, Pow10Nat(w - 1));
    }
  }

  /** The last digits of `n` are those of `n / 10` followed by its last digit. */
  lemma ModShift(n: nat, p: nat)
    requires p >= 1
    ensures n % (10 * p) == ((n / 10) % p) * 10 + n % 10
  {
    var a, b := n / 10, n % 10;
    var c, e := a / p, a % p;
    assert n == c * (10 * p) + (10 * e + b);
    ModUnique(n, 10 * p, c, 10 * e + b);
  }

  lemma ModUnique(n: int, m: int, q: int, r: int)
    requires m > 0 && 0 <= r < m && n == q * m + r
    ensures n % m == r
  {
    var q', r' := n / m, n % m;
    if q > q' {
      assert (q - q') * m >= m by { MulAtLeast(q - q', m); }
    } else if q < q' {
      assert (q' - q) * m >= m by { MulAtLeast(q' - q, m); }
    }
  }

  lemma MulAtLeast(k: int, m: int)
    requires k >= 1 && m > 0
    ensures k * m >= m
  {
  }

  /** A digit string that denotes a nonzero number shows a nonzero digit. */
  lemma {:induction false} NonzeroValueVisible(s: string)
    requires AllDigits(s)
    ensures Value(s) != 0 ==> HasNonzeroDigit(s)
  {
    if s != [] {
      var init := s[..|s| - 1];
      NonzeroValueVisible(init);
    }
  }

  /** `|x|` shifted left by `d` decimal places, rounded half to even. */
  function Scaled(x: real, d: nat): (q: nat)
  {
    var y := Abs(x) * (Pow10Nat(d) as real);
    MulNonneg(Abs(x), Pow10Nat(d) as real);
    RoundHalfEven(y)
  }

  lemma MulNonneg(a: real, b: real)
    requires a >= 0.0 && b >= 0.0
    ensures a * b >= 0.0
  {
  }

  /** The integer part: an optional minus sign and the decimal digits of `n`. */
  function SignedDigits(negative: bool, n: nat): (s: string)
    ensures |s| >= 1 && NoDot(s) && AtMostOneDot(s)
    ensures n != 0 ==> HasNonzeroDigit(s)
  {
    var sign: string := if negative then "-" else "";
    HeadNoDot(sign, Digits(n));
    if n != 0 then
      IntegerDigitsVisible(sign, n);
      sign + Digits(n)
    else
      sign + Digits(n)
  }

  /** The fraction part: exactly `d` digits, zero-padded on the left. */
  function FractionDigits(n: nat, d: nat): (s: string)
    ensures |s| == d && NoDot(s)
    ensures 0 < n < Pow10Nat(d) ==> HasNonzeroDigit(s)
  {
    if 0 < n < Pow10Nat(d) then
      ValueOfPadDigits(n, d);
      ModUnique(n, Pow10Nat(d), 0, n);
      NonzeroValueVisible(PadDigits(n, d));
      PadDigits(n, d)
    else
      PadDigits(n, d)
  }

  /**
   * The numeral `q / 10 ** d` with a minus sign when `negative`: the integer
   * digits and, when `d > 0`, a point followed by exactly `d` fraction digits.
   */
  function Numeral(negative: bool, q: nat, d: nat): (s: string)
    ensures |s| >= 1
    ensures AtMostOneDot(s)
    ensures q != 0 ==> HasNonzeroDigit(s)
  {
    var (ipart, fpart) := Split(q, Pow10Nat(d));
    var head := SignedDigits(negative, ipart);
    if d == 0 then
      head
    else
      var frac := FractionDigits(fpart, d);
      JoinNumeral(head, frac);
      head + ("." + frac)
  }

  /** `q` as quotient and remainder by `p`. */
  function Split(q: nat, p: nat): (r: (nat, nat))
    requires p >= 1
    ensures r.1 < p
    ensures q != 0 ==> r.0 != 0 || r.1 != 0
    ensures p == 1 ==> r == (q, 0)
  {
    (q / p, q % p)
  }

  lemma JoinNumeral(head: string, frac: string)
    requires NoDot(head) && NoDot(frac)
    ensures AtMostOneDot(head + ("." + frac))
    ensures HasNonzeroDigit(head) || HasNonzeroDigit(frac) ==> HasNonzeroDigit(head + ("." + frac))
  {
    JoinOneDot(head, frac);
    NonzeroInAppend(".", frac);
    NonzeroInAppend(head, "." + frac);
    NonzeroInPrepend(head, "." + frac);
  }

  lemma IntegerDigitsVisible(sign: string, n: nat)
    requires n != 0
    ensures HasNonzeroDigit(sign + Digits(n))
  {
    ValueOfDigits(n);
    NonzeroValueVisible(Digits(n));
    NonzeroInAppend(sign, Digits(n));
  }

  lemma HeadNoDot(sign: string, ip: string)
    requires sign == "-" || sign == ""
    requires AllDigits(ip)
    ensures NoDot(sign + ip) && AtMostOneDot(sign + ip)
  {
    var head := sign + ip;
    forall i | 0 <= i < |head| ensures head[i] != '.' {
      if i >= |sign| { assert head[i] == ip[i - |sign|]; }
    }
  }

  lemma NonzeroInAppend(a: string, b: string)
    ensures HasNonzeroDigit(b) ==> HasNonzeroDigit(a + b)
  {
    if HasNonzeroDigit(b) {
      var i :| 0 <= i < |b| && '1' <= b[i] <= '9';
      assert (a + b)[|a| + i] == b[i];
    }
  }

  lemma NonzeroInPrepend(a: string, b: string)
    ensures HasNonzeroDigit(a) ==> HasNonzeroDigit(a + b)
  {
    if HasNonzeroDigit(a) {
      var i :| 0 <= i < |a| && '1' <= a[i] <= '9';
      assert (a + b)[i] == a[i];
    }
  }

  predicate NoDot(s: string) { forall i :: 0 <= i < |s| ==> s[i] != '.' }

  lemma JoinOneDot(a: string, b: string)
    requires NoDot(a) && NoDot(b)
    ensures AtMostOneDot(a + ("." + b))
  {
    var s := a + ("." + b);
    forall i, j | 0 <= i < j < |s|
      ensures !(s[i] == '.' && s[j] == '.')
    {
      if j < |a| {
        assert s[j] == a[j];
      } else if j > |a| {
        assert s[j] == b[j - |a| - 1];
      } else {
        assert s[i] == a[i];
      }
    }
  }

  /** `f"{x:.{d}f}"`: `x` rounded to `d` places, written without an exponent. */
  function Fixed(x: real, d: nat): (s: string)
  {
    Numeral(x < 0.0, Scaled(x, d), d)
  }

  /** `f"{x:f}"` */
  function FixedSix(x: real): string
  {
    Fixed(x, 6)
  }
}
