/**
 Decimal notation: powers of ten, digits of a number and the decimal text of a number.
 A text is a sequence of digits, most significant first, the way both programs print numbers.
 */
module Decimal {

  function Pow10(k: nat): (p: nat)
    ensures p > 0
  {
    if k == 0 then 1 else 10 * Pow10(k - 1)
  }

  /** h followed by k zeros: h * 10^k, as repeated multiplication by ten (ShiftIsProduct). */
  function Shift(h: int, k: nat): int {
    if k == 0 then h else 10 * Shift(h, k - 1)
  }

  /** The number without its k low digits: n / 10^k, as repeated division by ten (QuotientRemainder). */
  function High(n: nat, k: nat): nat {
    if k == 0 then n else High(n / 10, k - 1)
  }

  /** The k low digits: n % 10^k (QuotientRemainder). */
  function Low(n: nat, k: nat): (m: nat)
    ensures m < Pow10(k)
  {
    if k == 0 then 0 else 10 * Low(n / 10, k - 1) + n % 10
  }

  /** The digit of weight 10^k. */
  function DigitAt(n: nat, k: nat): (d: nat)
    ensures d < 10
  {
    High(n, k) % 10
  }

  /** The decimal text of n, without leading zeros. */
  function Text(n: nat): (t: seq<nat>)
    ensures |t| > 0
  {
    if n < 10 then [n] else Text(n / 10) + [n % 10]
  }

  /** The number of characters of the decimal text. */
  function NumDigits(n: nat): (d: nat)
    ensures d > 0
  {
    if n < 10 then 1 else 1 + NumDigits(n / 10)
  }

  /** The length of the printed integer, counting the sign. */
  function PrintedWidth(v: int): nat {
    if v < 0 then 1 + NumDigits(-v) else NumDigits(v)
  }

  /** The number a digit text denotes; the empty text denotes zero. */
  function Value(t: seq<nat>): nat {
    if t == [] then 0 else 10 * Value(t[..|t| - 1]) + t[|t| - 1]
  }

  function Times(a: nat, b: nat): nat {
    a * b
  }

  function Max(a: int, b: int): int {
    if a > b then a else b
  }

  ghost predicate AllDigits(t: seq<nat>) {
    forall i :: 0 <= i < |t| ==> t[i] < 10
  }

  lemma {:induction false} MulLe(a: int, b: int, c: int)
    requires a <= b && c >= 0
    ensures a * c <= b * c
  {
    assert (b - a) * c >= 0;
  }

  /** One row of a product: (10q + d)p regrouped by the larger power. */
  lemma {:induction false} Regroup(q: int, d: int, b: int, p: int)
    ensures (b * q + d) * p == q * (b * p) + d * p
  {
    assert (b * q + d) * p == (b * q) * p + d * p;
    assert (b * q) * p == q * (b * p);
  }

  lemma {:induction false} DivModUnique(n: int, d: int, q: int, r: int)
    requires 0 <= r < d
    requires n == q * d + r
    ensures n / d == q && n % d == r
  {
    var q', r' := n / d, n % d;
    assert n == q' * d + r';
    if q' > q {
      MulLe(q + 1, q', d);
      assert false;
    } else if q' < q {
      MulLe(q' + 1, q, d);
      assert false;
    }
  }

  lemma {:induction false} DivDiv(n: nat, a: nat, b: nat)
    requires a > 0 && b > 0
    ensures b * a > 0
    ensures n / a / b == n / (b * a)
  {
    var q1, r1 := n / a, n % a;
    var q2, r2 := q1 / b, q1 % b;
    assert n == q1 * a + r1;
    assert q1 == b * q2 + r2;
    Regroup(q2, r2, b, a);
    MulLe(r2, b - 1, a);
    assert (b - 1) * a == b * a - a;
    DivModUnique(n, b * a, q2, r2 * a + r1);
  }

  lemma {:induction false} DivDivCommute(n: nat, a: nat, b: nat)
    requires a > 0 && b > 0
    ensures n / a / b == n / b / a
  {
    DivDiv(n, a, b);
    DivDiv(n, b, a);
  }

  lemma {:induction false} ShiftIsProduct(h: int, k: nat)
    ensures Shift(h, k) == h * Pow10(k)
  {
    if k > 0 {
      ShiftIsProduct(h, k - 1);
      Reorder(h, Pow10(k - 1));
    }
  }

  lemma {:induction false} Reorder(h: int, p: int)
    ensures 10 * (h * p) == h * (10 * p)
  {
  }

  lemma {:induction false} ShiftSum(a: int, b: int, k: nat)
    ensures Shift(a, k) + Shift(b, k) == Shift(a + b, k)
  {
    if k > 0 {
      ShiftSum(a, b, k - 1);
    }
  }

  lemma {:induction false} ShiftOrder(a: int, b: int, k: nat)
    requires a < b
    ensures Shift(a, k) + Pow10(k) <= Shift(b, k)
  {
    if k > 0 {
      ShiftOrder(a, b, k - 1);
    }
  }

  lemma {:induction false} ShiftScale(a: int, d: int, k: nat)
    ensures Shift(a, k) * d == Shift(a * d, k)
  {
    if k > 0 {
      ShiftScale(a, d, k - 1);
      assert 10 * Shift(a, k - 1) * d == 10 * (Shift(a, k - 1) * d);
    }
  }

  /** Splitting a number at digit k. */
  lemma {:induction false} Split(n: nat, k: nat)
    ensures n == Shift(High(n, k), k) + Low(n, k)
  {
    if k > 0 {
      Split(n / 10, k - 1);
    }
  }

  /** The split at digit k is the only one with a low part below 10^k. */
  lemma {:induction false} SplitUnique(n: nat, k: nat, h: int, m: int)
    requires 0 <= m < Pow10(k)
    requires n == Shift(h, k) + m
    ensures High(n, k) == h && Low(n, k) == m
  {
    if k > 0 {
      SplitUnique(n / 10, k - 1, h, m / 10);
    }
  }

  /** High and Low are the quotient and the remainder by 10^k. */
  lemma {:induction false} QuotientRemainder(n: nat, k: nat)
    ensures High(n, k) == n / Pow10(k) && Low(n, k) == n % Pow10(k)
  {
    Split(n, k);
    ShiftIsProduct(High(n, k), k);
    DivModUnique(n, Pow10(k), High(n, k), Low(n, k));
  }

  /** Dropping one more digit is one more division by ten; keeping one more adds digit k in front. */
  lemma {:induction false} ShiftOne(n: nat, k: nat)
    ensures High(n, k + 1) == High(n, k) / 10
    ensures Low(n, k + 1) == Shift(DigitAt(n, k), k) + Low(n, k)
  {
    if k > 0 {
      ShiftOne(n / 10, k - 1);
    }
  }

  lemma {:induction false} Pow10Add(a: nat, b: nat)
    ensures Pow10(a + b) == Pow10(a) * Pow10(b)
  {
    if a > 0 {
      Pow10Add(a - 1, b);
      assert Pow10(a + b) == 10 * (Pow10(a - 1) * Pow10(b)) == (10 * Pow10(a - 1)) * Pow10(b);
    }
  }

  lemma {:induction false} Pow10Monotone(a: nat, b: nat)
    requires a < b
    ensures 10 * Pow10(a) <= Pow10(b)
  {
    if a + 1 < b {
      Pow10Monotone(a, b - 1);
    }
  }

  /** A number has at most k digits exactly when it is below 10^k. */
  lemma {:induction false} NumDigitsBound(n: nat, k: nat)
    requires k > 0
    ensures NumDigits(n) <= k <==> n < Pow10(k)
  {
    if n >= 10 && k > 1 {
      NumDigitsBound(n / 10, k - 1);
    }
  }

  lemma {:induction false} NumDigitsExact(n: nat)
    ensures n < Pow10(NumDigits(n))
    ensures n > 0 ==> n >= Pow10(NumDigits(n) - 1)
  {
    NumDigitsBound(n, NumDigits(n));
    if NumDigits(n) > 1 {
      NumDigitsBound(n, NumDigits(n) - 1);
    }
  }

  lemma {:induction false} NumDigitsMonotone(a: nat, b: nat)
    requires a <= b
    ensures NumDigits(a) <= NumDigits(b)
  {
    NumDigitsExact(b);
    NumDigitsBound(a, NumDigits(b));
  }

  lemma {:induction false} ProductBound(a: nat, b: nat, x: nat, y: nat)
    requires a < x && b < y
    ensures a * b < x * y
  {
    MulLe(a, x - 1, b);
    MulLe(b, y - 1, x);
    assert x * b == b * x && (x - 1) * b == x * b - b && (y - 1) * x == x * y - x;
  }

  /** Multiplying adds digit counts at most. */
  lemma {:induction false} NumDigitsProduct(a: nat, b: nat)
    ensures NumDigits(a * b) <= NumDigits(a) + NumDigits(b)
  {
    var x, y := NumDigits(a), NumDigits(b);
    NumDigitsExact(a);
    NumDigitsExact(b);
    Pow10Add(x, y);
    ProductBound(a, b, Pow10(x), Pow10(y));
    NumDigitsBound(a * b, x + y);
  }

  lemma {:induction false} TextDigits(n: nat)
    ensures |Text(n)| == NumDigits(n)
    ensures AllDigits(Text(n))
    ensures forall i :: 0 <= i < |Text(n)| ==> Text(n)[i] == DigitAt(n, |Text(n)| - 1 - i)
  {
    if n >= 10 {
      TextDigits(n / 10);
      forall i | 0 <= i < |Text(n)| - 1
        ensures Text(n)[i] == DigitAt(n, |Text(n)| - 1 - i)
      {
        var k := |Text(n)| - 2 - i;
        assert High(n / 10, k) == High(n, k + 1);
        assert Text(n)[i] == Text(n / 10)[i];
      }
    }
  }

  lemma {:induction false} ValueOfText(n: nat)
    ensures Value(Text(n)) == n
  {
    if n >= 10 {
      ValueOfText(n / 10);
      assert Text(n)[..|Text(n)| - 1] == Text(n / 10);
    }
  }

  lemma {:induction false} LastDigitUnique(a: nat, d: nat, b: nat, e: nat)
    requires 10 * a + d == 10 * b + e && d < 10 && e < 10
    ensures a == b && d == e
  {
  }

  /** A digit text of fixed length is determined by its value. */
  lemma {:induction false} ValueInjective(s: seq<nat>, t: seq<nat>)
    requires |s| == |t| && AllDigits(s) && AllDigits(t)
    requires Value(s) == Value(t)
    ensures s == t
  {
    if s != [] {
      var i := |s| - 1;
      LastDigitUnique(Value(s[..i]), s[i], Value(t[..i]), t[i]);
      ValueInjective(s[..i], t[..i]);
      assert s == s[..i] + [s[i]] && t == t[..i] + [t[i]];
    }
  }

  lemma {:induction false} NumDigitsHigh(n: nat, k: nat)
    requires High(n, k) > 0
    ensures NumDigits(n) == NumDigits(High(n, k)) + k
  {
    if k > 0 {
      HighOfSmall(n, k);
      NumDigitsHigh(n / 10, k - 1);
    }
  }

  lemma {:induction false} HighOfSmall(n: nat, k: nat)
    requires High(n, k) > 0 && k > 0
    ensures n >= 10
  {
    if n < 10 {
      HighOfZero(k - 1);
    }
  }

  lemma {:induction false} HighOfZero(k: nat)
    ensures High(0, k) == 0
  {
    if k > 0 {
      HighOfZero(k - 1);
    }
  }

  /** A number of at most k digits has nothing above digit k. */
  lemma {:induction false} HighAll(n: nat, k: nat)
    requires NumDigits(n) <= k
    ensures High(n, k) == 0 && Low(n, k) == n
  {
    NumDigitsBound(n, k);
    ShiftIsProduct(0, k);
    SplitUnique(n, k, 0, n);
  }
}
