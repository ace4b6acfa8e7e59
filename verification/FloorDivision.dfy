/** Integer floor division, computed by dividing doubles, and the integer remainder. */
module FloorDivision {
  import opened Helpers

  /** The largest integer that is not above the quotient (section 3.4.1 of the Lua 5.3 Reference Manual). */
  ghost predicate IsFloor(a: int, b: int, q: int)
    requires b != 0
  {
    if b > 0 then q * b <= a < (q + 1) * b else q * b >= a > (q + 1) * b
  }

  function Abs(x: real): real {
    if x < 0.0 then -x else x
  }

  function Exact(a: int, b: int): real
    requires b != 0
  {
    a as real / b as real
  }

  function Product(q: int, b: int): int {
    q * b
  }

  /** `x` is the double nearest to `a / b`: the relative error is at most 2^-53, and an integer quotient
      of two `int`s is represented exactly. */
  ghost predicate Rounded(a: int, b: int, x: real)
    requires b != 0
  {
    && Abs(x - Exact(a, b)) * 9007199254740992.0 <= Abs(Exact(a, b))
    && (forall q: int :: a == Product(q, b) ==> x == q as real)
  }

  lemma Regroup(x: real, y: real, z: real)
    ensures x * y * z == x * z * y
  { }

  lemma RealTimes(x: real, y: real, s: real)
    requires s > 0.0
    ensures x <= y ==> x * s <= y * s
    ensures x < y ==> x * s < y * s
  { }

  lemma AbsTimes(x: real, s: real)
    ensures Abs(x * s) == Abs(x) * Abs(s)
  { }

  /** The relative error stays the same when quotient and result are multiplied by the divisor. */
  lemma Scaled(x: real, q: real, s: real, k: real)
    requires s != 0.0 && Abs(x - q) * k <= Abs(q)
    ensures Abs(x * s - q * s) * k <= Abs(q * s)
  {
    var e := x - q;
    assert e * s == x * s - q * s;
    AbsTimes(e, s);
    AbsTimes(q, s);
    RealTimes(Abs(e) * k, Abs(q), Abs(s));
    Regroup(Abs(e), k, Abs(s));
  }

  /** The error of the quotient, multiplied by the divisor, is less than one half. */
  lemma ErrorIsSmall(a: int, b: int, x: real)
    requires Fits(a) && b != 0 && Rounded(a, b, x)
    ensures -0.5 < x * b as real - a as real < 0.5
  {
    hide Exact;
    ExactTimes(a, b);
    SmallAfter(x, Exact(a, b), b as real, a as real);
  }

  lemma SmallAfter(x: real, q: real, s: real, y: real)
    requires s != 0.0 && q * s == y && Abs(y) <= 2147483648.0 && Abs(x - q) * 9007199254740992.0 <= Abs(q)
    ensures -0.5 < x * s - y < 0.5
  {
    Scaled(x, q, s, 9007199254740992.0);
    var e := x * s - y;
    assert Abs(e) * 9007199254740992.0 <= 2147483648.0;
  }

  lemma ExactTimes(a: int, b: int)
    requires b != 0
    ensures Exact(a, b) * b as real == a as real
  { }

  lemma ExactQuotient(a: int, b: int, x: real, q: int)
    requires b != 0 && Rounded(a, b, x) && a == q * b
    ensures x == q as real
  {
    assert a == Product(q, b);
  }

  lemma Below(x: real, y: real, s: real)
    requires s != 0.0 && if s > 0.0 then x * s < y * s else x * s > y * s
    ensures x < y
  {
    RealTimes(y, x, if s > 0.0 then s else -s);
    assert s < 0.0 ==> x * -s == -(x * s) && y * -s == -(y * s);
  }

  /** The floor of the rounded quotient is the floor of the quotient, for all 32-bit operands. */
  lemma FloorIsExact(a: int, b: int, x: real, q: int)
    requires Fits(a) && Fits(b) && b != 0 && Rounded(a, b, x) && IsFloor(a, b, q)
    ensures x.Floor == q
  {
    hide Rounded, Abs, Exact;
    ErrorIsSmall(a, b, x);
    ProductAsReal(q, b);
    ProductAsReal(q + 1, b);
    BelowNext(x, b as real, a as real, (q + 1) as real);
    if a == q * b {
      ExactQuotient(a, b, x, q);
    } else {
      AbovePrevious(x, b as real, a as real, q as real);
    }
  }

  lemma BelowNext(x: real, s: real, y: real, hi: real)
    requires s != 0.0 && -0.5 < x * s - y < 0.5 && if s > 0.0 then y <= hi * s - 1.0 else y >= hi * s + 1.0
    ensures x < hi
  {
    Below(x, hi, s);
  }

  lemma AbovePrevious(x: real, s: real, y: real, lo: real)
    requires s != 0.0 && -0.5 < x * s - y < 0.5 && if s > 0.0 then y >= lo * s + 1.0 else y <= lo * s - 1.0
    ensures lo < x
  {
    Below(lo, x, s);
  }

  /** The floor exists, is unique, and is an `int` except for the minimum divided by -1. */
  function Quotient(a: int, b: int): (q: int)
    requires b != 0
    ensures IsFloor(a, b, q)
  {
    if b > 0 then a / b else (-a) / (-b)
  }

  lemma Times(x: int, y: int, n: int)
    requires n > 0
    ensures x <= y ==> x * n <= y * n
  { }

  lemma OneFloor(a: int, b: int, q: int, q': int)
    requires b != 0 && IsFloor(a, b, q) && IsFloor(a, b, q')
    ensures q == q'
  {
    var n := if b > 0 then b else -b;
    Times(q + 1, q', n);
    Times(q' + 1, q, n);
    assert b < 0 ==> q * n == -(q * b) && q' * n == -(q' * b);
    assert b < 0 ==> (q + 1) * n == -((q + 1) * b) && (q' + 1) * n == -((q' + 1) * b);
  }

  lemma QuotientFits(a: int, b: int)
    requires Fits(a) && Fits(b) && b != 0
    ensures Fits(Quotient(a, b)) <==> !(a == IntMin && b == -1)
  {
    var q := Quotient(a, b);
    var m, n := if b > 0 then a else -a, if b > 0 then b else -b;
    assert q * n <= m < (q + 1) * n;
    Times(IntMax + 1, q, n);
    Times(q + 1, IntMin, n);
    assert n == 1 ==> q == m;
  }

  /** The operator computes the floor of the quotient and leaves the range of an `int` in one case only. */
  lemma OperatorComputesFloor(a: int, b: int, x: real)
    requires Fits(a) && Fits(b) && b != 0 && Rounded(a, b, x)
    ensures x.Floor == Quotient(a, b)
    ensures Fits(x.Floor) <==> !(a == IntMin && b == -1)
  {
    FloorIsExact(a, b, x, Quotient(a, b));
    QuotientFits(a, b);
  }

  // ----- the remainder -----

  /** The remainder operator of the implementation language, with the sign of the dividend. */
  function Remainder(a: int, b: int): (r: int)
    requires b != 0
  {
    var n := if b > 0 then b else -b;
    if a >= 0 then a % n else -((-a) % n)
  }

  /** The quotient that is rounded towards zero. */
  function Truncated(a: int, b: int): int
    requires b != 0
  {
    var n, m := if b > 0 then b else -b, if a >= 0 then a else -a;
    if (a >= 0) == (b > 0) then m / n else -(m / n)
  }

  /** The remainder is what the division rounded towards zero leaves: smaller than the divisor, with the sign
      of the dividend; no other number is. */
  lemma RemainderMeaning(a: int, b: int, q: int, r: int)
    requires b != 0
    ensures a == Product(Truncated(a, b), b) + Remainder(a, b)
    ensures LeavesRemainder(a, b, Remainder(a, b))
    ensures a == Product(q, b) + r && LeavesRemainder(a, b, r) ==> r == Remainder(a, b)
  {
    hide Remainder, Truncated, Product, LeavesRemainder;
    TruncatedLaw(a, b);
    RemainderBounds(a, b);
    if a == Product(q, b) + r && LeavesRemainder(a, b, r) {
      NoOtherRemainder(a, b, q, r);
    }
  }

  lemma RemainderBounds(a: int, b: int)
    requires b != 0
    ensures LeavesRemainder(a, b, Remainder(a, b))
  {
    var n := if b > 0 then b else -b;
    ModulusBounds(if a >= 0 then a else -a, n);
    assert Remainder(a, b) == if a >= 0 then a % n else -((-a) % n);
    if a == 0 {
      MultipleLeavesNothing(0, n);
    }
  }

  lemma ModulusBounds(m: int, n: int)
    requires n > 0
    ensures 0 <= m % n < n
  {
  }

  lemma TruncatedLaw(a: int, b: int)
    requires b != 0
    ensures a == Product(Truncated(a, b), b) + Remainder(a, b)
  {
    var n, m := if b > 0 then b else -b, if a >= 0 then a else -a;
    Division(m, n);
    SignedDivision(a, b, m / n, m % n);
  }

  lemma SignedDivision(a: int, b: int, x: int, y: int)
    requires b != 0 && x * (if b > 0 then b else -b) + y == if a >= 0 then a else -a
    ensures a == Product(if (a >= 0) == (b > 0) then x else -x, b) + if a >= 0 then y else -y
  {
    Signs(x, b);
  }

  lemma NoOtherRemainder(a: int, b: int, q: int, r: int)
    requires b != 0 && a == Product(q, b) + r && LeavesRemainder(a, b, r)
    ensures r == Remainder(a, b)
  {
    var n := if b > 0 then b else -b;
    var k := if b > 0 then q else -q;
    Signs(q, b);
    Signs(k, n);
    assert k * n == q * b;
    if a >= 0 {
      OneRemainder(a, n, k, r);
    } else {
      OneRemainder(-a, n, -k, -r);
    }
  }

  lemma OneRemainder(m: int, n: int, k: int, r: int)
    requires n > 0 && m == k * n + r && 0 <= r < n
    ensures m % n == r
  {
    Division(m, n);
    var d := m / n - k;
    Spread(m / n, k, n);
    assert d * n == r - m % n;
    if r >= m % n {
      NoMultipleBetween(d, n);
    } else {
      Signs(d, n);
      NoMultipleBetween(-d, n);
    }
  }

  lemma Spread(x: int, y: int, n: int)
    ensures (x - y) * n == x * n - y * n
  {
  }

  /** A remainder is smaller than the divisor and has the sign of the dividend. */
  predicate LeavesRemainder(a: int, b: int, r: int) {
    && (r > 0 ==> a > 0) && (r < 0 ==> a < 0)
    && -(if b > 0 then b else -b) < r < (if b > 0 then b else -b)
  }

  lemma NoMultipleBetween(d: int, n: int)
    requires n > 0 && 0 <= d * n < n
    ensures d == 0
  {
    Times(1, d, n);
    Times(d, -1, n);
  }

  lemma MultipleLeavesNothing(k: int, n: int)
    requires n > 0
    ensures (k * n) % n == 0
  {
    var x := k * n;
    assert x == x / n * n + x % n;
    assert x % n == (k - x / n) * n;
    NoMultipleBetween(k - x / n, n);
  }

  lemma NegatedLeavesNothing(m: int, n: int)
    requires n > 0
    ensures m % n == 0 <==> (-m) % n == 0
  {
    MultipleLeavesNothing(-(m / n), n);
    MultipleLeavesNothing(-((-m) / n), n);
    assert m == m / n * n + m % n && -m == (-m) / n * n + (-m) % n;
    assert -(m / n) * n == -(m / n * n) && -((-m) / n) * n == -((-m) / n * n);
  }

  /** There is no remainder exactly when the divisor divides the dividend. */
  lemma DividesExactly(a: int, b: int)
    requires b != 0
    ensures Remainder(a, b) == 0 <==> exists k: int :: a == Product(k, b)
  {
    var n := if b > 0 then b else -b;
    var m := if a >= 0 then a else -a;
    if Remainder(a, b) == 0 {
      Division(m, n);
      var k := if (a >= 0) == (b > 0) then m / n else -(m / n);
      Signs(m / n, n);
      assert a == Product(k, b);
    }
    if k: int :| a == Product(k, b) {
      var k' := if (a >= 0) == (b > 0) then k else -k;
      Signs(k, b);
      assert m == k' * n;
      MultipleLeavesNothing(k', n);
    }
  }

  lemma Signs(x: int, y: int)
    ensures -x * y == -(x * y) && x * -y == -(x * y) && -x * -y == x * y
  { }

  /** Floor division and remainder fit together exactly when the divisor divides the dividend or the
      operands have the same sign. */
  lemma DivisionLaw(a: int, b: int)
    requires b != 0
    ensures Quotient(a, b) * b + Remainder(a, b) == a <==> (exists k: int :: a == Product(k, b)) || (a > 0) == (b > 0)
  {
    var n := if b > 0 then b else -b;
    NegatedLeavesNothing(a, n);
    Division(a, n);
    Division(-a, n);
    DividesExactly(a, b);
    DivisionCases(a, n, a / n, a % n, (-a) / n, (-a) % n);
  }

  lemma Division(m: int, n: int)
    requires n > 0
    ensures m / n * n + m % n == m
  { }

  /** The quotients and remainders of `a` and `-a` by `n`, and the law for the divisors `n` and `-n`. */
  lemma DivisionCases(a: int, n: int, u: int, r: int, v: int, t: int)
    requires u * n + r == a && v * n + t == -a && 0 <= r < n && 0 <= t < n && (r == 0 <==> t == 0)
    ensures u * n + (if a >= 0 then r else -t) == a <==> r == 0 || a > 0
    ensures v * -n + (if a >= 0 then r else -t) == a <==> r == 0 || a <= 0
  {
    assert v * -n == -(v * n);
    if a == 0 {
      NoMultipleBetween(-u, n);
    }
  }
}
