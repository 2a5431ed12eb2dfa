/** What a `Numeric(18, 4)` column holds of a decimal (app/models/conversion_tag.py:42): the
    nearest multiple of 10^-4, halves rounded up, below 10^14. */
module Numeric {
  import opened Prelude
  import opened Domain

  function Pow10(n: nat): nat {
    if n == 0 then 1 else 10 * Pow10(n - 1)
  }

  /** The value in units of 10^-4, halves rounded up. */
  function Units(d: Decimal): nat {
    if d.exponent >= -4 then d.coefficient * Pow10(d.exponent + 4)
    else RoundedQuotient(d.coefficient, Pow10(-4 - d.exponent))
  }

  function RoundedQuotient(n: nat, d: nat): nat {
    if d == 0 then 0 else (n + d / 2) / d
  }

  function StoredValue(value: Option<Decimal>): Option<Decimal> {
    match value
    case None => None
    case Some(d) => Some(Decimal(Units(d), -4))
  }

  /** Eighteen digits in all. */
  predicate Fits(value: Option<Decimal>) {
    value.Some? ==> Units(value.value) < Pow10(18)
  }

  // ----- What a decimal means -----

  /** 10^e. */
  ghost function Ten(e: int): real
    decreases if e < 0 then -e else e
  {
    if e == 0 then 1.0 else if e > 0 then 10.0 * Ten(e - 1) else Ten(e + 1) / 10.0
  }

  ghost function Value(d: Decimal): real {
    d.coefficient as real * Ten(d.exponent)
  }

  const UNIT := 0.0001

  /** The column's number nearest to x, the larger of two that are equally near. */
  ghost predicate Nearest(stored: Decimal, x: real) {
    stored.exponent == -4 && -UNIT / 2.0 < Value(stored) - x <= UNIT / 2.0
  }

  lemma TenUp(e: int)
    ensures Ten(e + 1) == 10.0 * Ten(e)
  {
  }

  ghost function Times(t: real, n: nat): real {
    t * n as real
  }

  lemma TimesTen(t: real, p: nat)
    ensures Times(t, 10 * p) == 10.0 * Times(t, p) && Times(t, 1) == t
  {
    assert (10 * p) as real == 10.0 * p as real;
  }

  lemma {:induction false} TenPow(e: int, k: nat)
    ensures Times(Ten(e), Pow10(k)) == Ten(e + k)
    decreases k
  {
    if k == 0 {
      TimesTen(Ten(e), 0);
    } else {
      TenPow(e, k - 1);
      TenUp(e + k - 1);
      TimesTen(Ten(e), Pow10(k - 1));
    }
  }

  lemma {:induction false} TenPositive(e: int)
    ensures Ten(e) > 0.0
    decreases if e < 0 then -e else e
  {
    if e < 0 {
      TenPositive(e + 1);
    } else if e > 0 {
      TenPositive(e - 1);
    }
  }

  lemma UnitIsTen()
    ensures Ten(-4) == UNIT
  {
    TenUp(-4);
    TenUp(-3);
    TenUp(-2);
    TenUp(-1);
  }

  /** The quotient is off by at most half a divisor. */
  lemma QuotientNearest(n: nat, d: nat, half: nat)
    requires d == 2 * half > 0
    ensures 2 * (n - RoundedQuotient(n, d) * d) < d && 2 * (RoundedQuotient(n, d) * d - n) <= d
  {
    assert d / 2 == half;
    var q, r := (n + half) / d, (n + half) % d;
    assert n + half == d * q + r;
  }

  lemma {:induction false} Pow10Half(k: nat) returns (half: nat)
    requires k > 0
    ensures Pow10(k) == 2 * half > 0
  {
    half := 5;
    if k > 1 {
      half := Pow10Half(k - 1);
      half := 10 * half;
    }
  }

  /** Bounds on an integer, scaled. */
  lemma Scaled(t: real, gap: int, p: int, u: real)
    requires t > 0.0 && -2 * gap < p && 2 * gap <= p && t * p as real == u
    ensures -u / 2.0 < t * gap as real <= u / 2.0
  {
    var g, h := 2.0 * gap as real, p as real;
    assert -h < g <= h;
    assert t * (g + h) > 0.0 && t * (h - g) >= 0.0;
  }

  lemma Associate(x: real, y: real, z: real)
    ensures x * (y * z) == y * (x * z)
  {
  }

  lemma Product(q: nat, p: nat)
    ensures (q * p) as real == q as real * p as real
  {
  }

  lemma Difference(t: real, q: nat, p: nat, n: nat, u: real)
    requires t * p as real == u
    ensures q as real * u - n as real * t == t * (q * p - n) as real
  {
    var a, b := (q * p) as real, n as real;
    Product(q, p);
    Associate(t, q as real, p as real);
    assert (q * p - n) as real == a - b;
    assert t * (a - b) == t * a - t * b;
  }

  lemma Rescaled(c: nat, p: nat, t: real, u: real)
    requires Times(t, p) == u
    ensures (c * p) as real * t == c as real * u
  {
    Product(c, p);
    Associate(t, c as real, p as real);
  }

  /** A value with at most four decimals is stored as it is. */
  lemma StoredExactly(d: Decimal)
    requires d.exponent >= -4
    ensures Value(Decimal(Units(d), -4)) == Value(d)
  {
    var k := d.exponent + 4;
    TenPow(-4, k);
    Rescaled(d.coefficient, Pow10(k), Ten(-4), Ten(d.exponent));
  }

  lemma RoundedNearest(n: nat, t: real, p: nat, half: nat, u: real)
    requires t > 0.0 && t * p as real == u && p == 2 * half > 0
    ensures -u / 2.0 < RoundedQuotient(n, p) as real * u - n as real * t <= u / 2.0
  {
    var q := RoundedQuotient(n, p);
    QuotientNearest(n, p, half);
    Scaled(t, q * p - n, p, u);
    Difference(t, q, p, n, u);
  }

  /** Any value is stored as the nearest one. */
  lemma StoredNearest(d: Decimal)
    ensures Nearest(Decimal(Units(d), -4), Value(d))
  {
    UnitIsTen();
    if d.exponent >= -4 {
      StoredExactly(d);
    } else {
      var k := -4 - d.exponent;
      TenPow(d.exponent, k);
      TenPositive(d.exponent);
      var half := Pow10Half(k);
      RoundedNearest(d.coefficient, Ten(d.exponent), Pow10(k), half, UNIT);
    }
  }

  lemma NearestIsUnique(a: nat, b: nat, x: real)
    requires Nearest(Decimal(a, -4), x) && Nearest(Decimal(b, -4), x)
    ensures a == b
  {
    UnitIsTen();
    assert Value(Decimal(a, -4)) - Value(Decimal(b, -4)) == (a - b) as real * UNIT;
  }

  /** The column's value is null exactly for null, and else the nearest to the one given. */
  ghost predicate Rounds(stored: Option<Decimal>, given: Option<Decimal>) {
    match (stored, given)
    case (None, None) => true
    case (Some(s), Some(d)) => Nearest(s, Value(d))
    case _ => false
  }

  lemma StoredRounds(stored: Option<Decimal>, given: Option<Decimal>)
    ensures stored == StoredValue(given) <==> Rounds(stored, given)
  {
    if given.Some? {
      StoredNearest(given.value);
      if stored.Some? && Rounds(stored, given) {
        NearestIsUnique(stored.value.coefficient, Units(given.value), Value(given.value));
      }
    }
  }

  const LIMIT := 100_000_000_000_000.0

  /** The column takes a value exactly when what it would hold is less than 10^14. */
  ghost predicate InRange(given: Option<Decimal>) {
    given.Some? ==> Value(given.value) + UNIT / 2.0 < LIMIT
  }

  lemma LimitInUnits(n: nat)
    requires n == Pow10(18)
    ensures n as real * UNIT == LIMIT
  {
    assert Pow10(6) == 1_000_000;
    assert Pow10(12) == 1_000_000_000_000;
  }

  lemma FitsExactly(given: Option<Decimal>)
    ensures Fits(given) <==> InRange(given)
    ensures given.Some? ==> (Fits(given) <==> Value(StoredValue(given).value) < LIMIT)
  {
    if given.Some? {
      StoredNearest(given.value);
      UnitIsTen();
      LimitInUnits(Pow10(18));
    }
  }
}
