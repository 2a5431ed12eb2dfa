/** The counter-based fault injection of app/integrations/meta/mock_adapter.py:90-100. */
module FaultInjection {

  /** Python's `round`: to the nearest integer, ties to the even one. */
  function RoundHalfEven(x: real): int {
    var below := x.Floor;
    var part := x - below as real;
    if part < 0.5 || (part == 0.5 && below % 2 == 0) then below else below + 1
  }

  /** The two settings: every how many calls to rate-limit (0 for off), and the failure rate. */
  datatype Settings = Settings(rateLimitEvery: int, failRate: real) {
    function Threshold(): nat
      requires failRate > 0.0
    {
      var n := RoundHalfEven(1.0 / failRate);
      if n < 1 then 1 else n
    }

    /** Whether the call that brings the counter to this value fails. */
    predicate Faulted(counter: nat) {
      || (rateLimitEvery != 0 && counter % rateLimitEvery == 0)
      || (failRate > 0.0 && counter % Threshold() == 0)
    }

    /** The closed form: the multiples of either setting, less those of both. */
    function Formula(n: nat): int {
      var every := if rateLimitEvery < 0 then -rateLimitEvery else rateLimitEvery;
      var threshold := if failRate > 0.0 then Threshold() else 0;
      var both := if every > 0 && threshold > 0 then Lcm(every, threshold) else 0;
      Multiples(every, n) + Multiples(threshold, n) - Multiples(both, n)
    }

    /** How many of the first n calls fail. */
    function Faults(n: nat): nat {
      if n == 0 then 0 else Faults(n - 1) + if Faulted(n) then 1 else 0
    }
  }

  /** The integer nearest to x, of two that are equally near the even one. */
  predicate Nearest(n: int, x: real) {
    -0.5 <= x - n as real <= 0.5 && (x - n as real == 0.5 || x - n as real == -0.5 ==> n % 2 == 0)
  }

  lemma RoundNearest(n: int, x: real)
    ensures n == RoundHalfEven(x) <==> Nearest(n, x)
  {
  }

  /** The threshold is the integer nearest to 1 / failRate, but at least one. */
  lemma ThresholdExactly(s: Settings, n: int)
    requires s.failRate > 0.0 && Nearest(n, 1.0 / s.failRate)
    ensures s.Threshold() == if n >= 1 then n else 1
  {
    RoundNearest(n, 1.0 / s.failRate);
  }

  /** How many of 1..n are multiples of d; no d, no multiples. */
  function Multiples(d: nat, n: nat): nat {
    if d == 0 then 0 else n / d
  }

  predicate Common(a: nat, b: nat, m: nat)
    requires a > 0 && b > 0
  {
    m % a == 0 && m % b == 0
  }

  /** The least common multiple that is at least m. */
  function CommonFrom(a: nat, b: nat, m: nat): (l: nat)
    requires a > 0 && b > 0 && m <= a * b
    ensures m <= l && Common(a, b, l)
    ensures forall k :: m <= k < l ==> !Common(a, b, k)
    decreases a * b - m
  {
    ProductIsCommon(a, b);
    if m == a * b || Common(a, b, m) then m else CommonFrom(a, b, m + 1)
  }

  function Lcm(a: nat, b: nat): (l: nat)
    requires a > 0 && b > 0
    ensures l > 0 && Common(a, b, l)
  {
    ProductPositive(a, b);
    CommonFrom(a, b, 1)
  }

  lemma ProductPositive(a: nat, b: nat)
    requires a > 0 && b > 0
    ensures a * b >= 1
  {
  }

  lemma MultipleModulo(d: nat, q: nat)
    requires d > 0
    ensures (d * q) % d == 0
  {
    assert (d * q) / d == q by {
      DivUnique(d, q, 0);
    }
  }

  lemma MultipleGap(d: nat, p: nat, gap: nat)
    ensures d * (p + 1 + gap) >= d * p + d
  {
    assert d * (p + 1 + gap) == d * p + d + d * gap;
  }

  lemma MultipleOrder(d: nat, p: nat, q: nat)
    ensures p < q ==> d * q >= d * p + d
    ensures q < p ==> d * p >= d * q + d
  {
    if p < q {
      MultipleGap(d, p, q - p - 1);
    } else if q < p {
      MultipleGap(d, q, p - q - 1);
    }
  }

  lemma DivUnique(d: nat, q: nat, r: nat)
    requires r < d
    ensures (d * q + r) / d == q && (d * q + r) % d == r
  {
    var n := d * q + r;
    var q', r' := n / d, n % d;
    assert n == d * q' + r';
    MultipleOrder(d, q, q');
  }

  lemma ProductIsCommon(a: nat, b: nat)
    requires a > 0 && b > 0
    ensures Common(a, b, a * b)
  {
    MultipleModulo(a, b);
    MultipleModulo(b, a);
    assert a * b == b * a;
  }

  /** Taking multiples of d away keeps the remainder. */
  lemma ModuloMinus(d: nat, n: nat, k: nat)
    requires d > 0 && k <= n && k % d == 0
    ensures (n - k) % d == n % d
  {
    var p, q, r := k / d, n / d, n % d;
    assert k == d * p && n == d * q + r;
    MultipleOrder(d, p, q);
    assert p <= q;
    assert n - k == d * (q - p) + r by {
      assert d * (q - p) == d * q - d * p;
    }
    DivUnique(d, q - p, r);
  }

  lemma MultipleTransitive(d: nat, l: nat, q: nat)
    requires d > 0 && l % d == 0
    ensures (l * q) % d == 0
  {
    var p := l / d;
    assert l == d * p;
    assert l * q == d * (p * q);
    MultipleModulo(d, p * q);
  }

  /** The common multiples are the multiples of the least one. */
  lemma LcmDivides(a: nat, b: nat, n: nat)
    requires a > 0 && b > 0
    ensures Common(a, b, n) <==> n % Lcm(a, b) == 0
  {
    var l := Lcm(a, b);
    var k := l * (n / l);
    assert n == k + n % l;
    MultipleTransitive(a, l, n / l);
    MultipleTransitive(b, l, n / l);
    ModuloMinus(a, n, k);
    ModuloMinus(b, n, k);
    assert n - k == n % l;
    ProductPositive(a, b);
    assert 1 <= n % l ==> !Common(a, b, n % l);
  }

  lemma NextMultiple(d: nat, n: nat)
    requires d > 0
    ensures (n + 1) / d == n / d + if (n + 1) % d == 0 then 1 else 0
  {
    var q, r := n / d, n % d;
    assert n == d * q + r;
    if r + 1 == d {
      assert n + 1 == d * (q + 1) + 0;
      DivUnique(d, q + 1, 0);
    } else {
      DivUnique(d, q, r + 1);
    }
  }

  lemma NegativeModulus(n: nat, d: int)
    requires d != 0
    ensures n % d == n % (if d < 0 then -d else d)
  {
  }

  /** Among the first n calls exactly this many fail: the multiples of either setting, each
      counted once; a setting that is off counts nothing. */
  lemma {:induction false} FaultCount(s: Settings, n: nat)
    ensures s.Faults(n) == s.Formula(n)
  {
    if n > 0 {
      FaultCount(s, n - 1);
      FaultStep(s, n - 1);
    }
  }

  lemma FaultStep(s: Settings, n: nat)
    ensures s.Formula(n + 1) == s.Formula(n) + if s.Faulted(n + 1) then 1 else 0
  {
    var every := if s.rateLimitEvery < 0 then -s.rateLimitEvery else s.rateLimitEvery;
    var threshold := if s.failRate > 0.0 then s.Threshold() else 0;
    if every > 0 {
      NextMultiple(every, n);
      NegativeModulus(n + 1, s.rateLimitEvery);
    }
    if threshold > 0 {
      NextMultiple(threshold, n);
    }
    if every > 0 && threshold > 0 {
      NextMultiple(Lcm(every, threshold), n);
      LcmDivides(every, threshold, n + 1);
    }
  }
}
