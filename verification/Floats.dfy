// The scheduler keeps its limits as single precision numbers and compares the 32-bit sum with them
// (src/common/JobSchedulerStaticWorkloads.cpp:70-78, 115-118): both sides are rounded to 24 significant bits,
// to nearest with ties to even. Exactly when that comparison decides as the one of the numbers themselves.
module Floats {
  import opened Jobs
  import opened Admission

  /** Every number below has a single precision value of its own. */
  const EXACT: nat := 0x100_0000

  /** The distance between neighbouring single precision numbers around `n`. */
  function Spacing(n: nat): (u: nat)
    ensures u > 0 && n < EXACT * u && (u > 1 ==> EXACT * u <= 2 * n)
  {
    if n < EXACT then 1 else 2 * Spacing(n / 2)
  }

  lemma {:induction false} SpacingGrows(a: nat, b: nat)
    requires a <= b
    ensures Spacing(a) == Spacing(b) || 2 * Spacing(a) <= Spacing(b)
  {
    if EXACT <= a {
      SpacingGrows(a / 2, b / 2);
    }
  }

  /** The quotient by `u`, rounded to nearest, ties to even. */
  function Nearest(n: nat, u: nat): (q: nat)
    requires u > 0
    ensures n / u <= q <= n / u + 1
  {
    var q, rest := n / u, n % u;
    if 2 * rest < u || (2 * rest == u && q % 2 == 0) then q else q + 1
  }

  function ToFloat(n: nat): (f: nat) {
    Nearest(n, Spacing(n)) * Spacing(n)
  }

  lemma MulGrows(p: nat, q: nat, u: nat)
    requires p <= q
    ensures p * u <= q * u
  {
  }

  lemma DivGrows(a: nat, b: nat, u: nat)
    requires a <= b && u > 0
    ensures a / u < b / u || (a / u == b / u && a % u <= b % u)
  {
    var p, q := a / u, b / u;
    assert a == p * u + a % u && b == q * u + b % u;
    if p > q {
      MulGrows(q + 1, p, u);
    }
  }

  /** Within one spacing. */
  lemma NearestGrows(a: nat, b: nat, u: nat)
    requires a <= b && u > 0
    ensures Nearest(a, u) <= Nearest(b, u)
  {
    DivGrows(a, b, u);
  }

  lemma DivBounds(n: nat, m: nat, u: nat)
    requires u > 0
    ensures n < m * u ==> n / u < m
    ensures m * u <= n ==> m <= n / u
  {
    assert n == n / u * u + n % u;
    if n < m * u && m <= n / u {
      MulGrows(m, n / u, u);
    }
    if m * u <= n && n / u < m {
      MulGrows(n / u + 1, m, u);
    }
  }

  // ---------- that this is the rounding of single precision ----------

  function PowerOfTwo(e: nat): (p: nat)
    ensures p > 0
  {
    if e == 0 then 1 else 2 * PowerOfTwo(e - 1)
  }

  function FloatValue(significand: nat, e: nat): (v: nat) {
    significand * PowerOfTwo(e)
  }

  /** A natural number with a significand of 24 bits (IEEE 754, section 3.4, binary32). */
  ghost predicate IsFloat(m: nat) {
    exists s: nat, e: nat :: s <= 0x100_0000 && m == FloatValue(s, e)
  }

  lemma {:induction false} SpacingIsPower(n: nat) returns (e: nat)
    ensures Spacing(n) == PowerOfTwo(e)
  {
    e := 0;
    if EXACT <= n {
      e := SpacingIsPower(n / 2);
      e := e + 1;
    }
  }

  lemma {:induction false} PowersDivide(d: nat, e: nat) returns (k: nat)
    requires d <= e
    ensures PowerOfTwo(e) == k * PowerOfTwo(d)
    ensures d < e ==> 2 * PowerOfTwo(d) <= PowerOfTwo(e)
  {
    k := 1;
    if d < e {
      var j := PowersDivide(d, e - 1);
      k := 2 * j;
    }
  }

  lemma MulAssoc(a: nat, b: nat, c: nat)
    ensures a * (b * c) == (a * b) * c
  {
  }

  /** A multiple of `u` is not strictly between two neighbouring ones. */
  lemma NoMultipleBetween(p: nat, q: nat, u: nat)
    requires u > 0
    ensures p * u <= q * u || (q + 1) * u <= p * u
  {
    if p <= q {
      MulGrows(p, q, u);
    } else {
      MulGrows(q + 1, p, u);
    }
  }

  lemma FinerFloatIsBelow(q: nat, u: nat, s: nat, p: nat)
    requires s <= EXACT && EXACT / 2 <= q && 2 * p <= u
    ensures s * p <= q * u
  {
    MulGrows(s, EXACT, p);
    MulGrows(EXACT / 2, q, u);
  }

  lemma CoarserFloatIsMultiple(q: nat, u: nat, s: nat, p: nat, j: nat)
    requires u > 0 && p == j * u
    ensures s * p <= q * u || (q + 1) * u <= s * p
  {
    MulAssoc(s, j, u);
    NoMultipleBetween(s * j, q, u);
  }

  lemma LargeQuotient(n: nat)
    ensures Spacing(n) > 1 ==> EXACT / 2 <= n / Spacing(n)
  {
    DivBounds(n, EXACT / 2, Spacing(n));
  }

  lemma NoValueBetween(q: nat, u: nat, k: nat, s: nat, e: nat)
    requires u == PowerOfTwo(k) && (u > 1 ==> EXACT / 2 <= q) && s <= EXACT
    ensures FloatValue(s, e) <= q * u || (q + 1) * u <= FloatValue(s, e)
  {
    if k <= e {
      var j := PowersDivide(k, e);
      CoarserFloatIsMultiple(q, u, s, PowerOfTwo(e), j);
    } else {
      var _ := PowersDivide(e, k);
      FinerFloatIsBelow(q, u, s, PowerOfTwo(e));
    }
  }

  lemma NoFloatBetween(n: nat, m: nat)
    requires IsFloat(m)
    ensures var u := Spacing(n); m <= n / u * u || (n / u + 1) * u <= m
  {
    var s: nat, e: nat :| s <= 0x100_0000 && m == FloatValue(s, e);
    var k := SpacingIsPower(n);
    LargeQuotient(n);
    NoValueBetween(n / Spacing(n), Spacing(n), k, s, e);
  }

  lemma ToFloatIsFloat(n: nat)
    ensures IsFloat(ToFloat(n))
  {
    var u := Spacing(n);
    var e := SpacingIsPower(n);
    DivBounds(n, EXACT, u);
    assert ToFloat(n) == FloatValue(Nearest(n, u), e);
  }

  function Distance(a: nat, b: nat): (d: nat) {
    if a < b then b - a else a - b
  }

  /** The nearer end of [lo, lo + u] is the nearest of all numbers that are not inside. */
  lemma NearerEnd(n: nat, lo: nat, u: nat, m: nat, f: nat)
    requires lo <= n < lo + u && (m <= lo || lo + u <= m)
    requires f == lo || f == lo + u
    requires 2 * (n - lo) < u ==> f == lo
    requires 2 * (n - lo) > u ==> f == lo + u
    ensures Distance(n, f) <= Distance(n, m)
    ensures m != f && Distance(n, f) == Distance(n, m) ==> 2 * (n - lo) == u && Distance(m, f) == u
  {
  }

  lemma EvenOnTie(n: nat)
    requires 2 * (n % Spacing(n)) == Spacing(n)
    ensures exists h: nat :: ToFloat(n) == h * (2 * Spacing(n))
  {
    var u := Spacing(n);
    var h := Nearest(n, u) / 2;
    assert Nearest(n, u) == h * 2;
    MulAssoc(h, 2, u);
  }

  lemma MulStep(q: nat, u: nat)
    ensures (q + 1) * u == q * u + u
  {
  }

  lemma DivEnds(n: nat, u: nat)
    requires u > 0
    ensures var lo := n / u * u; lo <= n < lo + u && n - lo == n % u && (n / u + 1) * u == lo + u
  {
    MulStep(n / u, u);
    assert n == n / u * u + n % u;
  }

  lemma ToFloatIsAnEnd(n: nat)
    ensures var u := Spacing(n); var lo := n / u * u;
            && lo <= n < lo + u && n - lo == n % u && (n / u + 1) * u == lo + u
            && ToFloat(n) == if 2 * (n % u) < u || (2 * (n % u) == u && n / u % 2 == 0) then lo else lo + u
  {
    DivEnds(n, Spacing(n));
  }

  /** The result is a float, no float is nearer, and of two that are equally near it is the even one. */
  lemma ToFloatIsNearest(n: nat, m: nat)
    requires IsFloat(m)
    ensures IsFloat(ToFloat(n)) && Distance(n, ToFloat(n)) <= Distance(n, m)
    ensures m != ToFloat(n) && Distance(n, ToFloat(n)) == Distance(n, m) ==>
              exists h: nat :: ToFloat(n) == h * (2 * Distance(m, ToFloat(n)))
  {
    var u := Spacing(n);
    ToFloatIsFloat(n);
    NoFloatBetween(n, m);
    ToFloatIsAnEnd(n);
    NearerEnd(n, n / u * u, u, m, ToFloat(n));
    if m != ToFloat(n) && Distance(n, ToFloat(n)) == Distance(n, m) {
      EvenOnTie(n);
    }
  }

  /** Where the spacing grows, a power of two lies between. */
  lemma FloatBounds(n: nat)
    ensures ToFloat(n) <= EXACT * Spacing(n)
    ensures Spacing(n) > 1 ==> EXACT / 2 * Spacing(n) <= ToFloat(n)
  {
    var u := Spacing(n);
    DivBounds(n, EXACT, u);
    MulGrows(Nearest(n, u), EXACT, u);
    if u > 1 {
      DivBounds(n, EXACT / 2, u);
      MulGrows(EXACT / 2, Nearest(n, u), u);
    }
  }

  /** Rounding never swaps two numbers. */
  lemma RoundingIsMonotone(a: nat, b: nat)
    requires a <= b
    ensures ToFloat(a) <= ToFloat(b)
  {
    SpacingGrows(a, b);
    var u, v := Spacing(a), Spacing(b);
    if u == v {
      NearestGrows(a, b, u);
      MulGrows(Nearest(a, u), Nearest(b, u), u);
    } else {
      FloatBounds(a);
      FloatBounds(b);
    }
  }

  /** The comparison in AreEnoughResAvail, of a 32-bit sum with the float that was stored for the limit. */
  predicate FloatCheck(limit: uint32, sum: uint32) {
    ToFloat(sum) <= ToFloat(limit)
  }

  /** It decides as the numbers do, except when a sum beyond the limit is rounded to the same float. It never
      refuses what fits. */
  lemma FloatCheckAgreesIff(limit: uint32, sum: uint32)
    ensures (FloatCheck(limit, sum) <==> sum <= limit) <==> !(limit < sum && ToFloat(sum) == ToFloat(limit))
    ensures sum <= limit ==> FloatCheck(limit, sum)
  {
    if sum <= limit {
      RoundingIsMonotone(sum, limit);
    } else {
      RoundingIsMonotone(limit, sum);
    }
  }

  /** The limits for which it is right for every sum: those whose successor rounds to something else. */
  lemma FloatCheckRightIff(limit: uint32)
    requires limit + 1 < TWO_TO_THE_32
    ensures (forall sum: uint32 :: FloatCheck(limit, sum) <==> sum <= limit) <==> ToFloat(limit) < ToFloat(limit + 1)
  {
    RoundingIsMonotone(limit, limit + 1);
    forall sum: uint32
      ensures sum <= limit ==> FloatCheck(limit, sum)
      ensures limit < sum && ToFloat(limit) < ToFloat(limit + 1) ==> !FloatCheck(limit, sum)
    {
      FloatCheckAgreesIff(limit, sum);
      if limit < sum {
        RoundingIsMonotone(limit + 1, sum);
      }
    }
    if ToFloat(limit) == ToFloat(limit + 1) {
      assert FloatCheck(limit, limit + 1);
    }
  }

  /** So it is right for every limit below 2^24, and the check on an OST with such a limit is the one of the
      model; at 2^24 one more megabyte per second passes. */
  lemma FloatCheckIsTheCheck(limits: map<string, uint32>, o: string, load: uint32, mbs: uint32)
    requires o in limits && limits[o] < EXACT
    ensures EnoughResources(limits, o, load, mbs) <==> FloatCheck(limits[o], (load + mbs) % TWO_TO_THE_32)
  {
    FloatCheckRightIff(limits[o]);
  }

  lemma FirstLimitMissed()
    ensures FloatCheck(EXACT, EXACT + 1) && ToFloat(EXACT + 1) == EXACT
  {
    assert Spacing(EXACT) == 2 * Spacing(EXACT / 2) == 2;
    assert Spacing(EXACT + 1) == 2 * Spacing((EXACT + 1) / 2) == 2;
  }
}
