/** Double-precision numbers: how a decimal numeral is rounded to one, and how one is shortened to sixteen digits. */
module Doubles {
  import opened Machine
  import opened Radix

  /** A finite double: a sign, and its size as a multiple of 2^-1074, the smallest positive double. */
  datatype Binary64 = Binary64(negative: bool, units: nat)

  /** `x * base^n`. */
  function Times(x: nat, base: nat, n: nat): nat
    decreases n, x
  {
    if n == 0 then x else Times(x * base, base, n - 1)
  }

  /** `x / base^n`. */
  function Over(x: nat, base: nat, n: nat): nat
    requires base > 0
    decreases n, x
  {
    if n == 0 then x else Over(x / base, base, n - 1)
  }

  // ---- Rounding to a number of digits ----

  /** The whole number nearest to `n / q`, the even one of two. */
  function HalfEven(n: nat, q: nat): nat
    requires q > 0
  {
    ToEven(n / q, n % q, q)
  }

  /** `m + r / q` as a whole number. */
  function ToEven(m: nat, r: nat, q: nat): nat {
    if 2 * r < q || (2 * r == q && m % 2 == 0) then m else m + 1
  }

  /** A significand of at most `high` and an exponent: `n / q` is scaled down until it is below `high`, then rounded. */
  function Shortened(base: nat, high: nat, n: nat, q: nat): (nat, nat)
    requires base >= 2 && high > 0 && q > 0
    decreases n - q
  {
    if n < high * q then (HalfEven(n, q), 0)
    else
      ScaledDown(base, high, n, q);
      var (m, k) := Shortened(base, high, n, base * q);
      (m, k + 1)
  }

  lemma ScaledDown(base: nat, high: nat, n: nat, q: nat)
    requires base >= 2 && high > 0 && q > 0 && n >= high * q
    ensures n >= q && base * q >= 2 * q
  {
    MulLe(1, high, q);
    MulLe(2, base, q);
  }

  function Scaled(r: (nat, nat), base: nat): nat {
    Times(r.0, base, r.1)
  }

  lemma QuotientSmaller(u: nat, base: nat)
    requires u > 0 && base >= 2
    ensures u / base < u
  {
    if u / base >= u {
      MulLe(u, u / base, base);
      MulLe(2, base, u);
    }
  }

  /** A significand of at most `high` is enough to write the number. */
  predicate Short(base: nat, high: nat, u: nat)
    requires base >= 2
    decreases u
  {
    if u <= high then true
    else
      QuotientSmaller(u, base);
      u % base == 0 && Short(base, high, u / base)
  }

  lemma {:induction false} TimesScales(x: nat, factor: nat, base: nat, n: nat)
    ensures Times(factor * x, base, n) == factor * Times(x, base, n)
    decreases n
  {
    if n > 0 {
      TimesScales(x * base, factor, base, n - 1);
      assert factor * x * base == factor * (x * base);
    }
  }

  lemma {:induction false} TimesIsPow(x: nat, base: nat, n: nat)
    ensures Times(x, base, n) == x * Pow(base, n)
    decreases n
  {
    if n > 0 {
      TimesIsPow(x * base, base, n - 1);
      assert x * base * Pow(base, n - 1) == x * (base * Pow(base, n - 1));
    }
  }

  lemma ScaledMore(r: (nat, nat), base: nat)
    ensures Scaled((r.0, r.1 + 1), base) == base * Scaled(r, base)
  {
    TimesScales(r.0, base, base, r.1);
    assert r.0 * base == base * r.0;
  }

  lemma Parts(n: nat, q: nat) returns (m: nat, r: nat)
    requires q > 0
    ensures r < q && n == q * m + r && HalfEven(n, q) == ToEven(m, r, q)
  {
    m, r := n / q, n % q;
  }

  lemma StepsApart(q: nat, m: nat, u: nat)
    ensures q * (m + 1) == q * m + q
    ensures u < m ==> q * u <= q * m - q
    ensures u > m + 1 ==> q * u >= q * m + 2 * q
  {
    if u < m {
      MulLe(u + 1, m, q);
      assert q * (u + 1) == q * u + q;
    } else if u > m + 1 {
      MulLe(m + 2, u, q);
      assert q * (m + 2) == q * m + 2 * q;
    }
  }

  lemma NearestOfParts(n: nat, q: nat, m: nat, r: nat, u: nat)
    requires r < q && n == q * m + r
    ensures Distance(n, q * ToEven(m, r, q)) <= Distance(n, q * u)
  {
    StepsApart(q, m, u);
  }

  lemma NearestWhole(n: nat, q: nat, u: nat)
    requires q > 0
    ensures Distance(n, q * HalfEven(n, q)) <= Distance(n, q * u)
  {
    var m, r := Parts(n, q);
    NearestOfParts(n, q, m, r, u);
  }

  lemma MulAssoc(a: nat, b: nat, c: nat)
    ensures a * b * c == b * (a * c)
  {
  }

  /** A short number is a short multiple of the base, or lies below `high`, which is one. */
  lemma ShortMultiple(base: nat, high: nat, u: nat) returns (v: nat)
    requires base >= 2 && high > 0 && high % base == 0 && Short(base, high, u)
    ensures Short(base, high, v) && (base * v == u || (u <= high && base * v == high))
  {
    v := (if u % base == 0 then u else high) / base;
    QuotientAtMost(if u % base == 0 then u else high, base);
  }

  lemma Farther(n: nat, q: nat, u: nat, high: nat)
    requires u <= high && n >= high * q
    ensures Distance(n, q * high) <= Distance(n, q * u)
  {
    MulLe(u, high, q);
  }

  lemma QuotientAtMost(u: nat, base: nat)
    requires base >= 2 && u % base == 0
    ensures u / base <= u && base * (u / base) == u
  {
    if u > 0 {
      QuotientSmaller(u, base);
    }
  }

  /** Correct rounding: no number with a short enough significand is nearer to `n / q`. */
  lemma {:induction false} ShortenedIsNearest(base: nat, high: nat, n: nat, q: nat, u: nat)
    requires base >= 2 && high > 0 && high % base == 0 && q > 0 && Short(base, high, u)
    ensures Distance(n, q * Scaled(Shortened(base, high, n, q), base)) <= Distance(n, q * u)
    decreases n - q
  {
    if n < high * q {
      NearestWhole(n, q, u);
    } else {
      ScaledDown(base, high, n, q);
      var r := Shortened(base, high, n, base * q);
      ScaledMore(r, base);
      MulAssoc(base, q, Scaled(r, base));
      var v := ShortMultiple(base, high, u);
      ShortenedIsNearest(base, high, n, base * q, v);
      MulAssoc(base, q, v);
      if base * v != u {
        Farther(n, q, u, high);
      }
    }
  }

  lemma TieOfParts(n: nat, q: nat, m: nat, r: nat, u: nat)
    requires r < q && n == q * m + r && u != ToEven(m, r, q)
    requires Distance(n, q * ToEven(m, r, q)) == Distance(n, q * u)
    ensures ToEven(m, r, q) % 2 == 0
  {
    StepsApart(q, m, u);
  }

  lemma WholeTie(n: nat, q: nat, u: nat)
    requires q > 0 && u != HalfEven(n, q) && Distance(n, q * HalfEven(n, q)) == Distance(n, q * u)
    ensures HalfEven(n, q) % 2 == 0
  {
    var m, r := Parts(n, q);
    TieOfParts(n, q, m, r, u);
  }

  lemma NoTie(n: nat, q: nat, u: nat, high: nat)
    requires u < high && q > 0 && n >= high * q
    ensures Distance(n, q * high) < Distance(n, q * u)
  {
    MulLe(u + 1, high, q);
    assert q * (u + 1) == q * u + q;
  }

  /** Of two short numbers that are equally near, the one with the even significand is taken. */
  lemma {:induction false} TieGoesToEven(base: nat, high: nat, n: nat, q: nat, u: nat)
    requires base >= 2 && high > 0 && high % base == 0 && q > 0 && Short(base, high, u)
    requires var r := Shortened(base, high, n, q);
             u != Scaled(r, base) && Distance(n, q * Scaled(r, base)) == Distance(n, q * u)
    ensures Shortened(base, high, n, q).0 % 2 == 0
    decreases n - q
  {
    if n < high * q {
      WholeTie(n, q, u);
    } else {
      ScaledDown(base, high, n, q);
      var r := Shortened(base, high, n, base * q);
      ScaledMore(r, base);
      MulAssoc(base, q, Scaled(r, base));
      var v := ShortMultiple(base, high, u);
      MulAssoc(base, q, v);
      if base * v == u {
        TieGoesToEven(base, high, n, base * q, v);
      } else {
        TieIsNone(base, high, n, q, u, v, Scaled(r, base));
      }
    }
  }

  /** A number below `high` that is no multiple of the base is never as near as the nearest. */
  lemma TieIsNone(base: nat, high: nat, n: nat, q: nat, u: nat, v: nat, w: nat)
    requires base >= 2 && high > 0 && high % base == 0 && q > 0 && n >= high * q
    requires u <= high && base * v == high && u != high && Short(base, high, v)
    requires w == Scaled(Shortened(base, high, n, base * q), base)
    ensures Distance(n, q * (base * w)) < Distance(n, q * u)
  {
    ShortenedIsNearest(base, high, n, base * q, v);
    MulAssoc(base, q, v);
    MulAssoc(base, q, w);
    NoTie(n, q, u, high);
  }

  lemma HalfEvenBounds(n: nat, q: nat, low: nat, high: nat)
    requires q > 0 && n < high * q
    ensures HalfEven(n, q) <= high && (n >= low * q ==> HalfEven(n, q) >= low)
  {
    QuotientBelow(q, n, high);
    if n / q < low {
      MulLe(n / q + 1, low, q);
    }
  }

  lemma LowStep(base: nat, low: nat, high: nat, n: nat, q: nat)
    requires high == low * base && n >= high * q
    ensures n >= low * (base * q)
  {
    assert low * base * q == low * (base * q);
  }

  /** The significand lies between `low` and `low * base`, unless the number is below `low`. */
  lemma {:induction false} ShortenedBounds(base: nat, low: nat, high: nat, n: nat, q: nat)
    requires base >= 2 && high > 0 && high == low * base && q > 0
    ensures Shortened(base, high, n, q).0 <= high
    ensures n >= low * q ==> Shortened(base, high, n, q).0 >= low
    decreases n - q
  {
    if n < high * q {
      HalfEvenBounds(n, q, low, high);
    } else {
      ScaledDown(base, high, n, q);
      LowStep(base, low, high, n, q);
      ShortenedBounds(base, low, high, n, base * q);
    }
  }

  // ---- Equal fractions ----

  lemma ScaledOrder(c: nat, a: nat, b: nat)
    requires c > 0
    ensures c * a < c * b <==> a < b
    ensures c * a == c * b <==> a == b
  {
    if a < b {
      MulLe(a + 1, b, c);
    } else if b < a {
      MulLe(b + 1, a, c);
    }
  }

  lemma HalfEvenOf(n: nat, q: nat, m: nat, r: nat)
    requires r < q && n == m * q + r
    ensures HalfEven(n, q) == ToEven(m, r, q)
  {
    DivModOf(q, m, r);
  }

  lemma ScaledDivision(c: nat, n: nat, q: nat, m: nat, r: nat)
    requires n == m * q + r
    ensures c * n == m * (c * q) + c * r && c * (2 * r) == 2 * (c * r)
  {
    assert c * (m * q) == m * (c * q);
  }

  lemma HalfEvenScales(c: nat, n: nat, q: nat)
    requires c > 0 && q > 0
    ensures c * q > 0 && HalfEven(c * n, c * q) == HalfEven(n, q)
  {
    var m, r := n / q, n % q;
    MulLe(1, c, q);
    ScaledDivision(c, n, q, m, r);
    ScaledOrder(c, r, q);
    ScaledOrder(c, 2 * r, q);
    HalfEvenOf(n, q, m, r);
    HalfEvenOf(c * n, c * q, m, c * r);
  }

  lemma ScaledBelow(c: nat, high: nat, n: nat, q: nat)
    requires c > 0
    ensures c * n < high * (c * q) <==> n < high * q
  {
    ScaledOrder(c, n, high * q);
    assert high * (c * q) == c * (high * q);
  }

  lemma Swap(a: nat, b: nat, c: nat)
    ensures a * (b * c) == b * (a * c)
  {
  }

  lemma {:induction false} ShortenedScales(base: nat, high: nat, c: nat, n: nat, q: nat)
    requires base >= 2 && high > 0 && q > 0 && c > 0
    ensures c * q > 0 && Shortened(base, high, c * n, c * q) == Shortened(base, high, n, q)
    decreases n - q
  {
    HalfEvenScales(c, n, q);
    ScaledBelow(c, high, n, q);
    if n >= high * q {
      ScaledDown(base, high, n, q);
      ShortenedScales(base, high, c, n, base * q);
      Swap(c, base, q);
    }
  }

  /** Equal fractions are rounded alike. */
  lemma SameRatio(base: nat, high: nat, n1: nat, q1: nat, n2: nat, q2: nat)
    requires base >= 2 && high > 0 && q1 > 0 && q2 > 0 && n1 * q2 == n2 * q1
    ensures Shortened(base, high, n1, q1) == Shortened(base, high, n2, q2)
  {
    ShortenedScales(base, high, q2, n1, q1);
    ShortenedScales(base, high, q1, n2, q2);
    assert q2 * n1 == q1 * n2 && q2 * q1 == q1 * q2;
  }

  lemma NoDistance(q: nat, u: nat, v: nat)
    requires q > 0 && Distance(q * u, q * v) <= Distance(q * u, q * u)
    ensures u == v
  {
    ScaledOrder(q, u, v);
  }

  /** A short number is kept exactly. */
  lemma ShortenedExactly(base: nat, high: nat, u: nat, q: nat)
    requires base >= 2 && high > 0 && high % base == 0 && q > 0 && Short(base, high, u)
    ensures Scaled(Shortened(base, high, q * u, q), base) == u
  {
    ShortenedIsNearest(base, high, q * u, q, u);
    NoDistance(q, u, Scaled(Shortened(base, high, q * u, q), base));
  }

  // ---- Reading a decimal numeral ----

  const TWO_TO_THE_53 := 0x20_0000_0000_0000

  lemma {:induction false} TimesPositive(x: nat, base: nat, n: nat)
    requires x > 0 && base > 0
    ensures Times(x, base, n) > 0
    decreases n
  {
    if n > 0 {
      MulLe(1, base, x);
      TimesPositive(x * base, base, n - 1);
    }
  }

  /** `digits * 10^exponent` as a fraction of smallest doubles. */
  function Fraction(digits: nat, exponent: int): (f: (nat, nat))
    ensures f.1 > 0
  {
    if exponent >= 0 then (Times(Times(digits, 10, exponent), 2, 1074), 1)
    else
      TimesPositive(1, 10, -exponent);
      (Times(digits, 2, 1074), Times(1, 10, -exponent))
  }

  /** The nearest number with a significand of 53 bits, in smallest doubles. */
  function NearestUnits(digits: nat, exponent: int): nat {
    var (n, q) := Fraction(digits, exponent);
    Scaled(Shortened(2, TWO_TO_THE_53, n, q), 2)
  }

  /** The double that a numeral is read as; none if it rounds to 2^1024 or more, or to zero without being zero. */
  function FromDecimal(negative: bool, digits: nat, exponent: int): Option<Binary64> {
    var units := NearestUnits(digits, exponent);
    if Over(units, 2, 2098) > 0 || (units == 0 && digits > 0) then None else Some(Binary64(negative, units))
  }

  /** `v` is the nearest short number to `n / q`, with an even significand if another one is as near. */
  ghost predicate IsNearest(n: nat, q: nat, v: nat) {
    Short(2, TWO_TO_THE_53, v) && forall u :: Short(2, TWO_TO_THE_53, u) ==>
      && Distance(n, q * v) <= Distance(n, q * u)
      && (u != v && Distance(n, q * v) == Distance(n, q * u) ==> EvenSignificand(n, q))
  }

  predicate EvenSignificand(n: nat, q: nat) {
    q > 0 && Shortened(2, TWO_TO_THE_53, n, q).0 % 2 == 0
  }

  /** No double is nearer to the numeral than the one it is read as. */
  lemma FromDecimalIsNearest(digits: nat, exponent: int)
    ensures IsNearest(Fraction(digits, exponent).0, Fraction(digits, exponent).1, NearestUnits(digits, exponent))
  {
    var (n, q) := Fraction(digits, exponent);
    NearestOf(n, q);
  }

  lemma NearestOf(n: nat, q: nat)
    requires q > 0
    ensures IsNearest(n, q, Scaled(Shortened(2, TWO_TO_THE_53, n, q), 2))
  {
    var r := Shortened(2, TWO_TO_THE_53, n, q);
    var v := Scaled(r, 2);
    ShortenedBounds(2, TWO_TO_THE_53 / 2, TWO_TO_THE_53, n, q);
    ShortTimes(r.0, 2, TWO_TO_THE_53, r.1);
    forall u | Short(2, TWO_TO_THE_53, u)
      ensures Distance(n, q * v) <= Distance(n, q * u)
      ensures u != v && Distance(n, q * v) == Distance(n, q * u) ==> EvenSignificand(n, q)
    {
      ShortenedIsNearest(2, TWO_TO_THE_53, n, q, u);
      if u != v && Distance(n, q * v) == Distance(n, q * u) {
        TieGoesToEven(2, TWO_TO_THE_53, n, q, u);
      }
    }
  }

  lemma FractionMoves(digits: nat, exponent: int)
    ensures var (n, q) := Fraction(10 * digits, exponent - 1);
            var (m, p) := Fraction(digits, exponent);
            n * p == m * q
  {
    if exponent > 0 {
      assert Times(digits, 10, exponent) == Times(10 * digits, 10, exponent - 1);
    } else {
      var places: nat := -exponent;
      TimesScales(digits, 10, 2, 1074);
      TimesScales(1, 10, 10, places);
      assert Times(1, 10, places + 1) == Times(10 * 1, 10, places);
      Cancel(Times(digits, 2, 1074), Times(1, 10, places));
    }
  }

  lemma Cancel(m: nat, p: nat)
    ensures 10 * m * p == m * (10 * p)
  {
  }

  /** Moving the decimal point does not matter: a double is read from the number, not from its literal. */
  lemma {:induction false} SameNumberSameDouble(negative: bool, digits: nat, exponent: int, places: nat)
    ensures FromDecimal(negative, Times(digits, 10, places), exponent - places)
         == FromDecimal(negative, digits, exponent)
    decreases places
  {
    if places > 0 {
      SameNumberSameDouble(negative, digits * 10, exponent - 1, places - 1);
      FractionMoves(digits, exponent);
      var (n, q) := Fraction(10 * digits, exponent - 1);
      var (m, p) := Fraction(digits, exponent);
      SameRatio(2, TWO_TO_THE_53, n, q, m, p);
    }
  }

  // ---- The whole part ----

  /** The double without its fraction. */
  function WholePart(d: Binary64): nat {
    Over(d.units, 2, 1074)
  }

  lemma {:induction false} OverIs(x: nat, base: nat, k: nat, n: nat)
    requires base > 0
    ensures Over(x, base, k) == n <==> Times(n, base, k) <= x < Times(n + 1, base, k)
    decreases k
  {
    if k > 0 {
      OverIs(x / base, base, k - 1, n);
      TimesScales(n, base, base, k - 1);
      TimesScales(n + 1, base, base, k - 1);
      QuotientBetween(x, base, Times(n, base, k - 1), Times(n + 1, base, k - 1));
      assert n * base == base * n && (n + 1) * base == base * (n + 1);
    }
  }

  lemma QuotientBetween(x: nat, base: nat, low: nat, high: nat)
    requires base > 0
    ensures low <= x / base < high <==> base * low <= x < base * high
  {
    var m, r := x / base, x % base;
    assert x == base * m + r;
    StepsApart(base, m, low);
    StepsApart(base, m, high);
  }

  /** The whole part is the number for which the double lies between it and the next. */
  lemma WholePartIs(d: Binary64, n: nat)
    ensures WholePart(d) == n <==> Times(n, 2, 1074) <= d.units < Times(n + 1, 2, 1074)
  {
    OverIs(d.units, 2, 1074, n);
  }

  predicate BelowZero(d: Binary64) {
    d.negative && d.units > 0
  }

  /** The conversion to an unsigned integer, where it is defined. */
  function Truncated(d: Binary64): Option<u64> {
    if BelowZero(d) || WholePart(d) >= TWO_TO_THE_64 then None else Some(WholePart(d))
  }

  /** The double lies between `n` and the next whole number. */
  predicate LiesAt(d: Binary64, n: nat) {
    !BelowZero(d) && Times(n, 2, 1074) <= d.units < Times(n + 1, 2, 1074)
  }

  /** A double is converted exactly if it is not negative and lies below 2^64, and then to the number it lies at. */
  lemma TruncatedIs(d: Binary64, n: u64)
    ensures Truncated(d) == Some(n) <==> LiesAt(d, n)
  {
    WholePartIs(d, n);
  }

  lemma {:induction false} Cancels(n: nat, base: nat, low: nat, extra: nat)
    requires base > 0
    ensures Over(Times(n, base, low), base, low + extra) == Over(n, base, extra)
    decreases low
  {
    if low > 0 {
      TimesScales(n, base, base, low - 1);
      assert n * base == base * n;
      MultipleOver(base, Times(n, base, low - 1));
      Cancels(n, base, low - 1, extra);
    }
  }

  lemma MultipleOver(base: nat, n: nat)
    requires base > 0
    ensures base * n / base == n
  {
    DivModOf(base, n, 0);
  }

  lemma {:induction false} Vanishes(n: nat, bits: nat, extra: nat)
    requires n < Pow(2, bits) && bits <= extra
    ensures Over(n, 2, extra) == 0
    decreases extra
  {
    if bits > 0 {
      Vanishes(n / 2, bits - 1, extra - 1);
    } else if extra > 0 {
      Vanishes(0, 0, extra - 1);
    }
  }

  lemma {:induction false} ShortTimes(n: nat, base: nat, high: nat, k: nat)
    requires base >= 2 && n <= high
    ensures Short(base, high, Times(n, base, k))
    decreases k
  {
    if k > 0 {
      ShortTimes(n, base, high, k - 1);
      TimesScales(n, base, base, k - 1);
      assert n * base == base * n;
      MultipleOver(base, Times(n, base, k - 1));
      ShortMore(base, high, Times(n, base, k - 1));
    }
  }

  lemma ShortMore(base: nat, high: nat, u: nat)
    requires base >= 2 && Short(base, high, u)
    ensures Short(base, high, base * u)
  {
    MultipleOver(base, u);
    DivModOf(base, u, 0);
  }

  lemma WholeUnits(n: nat)
    requires n <= TWO_TO_THE_53
    ensures NearestUnits(n, 0) == Times(n, 2, 1074)
  {
    var units := Times(n, 2, 1074);
    ShortTimes(n, 2, TWO_TO_THE_53, 1074);
    ShortenedExactly(2, TWO_TO_THE_53, units, 1);
    assert 1 * units == units;
  }

  lemma PowerOfTwo()
    ensures Pow(2, 54) == 2 * TWO_TO_THE_53
  {
    PowAdd(2, 1, 2);
    PowAdd(2, 3, 3);
    PowAdd(2, 6, 3);
    PowAdd(2, 9, 9);
    PowAdd(2, 18, 18);
    PowAdd(2, 36, 18);
  }

  lemma WholeInRange(n: nat)
    requires n <= TWO_TO_THE_53
    ensures Over(Times(n, 2, 1074), 2, 2098) == 0 && (n > 0 ==> Times(n, 2, 1074) > 0)
  {
    Cancels(n, 2, 1074, 1024);
    PowerOfTwo();
    Vanishes(n, 54, 1024);
    if n > 0 {
      TimesPositive(n, 2, 1074);
    }
  }

  /** A whole number up to 2^53 is read exactly, however many decimal places are written. */
  lemma WholeNumbersAreExact(negative: bool, n: nat, places: nat)
    requires n <= TWO_TO_THE_53
    ensures var d := Binary64(negative, Times(n, 2, 1074));
            FromDecimal(negative, Times(n, 10, places), 0 - places) == Some(d) && WholePart(d) == n
  {
    SameNumberSameDouble(negative, n, 0, places);
    WholeUnits(n);
    WholeInRange(n);
    Cancels(n, 2, 1074, 0);
  }

  // ---- Sixteen digits ----

  const TEN_TO_THE_15 := 1_000_000_000_000_000
  const TEN_TO_THE_16 := 10_000_000_000_000_000

  /** The sixteen significant digits of a positive multiple of 2^-1074, and the power of ten that the first of them
      stands for. */
  function Sixteen(units: nat): (nat, int) {
    var (m, k) := Shortened(10, TEN_TO_THE_16, Times(units, 5, 1074), 1);
    if m == TEN_TO_THE_16 then (TEN_TO_THE_15, k - 1058) else (m, k - 1059)
  }

  /** `units / 2^n` is `units * 5^n / 10^n`. */
  lemma {:induction false} TenthsOf(units: nat, n: nat)
    ensures Times(Times(units, 5, n), 2, n) == Times(units, 10, n)
    decreases n
  {
    if n > 0 {
      TenthsOf(units, n - 1);
      TimesScales(units, 5, 5, n - 1);
      TimesScales(Times(units, 5, n - 1), 10, 2, n - 1);
      TimesScales(units, 10, 10, n - 1);
      assert units * 5 == 5 * units && units * 10 == 10 * units;
      assert Times(units, 5, n) * 2 == 10 * Times(units, 5, n - 1);
    }
  }

  lemma {:induction false} FivesGrow(units: nat, j: nat, n: nat)
    requires units > 0 && j <= n
    ensures Times(units, 5, n) >= Pow(5, j)
    decreases j
  {
    if j > 0 {
      FivesGrow(units, j - 1, n - 1);
      TimesScales(units, 5, 5, n - 1);
      assert units * 5 == 5 * units;
    } else {
      TimesPositive(units, 5, n);
    }
  }

  lemma PowerOfFive()
    ensures Pow(5, 22) >= TEN_TO_THE_15
  {
    PowAdd(5, 1, 2);
    PowAdd(5, 3, 2);
    PowAdd(5, 3, 3);
    PowAdd(5, 5, 6);
    PowAdd(5, 11, 11);
  }

  /** There really are sixteen digits. */
  lemma SixteenDigits(units: nat)
    requires units > 0
    ensures TEN_TO_THE_15 <= Sixteen(units).0 < TEN_TO_THE_16
  {
    FivesGrow(units, 22, 1074);
    PowerOfFive();
    ShortenedBounds(10, TEN_TO_THE_15, TEN_TO_THE_16, Times(units, 5, 1074), 1);
  }

  /** No number with sixteen digits is nearer: the number is counted in tenths to the power 1074. */
  lemma SixteenIsNearest(units: nat, u: nat)
    requires units > 0 && Short(10, TEN_TO_THE_16, u)
    ensures var (m, x) := Sixteen(units);
            var tenths := Times(units, 5, 1074);
            x >= -1059 && Distance(tenths, Times(m, 10, x + 1059)) <= Distance(tenths, u)
  {
    ShortenedIsNearest(10, TEN_TO_THE_16, Times(units, 5, 1074), 1, u);
    var r := Shortened(10, TEN_TO_THE_16, Times(units, 5, 1074), 1);
    assert TEN_TO_THE_15 * 10 == TEN_TO_THE_16;
    assert Times(TEN_TO_THE_15, 10, r.1 + 1) == Times(TEN_TO_THE_16, 10, r.1);
    assert 1 * u == u && 1 * Scaled(r, 10) == Scaled(r, 10);
  }

  /** The sixteen digits of a whole number below 10^16 are its own, followed by zeros. */
  lemma SixteenOfWhole(n: nat)
    requires 0 < n < TEN_TO_THE_16
    ensures var (m, x) := Sixteen(Times(n, 2, 1074));
            0 <= x < 16 && m == Times(n, 10, 15 - x)
  {
    var units := Times(n, 2, 1074);
    var (m, x) := Sixteen(units);
    TimesPositive(n, 2, 1074);
    SixteenDigits(units);
    TwosAndFives(n, 1074);
    ShortTimes(n, 10, TEN_TO_THE_16, 1074);
    SixteenIsNearest(units, Times(n, 10, 1074));
    assert Times(m, 10, x + 1059) == Times(n, 10, 1074);
    WholeExponent(n, m, x, 1059);
  }

  lemma {:induction false} TwosAndFives(n: nat, k: nat)
    ensures Times(Times(n, 2, k), 5, k) == Times(n, 10, k)
    decreases k
  {
    if k > 0 {
      TwosAndFives(n, k - 1);
      TimesScales(n, 2, 2, k - 1);
      TimesScales(Times(n, 2, k - 1), 10, 5, k - 1);
      TimesScales(n, 10, 10, k - 1);
      assert n * 2 == 2 * n && n * 10 == 10 * n;
      assert Times(n, 2, k) * 5 == 10 * Times(n, 2, k - 1);
    }
  }

  lemma TenTimes(n: nat, places: nat)
    ensures places > 0 ==> Times(n, 10, places) >= 10 * n
    ensures places > 15 && n > 0 ==> Times(n, 10, places) >= TEN_TO_THE_16
  {
    TimesIsPow(n, 10, places);
    if places > 0 {
      PowPositive(10, places - 1);
      MulLe(1, Pow(10, places - 1), 10 * n);
      assert n * Pow(10, places) == Pow(10, places - 1) * (10 * n);
    }
    if places > 15 && n > 0 {
      PowMonotone(10, 16, places);
      MulLe(1, n, Pow(10, places));
      TenPowers();
    }
  }

  lemma TenPowers()
    ensures Pow(10, 15) == TEN_TO_THE_15 && Pow(10, 16) == TEN_TO_THE_16
  {
    PowAdd(10, 1, 2);
    PowAdd(10, 3, 2);
    PowAdd(10, 5, 5);
    PowAdd(10, 10, 5);
  }

  lemma WholeExponent(n: nat, m: nat, x: int, shift: nat)
    requires 0 < n < TEN_TO_THE_16 && TEN_TO_THE_15 <= m < TEN_TO_THE_16
    requires x >= 0 - shift && Times(m, 10, x + shift) == Times(n, 10, 15 + shift)
    ensures 0 <= x < 16 && m == Times(n, 10, 15 - x)
  {
    if x >= 15 {
      SameTail(m, x - 15, n, 15 + shift);
      TenTimes(m, x - 15);
      assert x == 15;
    } else {
      SameTail(n, 15 - x, m, x + shift);
      TenTimes(n, 15 - x);
    }
  }

  lemma SameTail(a: nat, more: nat, b: nat, low: nat)
    requires Times(a, 10, more + low) == Times(b, 10, low)
    ensures Times(a, 10, more) == b
  {
    TimesAdd(a, more, low);
    Cancels(Times(a, 10, more), 10, low, 0);
    Cancels(b, 10, low, 0);
  }

  lemma {:induction false} TimesAdd(a: nat, more: nat, low: nat)
    ensures Times(a, 10, more + low) == Times(Times(a, 10, more), 10, low)
    decreases more
  {
    if more > 0 {
      TimesAdd(a * 10, more - 1, low);
    }
  }
}
