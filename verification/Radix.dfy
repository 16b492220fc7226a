/** Positional numerals, most significant digit first. */
module Radix {
  function Pow(base: nat, n: nat): nat {
    if n == 0 then 1 else base * Pow(base, n - 1)
  }

  ghost predicate Digits(base: nat, ds: seq<nat>) {
    forall i :: 0 <= i < |ds| ==> ds[i] < base
  }

  /** The number that a digit sequence denotes. */
  function Value(base: nat, ds: seq<nat>): nat {
    if ds == [] then 0 else Value(base, ds[..|ds| - 1]) * base + ds[|ds| - 1]
  }

  lemma MulLe(a: nat, b: nat, c: nat)
    requires a <= b
    ensures a * c <= b * c
  {
  }

  lemma PowPositive(base: nat, n: nat)
    requires 0 < base
    ensures 0 < Pow(base, n)
  {
  }

  lemma {:induction false} PowAdd(base: nat, m: nat, n: nat)
    ensures Pow(base, m + n) == Pow(base, m) * Pow(base, n)
  {
    if m != 0 {
      PowAdd(base, m - 1, n);
      assert base * (Pow(base, m - 1) * Pow(base, n)) == (base * Pow(base, m - 1)) * Pow(base, n);
    }
  }

  lemma PowMonotone(base: nat, m: nat, n: nat)
    requires 0 < base && m <= n
    ensures Pow(base, m) <= Pow(base, n)
  {
    PowAdd(base, n - m, m);
    PowPositive(base, n - m);
    MulLe(1, Pow(base, n - m), Pow(base, m));
  }

  lemma MulShift(x: nat, p: nat, y: nat, base: nat)
    ensures (x * p + y) * base == x * (base * p) + y * base
  {
  }

  lemma {:induction false} ValueConcat(base: nat, a: seq<nat>, b: seq<nat>)
    ensures Value(base, a + b) == Value(base, a) * Pow(base, |b|) + Value(base, b)
  {
    if b == [] {
      assert a + b == a;
    } else {
      var b' := b[..|b| - 1];
      ValueConcat(base, a, b');
      assert (a + b)[..|a + b| - 1] == a + b';
      MulShift(Value(base, a), Pow(base, |b'|), Value(base, b'), base);
    }
  }

  lemma ValueSingle(base: nat, d: nat)
    ensures Value(base, [d]) == d
  {
    assert [d][..0] == [];
  }

  lemma ValueCons(base: nat, d: nat, ds: seq<nat>)
    ensures Value(base, [d] + ds) == d * Pow(base, |ds|) + Value(base, ds)
  {
    ValueConcat(base, [d], ds);
    ValueSingle(base, d);
  }

  lemma DigitBelow(base: nat, v: nat, d: nat, p: nat)
    requires v < p && d < base
    ensures v * base + d < base * p
  {
    MulLe(v + 1, p, base);
    assert (v + 1) * base == v * base + base;
  }

  lemma QuotientBelow(base: nat, n: nat, p: nat)
    requires 0 < base && n < base * p
    ensures n / base < p && n == n / base * base + n % base
  {
    assert n == n / base * base + n % base;
    if p <= n / base {
      MulLe(p, n / base, base);
    }
  }

  lemma {:induction false} ValueBound(base: nat, ds: seq<nat>)
    requires 0 < base && Digits(base, ds)
    ensures Value(base, ds) < Pow(base, |ds|)
  {
    if ds != [] {
      var k := |ds| - 1;
      ValueBound(base, ds[..k]);
      DigitBelow(base, Value(base, ds[..k]), ds[k], Pow(base, k));
      assert Pow(base, |ds|) == base * Pow(base, k);
    }
  }

  lemma ValueLeading(base: nat, ds: seq<nat>)
    requires 0 < base && ds != [] && ds[0] != 0
    ensures Pow(base, |ds| - 1) <= Value(base, ds)
  {
    assert ds == [ds[0]] + ds[1..];
    ValueCons(base, ds[0], ds[1..]);
    MulLe(1, ds[0], Pow(base, |ds| - 1));
  }

  /** Dropping a leading zero keeps the number. */
  lemma ValueDropZero(base: nat, ds: seq<nat>)
    requires ds != [] && ds[0] == 0
    ensures Value(base, ds[1..]) == Value(base, ds)
  {
    assert ds == [ds[0]] + ds[1..];
    ValueCons(base, ds[0], ds[1..]);
  }

  lemma DivModUnique(base: nat, a: nat, x: nat, b: nat, y: nat)
    requires x < base && y < base
    requires a * base + x == b * base + y
    ensures a == b && x == y
  {
    if a < b {
      MulLe(a + 1, b, base);
    } else if b < a {
      MulLe(b + 1, a, base);
    }
  }

  lemma DivModOf(base: nat, a: nat, x: nat)
    requires x < base
    ensures (a * base + x) / base == a && (a * base + x) % base == x
  {
    var n := a * base + x;
    assert n == n / base * base + n % base;
    DivModUnique(base, a, x, n / base, n % base);
  }

  /** Two numerals of one length that denote the same number are the same. */
  lemma {:induction false} ValueInjective(base: nat, a: seq<nat>, b: seq<nat>)
    requires 0 < base && Digits(base, a) && Digits(base, b)
    requires |a| == |b| && Value(base, a) == Value(base, b)
    ensures a == b
  {
    if a != [] {
      var k := |a| - 1;
      DivModUnique(base, Value(base, a[..k]), a[k], Value(base, b[..k]), b[k]);
      ValueInjective(base, a[..k], b[..k]);
      assert a == a[..k] + [a[k]] && b == b[..k] + [b[k]];
    }
  }

  /** The numeral of `n` on exactly `len` digits. */
  function FixedDigits(base: nat, len: nat, n: nat): (ds: seq<nat>)
    requires 0 < base
    ensures |ds| == len
    ensures forall i :: 0 <= i < len ==> ds[i] < base
  {
    if len == 0 then [] else FixedDigits(base, len - 1, n / base) + [n % base]
  }

  lemma {:induction false} ValueOfFixedDigits(base: nat, len: nat, n: nat)
    requires 0 < base && n < Pow(base, len)
    ensures Value(base, FixedDigits(base, len, n)) == n
  {
    if len != 0 {
      QuotientBelow(base, n, Pow(base, len - 1));
      ValueOfFixedDigits(base, len - 1, n / base);
      var ds := FixedDigits(base, len, n);
      assert ds[..len - 1] == FixedDigits(base, len - 1, n / base);
    }
  }

  /** The lower byte of a number stays in its place, the rest is carried to the next. */
  lemma SplitByte(n: nat, p: nat)
    ensures n * p == n % 0x100 * p + n / 0x100 * (0x100 * p)
  {
    assert n == n % 0x100 + n / 0x100 * 0x100;
    assert n / 0x100 * 0x100 * p == n / 0x100 * (0x100 * p);
  }
}
