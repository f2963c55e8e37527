/** Small vocabulary shared by the models: optional values, outcomes and integer helpers. */
module Prelude {
  datatype Option<+T> = None | Some(value: T)

  /** A value, or the exception the source raises instead. */
  datatype Result<+T> = Ok(value: T) | Raise(error: string)

  function Max(a: int, b: int): (m: int)
    ensures m >= a && m >= b && (m == a || m == b)
  {
    if a < b then b else a
  }

  function Min(a: int, b: int): (m: int)
    ensures m <= a && m <= b && (m == a || m == b)
  {
    if a < b then a else b
  }

  lemma {:induction false} SubsetCardinality<T>(a: set<T>, b: set<T>)
    requires a <= b
    ensures |a| <= |b|
  {
    assert b == a + (b - a);
  }

  lemma MapAddSize<K, V>(m: map<K, V>, k: K, v: V)
    requires k !in m
    ensures |m[k := v]| == |m| + 1
  {
    assert m[k := v].Keys == m.Keys + {k};
  }

  lemma MapRemoveSize<K, V>(m: map<K, V>, k: K)
    requires k in m
    ensures |m - {k}| == |m| - 1
  {
    assert m.Keys == (m - {k}).Keys + {k};
  }

  lemma ProperSubsetCardinality<T>(a: set<T>, b: set<T>)
    requires a <= b && a != b
    ensures |a| < |b|
  {
    assert b == a + (b - a) && b - a != {};
  }

  /** The naturals below `n`. */
  function Below(n: nat): (s: set<nat>)
    ensures |s| == n
    ensures forall i: nat :: i in s <==> i < n
  {
    if n == 0 then {} else Below(n - 1) + {n - 1}
  }

  lemma InSeqMultiset<T>(x: T, xs: seq<T>, ys: seq<T>)
    requires multiset(xs) == multiset(ys) && x in xs
    ensures x in ys
  {
    assert x in multiset(xs);
  }

  lemma {:induction false} DistinctSize<T>(xs: seq<T>)
    requires forall i, j :: 0 <= i < j < |xs| ==> xs[i] != xs[j]
    ensures |set x | x in xs| == |xs|
  {
    var all := set x | x in xs;
    if xs == [] {
      assert all == {};
    } else {
      var init, last := xs[..|xs| - 1], xs[|xs| - 1];
      DistinctSize(init);
      assert all == (set x | x in init) + {last};
      assert last !in init;
    }
  }

  /** The part `a` of a positive whole `b`. */
  function Ratio(a: nat, b: nat): (r: real)
    requires a <= b && b > 0
    ensures 0.0 <= r <= 1.0 && (r == 1.0 <==> a == b)
  {
    RatioRange(a as real, b as real);
    a as real / b as real
  }

  lemma RatioRange(a: real, b: real)
    requires 0.0 <= a <= b && b > 0.0
    ensures 0.0 <= a / b <= 1.0 && (a / b == 1.0 <==> a == b)
  {
  }

  /** The nearest integer, halves to even, as Python rounds. */
  function RoundHalfEven(y: real): int {
    var f := y.Floor;
    var d := y - f as real;
    if d < 0.5 || (d == 0.5 && f % 2 == 0) then f else f + 1
  }

  /** No integer is nearer, and of two equally near ones the even one is taken. */
  lemma RoundHalfEvenNear(y: real)
    ensures var n := RoundHalfEven(y);
            && -0.5 <= n as real - y <= 0.5
            && (n as real - y == 0.5 || n as real - y == -0.5 ==> n % 2 == 0)
  {
  }

  /** `round(x, places)` for `scale == 10 ** places`. */
  function RoundTo(x: real, scale: int): real
    requires scale > 0
  {
    RoundHalfEven(x * scale as real) as real / scale as real
  }

  /** Rounding moves a number by half a unit of the last place at most. */
  lemma RoundToNear(x: real, scale: int)
    requires scale > 0
    ensures -0.5 <= RoundTo(x, scale) * scale as real - x * scale as real <= 0.5
  {
    RoundHalfEvenNear(x * scale as real);
    Undone(RoundHalfEven(x * scale as real) as real, scale as real);
  }

  lemma Undone(x: real, n: real)
    requires n > 0.0
    ensures x / n * n == x
  {
  }

  lemma RoundHalfEvenMonotone(x: real, y: real)
    requires x <= y
    ensures RoundHalfEven(x) <= RoundHalfEven(y)
  {
    assert x.Floor <= y.Floor;
  }

  lemma FractionAbove(a: real, n: real, bound: real)
    requires n > 0.0
    ensures a / n >= bound <==> a >= bound * n
  {
    assert a / n * n == a;
    assert a / n >= bound ==> a / n * n >= bound * n;
    assert a / n < bound ==> a / n * n < bound * n;
  }
}
