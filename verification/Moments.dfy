/** Welford's recurrence against the two-pass definition of mean and squared deviations, over the reals. */
module Moments {
  type Row = seq<real>

  // ---------------------------------------------------------------- the two-pass definition

  function Sum<T>(f: T -> real, xs: seq<T>): real
  {
    if xs == [] then 0.0 else Sum(f, xs[..|xs| - 1]) + f(xs[|xs| - 1])
  }

  function Square(x: real): real { x * x }

  /** The entry of feature `j` in a row. */
  function Entry(r: Row, j: nat): real { if j < |r| then r[j] else 0.0 }

  function Feature(j: nat): Row -> real { (r: Row) => Entry(r, j) }

  /** The squared deviation of feature `j` from `m`. */
  function Deviation(j: nat, m: real): Row -> real { (r: Row) => Square(Entry(r, j) - m) }

  /** The number of rows, as a real. */
  function Count(rows: seq<Row>): real
  {
    if rows == [] then 0.0 else Count(rows[..|rows| - 1]) + 1.0
  }

  lemma {:induction false} CountIsLength(rows: seq<Row>)
    ensures Count(rows) == |rows| as real
  {
    if rows != [] {
      CountIsLength(rows[..|rows| - 1]);
    }
  }

  /** `mean` is the arithmetic mean of feature `j`, and `spread` its sum of squared deviations. */
  ghost predicate IsMoments(rows: seq<Row>, j: nat, mean: real, spread: real)
  {
    && mean * Count(rows) == Sum(Feature(j), rows)
    && spread == Sum(Deviation(j, mean), rows)
  }

  ghost predicate Constant(rows: seq<Row>, j: nat)
  {
    forall i, k :: 0 <= i < |rows| && 0 <= k < |rows| ==> Entry(rows[i], j) == Entry(rows[k], j)
  }

  // ---------------------------------------------------------------- Welford's recurrence

  /** How the sum of squared deviations depends on the point it is taken from. */
  function Shifted(n: real, s: real, v: real, m: real, m': real): real
  {
    v + 2.0 * (m - m') * (s - n * m) + n * Square(m - m')
  }

  lemma ShiftArithmetic(n: real, s: real, v: real, x: real, m: real, m': real)
    ensures Shifted(n, s, v, m, m') + Square(x - m') == Shifted(n + 1.0, s + x, v + Square(x - m), m, m')
  {
  }

  lemma {:induction false} ShiftDeviations(rows: seq<Row>, j: nat, m: real, m': real)
    ensures Sum(Deviation(j, m'), rows)
      == Shifted(Count(rows), Sum(Feature(j), rows), Sum(Deviation(j, m), rows), m, m')
  {
    if rows != [] {
      var init, x := rows[..|rows| - 1], Entry(rows[|rows| - 1], j);
      ShiftDeviations(init, j, m, m');
      var n, s, v := Count(init), Sum(Feature(j), init), Sum(Deviation(j, m), init);
      assert Sum(Deviation(j, m), rows) == v + Square(x - m);
      assert Sum(Deviation(j, m'), rows) == Shifted(n, s, v, m, m') + Square(x - m');
      assert Sum(Feature(j), rows) == s + x;
      ShiftArithmetic(n, s, v, x, m, m');
    }
  }

  lemma SumsGrow(rows: seq<Row>, row: Row, j: nat, m: real)
    ensures Sum(Feature(j), rows + [row]) == Sum(Feature(j), rows) + Entry(row, j)
    ensures Sum(Deviation(j, m), rows + [row]) == Sum(Deviation(j, m), rows) + Square(Entry(row, j) - m)
    ensures Count(rows + [row]) == Count(rows) + 1.0
  {
    var more := rows + [row];
    assert more[..|more| - 1] == rows;
  }

  lemma MeanArithmetic(n: real, s: real, m: real, x: real, q: real)
    requires m * n == s && q * (n + 1.0) == x - m
    ensures (m + q) * (n + 1.0) == s + x
  {
  }

  lemma WelfordMean(rows: seq<Row>, row: Row, j: nat, mean: real, q: real)
    requires mean * Count(rows) == Sum(Feature(j), rows)
    requires q * (Count(rows) + 1.0) == Entry(row, j) - mean
    ensures (mean + q) * Count(rows + [row]) == Sum(Feature(j), rows + [row])
  {
    SumsGrow(rows, row, j, 0.0);
    MeanArithmetic(Count(rows), Sum(Feature(j), rows), mean, Entry(row, j), q);
  }

  /** The arithmetic of one update: what the spread gains is the product of the two deltas. */
  lemma DeltaProduct(n: real, delta: real, q: real)
    requires q * (n + 1.0) == delta
    ensures n * Square(q) + Square(delta - q) == delta * (delta - q)
  {
    assert delta - q == q * n;
    assert n * (q * q) + q * n * (q * n) == (q * (n + 1.0)) * (q * n);
  }

  lemma ShiftArithmeticFromMean(n: real, s: real, v: real, m: real, q: real)
    requires m * n == s
    ensures Shifted(n, s, v, m, m + q) == v + n * Square(q)
  {
    assert s - n * m == 0.0;
  }

  /** Taken from the mean, the sum of squared deviations grows by `n` times the square of the shift. */
  lemma ShiftFromMean(rows: seq<Row>, j: nat, mean: real, q: real)
    requires mean * Count(rows) == Sum(Feature(j), rows)
    ensures Sum(Deviation(j, mean + q), rows) == Sum(Deviation(j, mean), rows) + Count(rows) * Square(q)
  {
    hide Sum;
    ShiftDeviations(rows, j, mean, mean + q);
    ShiftArithmeticFromMean(Count(rows), Sum(Feature(j), rows), Sum(Deviation(j, mean), rows), mean, q);
  }

  lemma GrownFromMean(rows: seq<Row>, row: Row, j: nat, mean: real, q: real, delta: real, gain: real)
    requires mean * Count(rows) == Sum(Feature(j), rows)
    requires delta == Entry(row, j) - mean && gain == Count(rows) * Square(q) + Square(delta - q)
    ensures Sum(Deviation(j, mean + q), rows + [row]) == Sum(Deviation(j, mean), rows) + gain
  {
    hide Sum, Count;
    ShiftFromMean(rows, j, mean, q);
    SumsGrow(rows, row, j, mean + q);
    assert Entry(row, j) - (mean + q) == delta - q;
  }

  lemma WelfordSpread(rows: seq<Row>, row: Row, j: nat, mean: real, q: real, delta: real, gain: real)
    requires mean * Count(rows) == Sum(Feature(j), rows)
    requires delta == Entry(row, j) - mean && q * (Count(rows) + 1.0) == delta && gain == delta * (delta - q)
    ensures Sum(Deviation(j, mean + q), rows + [row]) == Sum(Deviation(j, mean), rows) + gain
  {
    hide Sum, Count;
    assert gain == Count(rows) * Square(q) + Square(delta - q) by {
      DeltaProduct(Count(rows), delta, q);
    }
    GrownFromMean(rows, row, j, mean, q, delta, gain);
  }

  /** One step of the recurrence keeps mean and spread equal to the two-pass definition. */
  lemma WelfordStep(rows: seq<Row>, row: Row, j: nat, mean: real, spread: real, q: real, delta: real, gain: real)
    requires IsMoments(rows, j, mean, spread)
    requires delta == Entry(row, j) - mean && q * (Count(rows) + 1.0) == delta && gain == delta * (delta - q)
    ensures IsMoments(rows + [row], j, mean + q, spread + gain)
  {
    hide Sum, Count;
    WelfordMean(rows, row, j, mean, q);
    WelfordSpread(rows, row, j, mean, q, delta, gain);
  }

  lemma ProductNonZero(d: real, e: real, p: real)
    requires d != 0.0 && e != 0.0 && p == d * e
    ensures p != 0.0
  {
  }

  lemma SquareIsPositive(d: real)
    ensures Square(d) >= 0.0 && (Square(d) == 0.0 <==> d == 0.0)
  {
    if d != 0.0 {
      ProductNonZero(d, d, Square(d));
    } else {
      assert Square(0.0) == 0.0;
    }
  }

  lemma {:induction false} SpreadNonNegative(rows: seq<Row>, j: nat, m: real)
    ensures Sum(Deviation(j, m), rows) >= 0.0
    ensures Sum(Deviation(j, m), rows) == 0.0 <==> forall i :: 0 <= i < |rows| ==> Entry(rows[i], j) == m
  {
    if rows != [] {
      var n := |rows| - 1;
      SpreadNonNegative(rows[..n], j, m);
      SquareIsPositive(Entry(rows[n], j) - m);
      assert Sum(Deviation(j, m), rows) == Sum(Deviation(j, m), rows[..n]) + Square(Entry(rows[n], j) - m);
      assert forall i :: 0 <= i < n ==> rows[i] == rows[..n][i];
    }
  }

  /** The spread vanishes exactly for a constant feature. */
  lemma ZeroSpreadIsConstant(rows: seq<Row>, j: nat, mean: real, spread: real)
    requires IsMoments(rows, j, mean, spread) && rows != []
    ensures spread >= 0.0
    ensures spread == 0.0 <==> Constant(rows, j)
  {
    SpreadNonNegative(rows, j, mean);
    if Constant(rows, j) {
      var c := Entry(rows[0], j);
      SumOfConstant(rows, j, c);
      CountIsLength(rows);
      SameQuotient(Count(rows), mean, c);
    }
  }

  lemma {:induction false} SumOfConstant(rows: seq<Row>, j: nat, c: real)
    requires forall i :: 0 <= i < |rows| ==> Entry(rows[i], j) == c
    ensures Sum(Feature(j), rows) == Count(rows) * c
  {
    if rows != [] {
      SumOfConstant(rows[..|rows| - 1], j, c);
    }
  }

  // ---------------------------------------------------------------- order and batch splitting do not matter

  lemma {:induction false} SumConcat<T>(f: T -> real, xs: seq<T>, ys: seq<T>)
    ensures Sum(f, xs + ys) == Sum(f, xs) + Sum(f, ys)
    decreases |ys|
  {
    if ys == [] {
      assert xs + ys == xs;
    } else {
      var init := ys[..|ys| - 1];
      SumConcat(f, xs, init);
      assert (xs + ys)[..|xs + ys| - 1] == xs + init;
    }
  }

  /** Taking out one element takes out its value. */
  lemma SumWithout<T>(f: T -> real, ys: seq<T>, k: nat)
    requires k < |ys|
    ensures Sum(f, ys) == Sum(f, ys[..k] + ys[k + 1..]) + f(ys[k])
  {
    var left, x, right := ys[..k], [ys[k]], ys[k + 1..];
    assert Sum(f, x) == f(ys[k]) by {
      assert x[..0] == [];
    }
    hide Sum;
    assert ys == (left + x) + right;
    SumConcat(f, left, x);
    SumConcat(f, left + x, right);
    SumConcat(f, left, right);
  }

  /** The last element of one permutation has its place in the other. */
  lemma TakeOut<T>(xs: seq<T>, ys: seq<T>) returns (k: nat)
    requires multiset(xs) == multiset(ys) && xs != []
    ensures k < |ys| && ys[k] == xs[|xs| - 1] && multiset(xs[..|xs| - 1]) == multiset(ys[..k] + ys[k + 1..])
  {
    var x := xs[|xs| - 1];
    assert x in multiset(xs);
    k :| 0 <= k < |ys| && ys[k] == x;
    WithoutOne(ys, k);
    WithoutOne(xs, |xs| - 1);
    assert xs[..|xs| - 1] + xs[|xs|..] == xs[..|xs| - 1];
  }

  lemma WithoutOne<T>(ys: seq<T>, k: nat)
    requires k < |ys|
    ensures multiset(ys[..k] + ys[k + 1..]) == multiset(ys) - multiset{ys[k]}
  {
    assert ys == (ys[..k] + [ys[k]]) + ys[k + 1..];
  }

  lemma {:induction false} SumOfPermutation<T>(f: T -> real, xs: seq<T>, ys: seq<T>)
    requires multiset(xs) == multiset(ys)
    ensures Sum(f, xs) == Sum(f, ys)
    decreases |xs|
  {
    if xs == [] {
      assert |multiset(ys)| == 0;
    } else {
      var k := TakeOut(xs, ys);
      SumOfPermutation(f, xs[..|xs| - 1], ys[..k] + ys[k + 1..]);
      SumWithout(f, ys, k);
    }
  }

  lemma SameQuotient(n: real, m: real, m': real)
    requires n != 0.0 && m * n == m' * n
    ensures m == m'
  {
  }

  /** Mean and spread are functions of the multiset of rows. */
  lemma MomentsOfPermutation(xs: seq<Row>, ys: seq<Row>, j: nat, m: real, s: real, m': real, s': real)
    requires xs != [] && multiset(xs) == multiset(ys)
    requires IsMoments(xs, j, m, s) && IsMoments(ys, j, m', s')
    ensures m == m' && s == s'
  {
    hide Sum, Count, Feature, Deviation;
    SameCount(xs, ys);
    SumOfPermutation(Feature(j), xs, ys);
    SameQuotient(Count(xs), m, m');
    SumOfPermutation(Deviation(j, m), xs, ys);
  }

  lemma SameCount(xs: seq<Row>, ys: seq<Row>)
    requires xs != [] && multiset(xs) == multiset(ys)
    ensures Count(xs) == Count(ys) != 0.0
  {
    hide Count;
    assert |multiset(xs)| == |multiset(ys)|;
    CountIsLength(xs);
    CountIsLength(ys);
  }

  // ---------------------------------------------------------------- rescaling

  predicate AddsAt(h: real -> real, a: real, b: real)
  {
    h(a + b) == h(a) + h(b)
  }

  ghost predicate Additive(h: real -> real)
  {
    h(0.0) == 0.0 && forall a, b :: AddsAt(h, a, b)
  }

  /** An additive map carries the sum of one sequence to the sum of its image. */
  lemma {:induction false} SumOfImage<T, U>(f: T -> real, g: U -> real, h: real -> real, xs: seq<T>, ys: seq<U>)
    requires Additive(h) && |xs| == |ys|
    requires forall i :: 0 <= i < |xs| ==> g(ys[i]) == h(f(xs[i]))
    ensures Sum(g, ys) == h(Sum(f, xs))
  {
    if xs != [] {
      var k := |xs| - 1;
      SumOfImage(f, g, h, xs[..k], ys[..k]);
      assert AddsAt(h, Sum(f, xs[..k]), f(xs[k]));
    }
  }

  function DivideBy(c: real): real -> real
    requires c != 0.0
  {
    x => x / c
  }

  lemma DivideByIsAdditive(c: real)
    requires c != 0.0
    ensures Additive(DivideBy(c))
  {
    forall a, b
      ensures AddsAt(DivideBy(c), a, b)
    {
      assert (a + b) / c == a / c + b / c;
    }
  }

  function Centered(j: nat, m: real): Row -> real { (r: Row) => Entry(r, j) - m }

  lemma {:induction false} CenteredSum(rows: seq<Row>, j: nat, m: real)
    ensures Sum(Centered(j, m), rows) == Sum(Feature(j), rows) - Count(rows) * m
  {
    if rows != [] {
      CenteredSum(rows[..|rows| - 1], j, m);
      OneMore(Count(rows[..|rows| - 1]), m);
    }
  }

  lemma OneMore(n: real, m: real)
    ensures (n + 1.0) * m == n * m + m
  {
  }
}
