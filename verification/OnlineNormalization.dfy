/** The online standard scaler of the stream processor, over the reals. */
module OnlineNormalization {
  import opened Basics
  import opened Moments

  datatype Matrix = Matrix(cols: nat, rows: seq<Row>)

  predicate IsMatrix(x: Matrix)
  {
    forall i :: 0 <= i < |x.rows| ==> |x.rows[i]| == x.cols
  }

  /** The real square root, the one numpy function the transformed values depend on. */
  ghost predicate IsSqrt(sqrt: real -> real)
  {
    forall x: real :: x >= 0.0 ==> sqrt(x) >= 0.0 && sqrt(x) * sqrt(x) == x
  }

  /** The standard deviation for a variance, with zero replaced by one. */
  function Scale(sqrt: real -> real, variance: real): (c: real)
    ensures c != 0.0
  {
    var std := sqrt(variance);
    if std == 0.0 then 1.0 else std
  }

  function StandardizeRow(row: Row, m: seq<real>, c: seq<real>): Row
    requires |row| == |m| == |c|
    requires forall j :: 0 <= j < |c| ==> c[j] != 0.0
  {
    seq(|row|, j requires 0 <= j < |row| => (row[j] - m[j]) / c[j])
  }

  /**
    `out` is the standard score of a value `d` above a mean, for a sum `spread` of squared deviations of
    `n + 1` samples: of the sign of `d`, and its square is that of `d` divided by the sample variance.
   */
  ghost predicate IsStandardScore(out: real, d: real, spread: real, n: int)
  {
    if spread == 0.0 then out == d
    else (out > 0.0 <==> d > 0.0) && (out < 0.0 <==> d < 0.0) && out * out * spread == d * d * (n as real)
  }

  class OnlineStandardScaler {
    var mean: array?<real>
    var spread: array?<real>  // the attribute `var_`: a sum of squared deviations
    var samplesSeen: nat
    var features: nat

    ghost var rows: seq<Row>  // every row ever fitted

    ghost predicate Valid()
      reads this, mean, spread
    {
      && samplesSeen == |rows|
      && (mean == null <==> spread == null)
      && (mean == null <==> rows == [])
      && (mean != null ==>
            && mean != spread && mean.Length == spread.Length == features
            && (forall i :: 0 <= i < |rows| ==> |rows[i]| == features)
            && forall j :: 0 <= j < features ==> IsMoments(rows, j, mean[j], spread[j]))
    }

    constructor ()
      ensures Valid() && rows == [] && mean == null
    {
      mean, spread, samplesSeen, features := null, null, 0, 0;
      rows := [];
    }

    /**
      Fit a batch. After any sequence of calls the arrays hold the mean and the sum of squared deviations of
      all rows accepted so far; an empty batch and a batch of another width change nothing.
     */
    method PartialFit(x: Matrix) returns (r: Result<()>)
      requires Valid() && IsMatrix(x)
      modifies this, mean, spread
      ensures Valid()
      ensures r.Ok? <==> x.rows == [] || old(mean) == null || x.cols == old(features)
      ensures rows == if r.Ok? then old(rows) + x.rows else old(rows)
      ensures mean != null ==> (mean == old(mean) || fresh(mean)) && (spread == old(spread) || fresh(spread))
      ensures mean != null && old(mean) == null ==> features == x.cols
      ensures old(mean) != null ==> features == old(features)
      ensures x.rows != [] && r.Ok? ==> mean != null && features == x.cols
      ensures x.rows == [] || r.Error? ==> mean == old(mean) && spread == old(spread)
    {
      if x.rows == [] {
        assert rows == rows + x.rows;
        return Ok(());
      }
      if mean == null {
        mean := new real[x.cols](_ => 0.0);
        spread := new real[x.cols](_ => 0.0);
        features := x.cols;
      } else if x.cols != features {
        return Error("Inconsistent number of features");
      }
      for i := 0 to |x.rows|
        invariant mean != null && spread != null && mean != spread
        invariant mean.Length == spread.Length == features == x.cols
        invariant (mean == old(mean) || fresh(mean)) && (spread == old(spread) || fresh(spread))
        invariant rows == old(rows) + x.rows[..i] && samplesSeen == |rows|
        invariant forall k :: 0 <= k < |rows| ==> |rows[k]| == features
        invariant forall j :: 0 <= j < features ==> IsMoments(rows, j, mean[j], spread[j])
        invariant old(mean) != null ==> features == old(features)
      {
        Absorb(x.rows[i]);
        assert x.rows[..i + 1] == x.rows[..i] + [x.rows[i]];
      }
      assert x.rows[..|x.rows|] == x.rows;
      r := Ok(());
    }

    /** One row of the batch: the four elementwise assignments of the loop body. */
    method Absorb(row: Row)
      requires mean != null && spread != null && mean != spread
      requires mean.Length == spread.Length == |row| && samplesSeen == |rows|
      requires forall j :: 0 <= j < |row| ==> IsMoments(rows, j, mean[j], spread[j])
      modifies `samplesSeen, `rows, mean, spread
      ensures rows == old(rows) + [row] && samplesSeen == |rows|
      ensures forall j :: 0 <= j < |row| ==> IsMoments(rows, j, mean[j], spread[j])
    {
      samplesSeen := samplesSeen + 1;
      ghost var before := rows;
      rows := rows + [row];
      for j := 0 to |row|
        invariant rows == before + [row] && samplesSeen == |before| + 1
        invariant forall k :: 0 <= k < j ==> IsMoments(rows, k, mean[k], spread[k])
        invariant forall k :: j <= k < |row| ==> IsMoments(before, k, mean[k], spread[k])
      {
        var delta := row[j] - mean[j];
        var q := Quotient(delta, samplesSeen, before);
        var delta2 := row[j] - (mean[j] + q);
        var gain := delta * delta2;
        WelfordStep(before, row, j, mean[j], spread[j], q, delta, gain);
        mean[j] := mean[j] + q;
        spread[j] := spread[j] + gain;
      }
    }

    /** `delta / n`, for the sample count just advanced past `before`. */
    method Quotient(delta: real, n: nat, ghost before: seq<Row>) returns (q: real)
      requires n == |before| + 1
      ensures q * (Count(before) + 1.0) == delta
    {
      CountIsLength(before);
      q := delta / (n as real);
    }

    /** The deviations the features are divided by. */
    function Scales(sqrt: real -> real): (c: seq<real>)
      requires spread != null
      reads this, spread
    {
      var v, n := spread[..], Max(1, samplesSeen - 1) as real;
      seq(|v|, j requires 0 <= j < |v| => Scale(sqrt, v[j] / n))
    }

    function Transform(sqrt: real -> real, x: Matrix): Result<seq<Row>>
      requires mean != null ==> spread != null && mean.Length == spread.Length == features
      requires IsMatrix(x)
      reads this, mean, spread
    {
      if mean == null then Error("Scaler must be fitted before transform")
      else if x.cols != features then Error("Inconsistent number of features")
      else
        var m, c := mean[..], Scales(sqrt);
        Ok(seq(|x.rows|, i requires 0 <= i < |x.rows| => StandardizeRow(x.rows[i], m, c)))
    }

    method FitTransform(sqrt: real -> real, x: Matrix) returns (r: Result<seq<Row>>)
      requires Valid() && IsMatrix(x)
      modifies this, mean, spread
      ensures Valid()
      ensures r.Ok? ==> rows == old(rows) + x.rows && r == Transform(sqrt, x)
      ensures r.Error? ==> rows == old(rows)
      ensures r.Ok? <==> (old(mean) == null && x.rows != []) || (old(mean) != null && x.cols == old(features))
      ensures r.Ok? && IsSqrt(sqrt) ==> mean != null && features == x.cols && Scores(x, r.value)
    {
      var fitted := PartialFit(x);
      if fitted.Error? {
        return Error(fitted.error);
      }
      r := Transform(sqrt, x);
      if r.Ok? && IsSqrt(sqrt) {
        TransformScores(this, sqrt, x);
      }
    }

    /** Every entry of `out` is the standard score of the same entry of `x`, by all rows ever fitted. */
    ghost predicate Scores(x: Matrix, out: seq<Row>)
      requires mean != null ==> spread != null && mean.Length == spread.Length == features
      reads this, mean, spread
    {
      && mean != null && |out| == |x.rows|
      && forall i, j :: 0 <= i < |out| && 0 <= j < features ==>
           && |out[i]| == |x.rows[i]| == features
           && IsStandardScore(out[i][j], x.rows[i][j] - mean[j], spread[j], samplesSeen - 1)
    }
  }

  /** Neither the order of the rows nor their splitting into batches matters. */
  lemma OrderDoesNotMatter(a: OnlineStandardScaler, b: OnlineStandardScaler)
    requires a.Valid() && b.Valid() && a.mean != null && b.mean != null
    requires multiset(a.rows) == multiset(b.rows)
    ensures a.samplesSeen == b.samplesSeen && a.features == b.features
    ensures a.mean[..] == b.mean[..] && a.spread[..] == b.spread[..]
  {
    assert |multiset(a.rows)| == |multiset(b.rows)|;
    assert a.rows[0] in multiset(b.rows);
    forall j | 0 <= j < a.features
      ensures a.mean[j] == b.mean[j] && a.spread[j] == b.spread[j]
    {
      MomentsOfPermutation(a.rows, b.rows, j, a.mean[j], a.spread[j], b.mean[j], b.spread[j]);
    }
  }

  /** The stored spread is never negative, and vanishes exactly for a constant feature. */
  lemma SpreadOfConstant(s: OnlineStandardScaler, j: nat)
    requires s.Valid() && s.mean != null && j < s.features
    ensures s.spread[j] >= 0.0
    ensures s.spread[j] == 0.0 <==> Constant(s.rows, j)
  {
    ZeroSpreadIsConstant(s.rows, j, s.mean[j], s.spread[j]);
  }

  lemma DividedBySquare(v: real, n: real, c: real)
    requires n > 0.0 && c * c == v / n && v > 0.0
    ensures c != 0.0 && Square(c) != 0.0 && v / Square(c) == n
  {
    assert (c * c) * n == v;
  }

  /** Dividing by the sample deviation makes the squared deviations sum to `n`, one less than the count. */
  lemma SampleScale(sqrt: real -> real, v: real, n: real)
    requires IsSqrt(sqrt) && n > 0.0 && v > 0.0
    ensures Square(Scale(sqrt, v / n)) != 0.0 && v / Square(Scale(sqrt, v / n)) == n
  {
    var std := sqrt(v / n);
    assert v / n > 0.0;
    DividedBySquare(v, n, std);
  }

  lemma {:induction false} SampleCount(rows: seq<Row>, j: nat)
    requires !Constant(rows, j)
    ensures |rows| >= 2
  {
    if |rows| == 1 {
      assert Constant(rows, j);
    }
  }

  /** Entry by entry, `out` is feature `j` of `rows`, less `m` and divided by `c`. */
  ghost predicate Standardized(rows: seq<Row>, out: seq<Row>, j: nat, m: real, c: real)
    requires c != 0.0
  {
    |out| == |rows| && forall i :: 0 <= i < |out| ==> Entry(out[i], j) == DivideBy(c)(Entry(rows[i], j) - m)
  }

  lemma TransformIsStandardized(s: OnlineStandardScaler, sqrt: real -> real, j: nat)
    requires s.Valid() && s.mean != null && j < s.features
    ensures var t := s.Transform(sqrt, Matrix(s.features, s.rows));
      t.Ok? && Standardized(s.rows, t.value, j, s.mean[j], s.Scales(sqrt)[j])
  {
  }

  lemma StandardizedSum(rows: seq<Row>, out: seq<Row>, j: nat, m: real, c: real)
    requires c != 0.0 && Standardized(rows, out, j, m, c) && m * Count(rows) == Sum(Feature(j), rows)
    ensures Sum(Feature(j), out) == 0.0
  {
    CenteredSum(rows, j, m);
    DivideByIsAdditive(c);
    SumOfImage(Centered(j, m), Feature(j), DivideBy(c), rows, out);
  }

  lemma SquareOfQuotient(d: real, c: real)
    requires c != 0.0 && Square(c) != 0.0
    ensures Square(d / c) == Square(d) / Square(c)
  {
    var e := d / c;
    assert e * c == d;
    assert Square(e) * Square(c) == Square(d);
  }

  lemma ScoreOf(d: real, v: real, n: real, c: real)
    requires n > 0.0 && v > 0.0 && c > 0.0 && c * c == v / n
    ensures var out := d / c;
      (out > 0.0 <==> d > 0.0) && (out < 0.0 <==> d < 0.0) && out * out * v == d * d * n
  {
    var out := d / c;
    assert out * c == d;
    DividedBySquare(v, n, c);
    SquareOfQuotient(d, c);
    Regroup(Square(d), Square(c), n, Square(out), v);
  }

  lemma Regroup(d: real, c: real, n: real, out: real, v: real)
    requires c != 0.0 && out == d / c && v / c == n
    ensures out * v == d * n
  {
    assert out * c == d && n * c == v;
    assert out * v == out * (n * c);
    assert out * (n * c) == (out * c) * n;
  }

  lemma EntryIsScore(sqrt: real -> real, d: real, v: real, n: nat)
    requires IsSqrt(sqrt) && v >= 0.0 && (v > 0.0 ==> n >= 1)
    ensures IsStandardScore(d / Scale(sqrt, v / (Max(1, n) as real)), d, v, n)
  {
    var m := Max(1, n) as real;
    if v == 0.0 {
      assert v / m == 0.0;
      SquareIsPositive(sqrt(0.0));
    } else {
      assert v / m > 0.0;
      ScoreOf(d, v, m, sqrt(v / m));
    }
  }

  /**
    Any matrix of the fitted width is transformed to the standard scores of its entries, taken by the mean
    and the sample variance of all rows ever fitted, whichever rows it has itself.
   */
  lemma TransformScores(s: OnlineStandardScaler, sqrt: real -> real, x: Matrix)
    requires s.Valid() && s.mean != null && IsMatrix(x) && x.cols == s.features && IsSqrt(sqrt)
    ensures s.Transform(sqrt, x).Ok? && s.Scores(x, s.Transform(sqrt, x).value)
  {
    var out := s.Transform(sqrt, x).value;
    forall i, j | 0 <= i < |out| && 0 <= j < s.features
      ensures |out[i]| == |x.rows[i]| == s.features
      ensures IsStandardScore(out[i][j], x.rows[i][j] - s.mean[j], s.spread[j], s.samplesSeen - 1)
    {
      SpreadOfConstant(s, j);
      if s.spread[j] != 0.0 {
        SampleCount(s.rows, j);
      }
      EntryIsScore(sqrt, x.rows[i][j] - s.mean[j], s.spread[j], s.samplesSeen - 1);
    }
  }

  lemma StandardizedSquares(rows: seq<Row>, out: seq<Row>, j: nat, m: real, c: real)
    requires c != 0.0 && Square(c) != 0.0 && Standardized(rows, out, j, m, c)
    ensures Sum(Deviation(j, 0.0), out) == DivideBy(Square(c))(Sum(Deviation(j, m), rows))
  {
    DivideByIsAdditive(Square(c));
    forall i | 0 <= i < |rows|
      ensures Deviation(j, 0.0)(out[i]) == DivideBy(Square(c))(Deviation(j, m)(rows[i]))
    {
      SquareOfQuotient(Entry(rows[i], j) - m, c);
    }
    SumOfImage(Deviation(j, m), Deviation(j, 0.0), DivideBy(Square(c)), rows, out);
  }

  /** The fitted rows themselves become a column of sum zero. */
  lemma TransformCenters(s: OnlineStandardScaler, sqrt: real -> real, j: nat)
    requires s.Valid() && s.mean != null && j < s.features
    ensures var t := s.Transform(sqrt, Matrix(s.features, s.rows));
      t.Ok? && |t.value| == s.samplesSeen && Sum(Feature(j), t.value) == 0.0
  {
    TransformIsStandardized(s, sqrt, j);
    StandardizedSum(s.rows, s.Transform(sqrt, Matrix(s.features, s.rows)).value, j, s.mean[j], s.Scales(sqrt)[j]);
  }

  /** A column whose squares sum to n - 1, unless the feature is constant, when every entry becomes zero. */
  lemma TransformStandardizes(s: OnlineStandardScaler, sqrt: real -> real, j: nat)
    requires s.Valid() && s.mean != null && j < s.features && IsSqrt(sqrt)
    ensures var t := s.Transform(sqrt, Matrix(s.features, s.rows));
      && t.Ok?
      && (Constant(s.rows, j) ==> forall i :: 0 <= i < |t.value| ==> Entry(t.value[i], j) == 0.0)
      && (!Constant(s.rows, j) ==> Sum(Deviation(j, 0.0), t.value) == (s.samplesSeen - 1) as real)
  {
    TransformIsStandardized(s, sqrt, j);
    SpreadOfConstant(s, j);
    if Constant(s.rows, j) {
      TransformOfConstant(s, sqrt, j);
    } else {
      hide Sum, Constant;
      var out, c := s.Transform(sqrt, Matrix(s.features, s.rows)).value, s.Scales(sqrt)[j];
      SampleCount(s.rows, j);
      SampleScale(sqrt, s.spread[j], (s.samplesSeen - 1) as real);
      StandardizedSquares(s.rows, out, j, s.mean[j], c);
    }
  }

  lemma TransformOfConstant(s: OnlineStandardScaler, sqrt: real -> real, j: nat)
    requires s.Valid() && s.mean != null && j < s.features && Constant(s.rows, j)
    ensures var t := s.Transform(sqrt, Matrix(s.features, s.rows));
      t.Ok? && forall i :: 0 <= i < |t.value| ==> Entry(t.value[i], j) == 0.0
  {
    var c := s.Scales(sqrt)[j];
    TransformIsStandardized(s, sqrt, j);
    SpreadOfConstant(s, j);
    SpreadNonNegative(s.rows, j, s.mean[j]);
    assert DivideBy(c)(0.0) == 0.0;
  }
}
