/** Datatypes shared by the component models. */
module Basics {

  datatype Option<+T> = None | Some(value: T)

  datatype Result<+T> = Ok(value: T) | Error(error: string)

  /** One entry of a result list: the fields the services look at. */
  datatype Prediction = Prediction(sentiment: Option<string>, score: real, cached: bool)

  /** What a call of `model.predict_batch` may do: return any list, or raise. */
  datatype ModelOutcome = Returned(results: seq<Prediction>) | Raised(error: string)

  /** A predictor that treats every text on its own. */
  function MapTexts<T>(f: string -> T, texts: seq<string>): (r: seq<T>)
  {
    seq(|texts|, i requires 0 <= i < |texts| => f(texts[i]))
  }

  predicate NoDuplicates<T(==)>(xs: seq<T>)
  {
    forall i, j :: 0 <= i < j < |xs| ==> xs[i] != xs[j]
  }

  predicate Increasing(places: seq<nat>)
  {
    forall i, j :: 0 <= i < j < |places| ==> places[i] < places[j]
  }

  /** `places` are the positions whose flag is set, and `picked` is what stands there in `xs`. */
  ghost predicate Picks<T>(flags: seq<bool>, xs: seq<T>, picked: seq<T>, places: seq<nat>)
  {
    && |flags| == |xs| && |picked| == |places| && Increasing(places)
    && (forall k: nat :: k in places <==> k < |flags| && flags[k])
    && forall i :: 0 <= i < |places| ==> places[i] < |xs| && picked[i] == xs[places[i]]
  }

  lemma PickOneMore<T>(flags: seq<bool>, xs: seq<T>, picked: seq<T>, places: seq<nat>, flag: bool, x: T)
    requires Picks(flags, xs, picked, places)
    ensures flag ==> Picks(flags + [flag], xs + [x], picked + [x], places + [|xs|])
    ensures !flag ==> Picks(flags + [flag], xs + [x], picked, places)
  {
    assert forall i :: 0 <= i < |places| ==> places[i] in places;
    assert forall k :: 0 <= k < |flags| ==> (flags + [flag])[k] == flags[k];
  }

  function Min(a: int, b: int): int { if a <= b then a else b }

  function Max(a: int, b: int): int { if a >= b then a else b }

  lemma Monotone(a: int, b: int, s: nat)
    requires a <= b
    ensures a * s <= b * s
  {
  }

  lemma QuotientIs(a: int, s: nat, q: int, r: nat)
    requires s > 0 && a == q * s + r && r < s
    ensures a / s == q && a % s == r
  {
    var d := a / s;
    assert d * s <= a < (d + 1) * s;
    if d < q {
      Monotone(d + 1, q, s);
    } else if d > q {
      Monotone(q + 1, d, s);
    }
  }

  lemma MaybeOneMore(before: set<int>, n: int, more: bool, after: set<int>)
    requires n !in before && forall x: int :: x in after <==> x in before || (more && x == n)
    ensures |after| == |before| + (if more then 1 else 0)
  {
    var grown := if more then before + {n} else before;
    assert forall x: int :: x in after <==> x in grown;
    assert after == grown;
  }

  lemma SomeMember<T>(xs: set<T>) returns (x: T)
    requires xs != {}
    ensures x in xs
  {
    x :| x in xs;
  }

  lemma {:induction false} PairedCount(k: int, js: set<int>)
    ensures |set j | j in js :: (k, j)| == |js|
  {
    if js != {} {
      var j := SomeMember(js);
      PairedCount(k, js - {j});
      assert (set i | i in js :: (k, i)) == (set i | i in js - {j} :: (k, i)) + {(k, j)};
    }
  }
}
