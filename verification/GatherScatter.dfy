/** Filtering a batch down to its valid entries and putting the answers back in their places. */
module GatherScatter {
  import opened Basics
  import opened Text

  function Count(flags: seq<bool>): nat
  {
    if flags == [] then 0 else Count(flags[..|flags| - 1]) + (if flags[|flags| - 1] then 1 else 0)
  }

  lemma {:induction false} CountIs(flags: seq<bool>)
    ensures Count(flags) == |set i | 0 <= i < |flags| && flags[i]|
  {
    if flags != [] {
      var n := |flags| - 1;
      CountIs(flags[..n]);
      var before, after := set i | 0 <= i < n && flags[..n][i], set i | 0 <= i < |flags| && flags[i];
      MaybeOneMore(before, n, flags[n], after);
    }
  }

  lemma {:induction false} CountOfPrefix(flags: seq<bool>, i: nat)
    requires i < |flags|
    ensures Count(flags[..i]) <= Count(flags[..i + 1]) <= Count(flags)
    ensures flags[i] ==> Count(flags[..i]) < Count(flags)
    decreases |flags|
  {
    assert flags[..i + 1][..i] == flags[..i];
    if i + 1 == |flags| {
      assert flags[..i + 1] == flags;
    } else {
      var init := flags[..|flags| - 1];
      CountOfPrefix(init, i);
      assert init[..i] == flags[..i] && init[..i + 1] == flags[..i + 1];
    }
  }

  /** The entries whose flag is set. */
  function Gather<T>(flags: seq<bool>, xs: seq<T>): (r: seq<T>)
    requires |flags| == |xs|
    ensures |r| == Count(flags)
  {
    if flags == [] then [] else
    var n := |flags| - 1;
    Gather(flags[..n], xs[..n]) + (if flags[n] then [xs[n]] else [])
  }

  /** What is gathered stands at increasing places, which are exactly those whose flag is set. */
  lemma {:induction false} GatheredInOrder<T>(flags: seq<bool>, xs: seq<T>) returns (places: seq<nat>)
    requires |flags| == |xs|
    ensures Picks(flags, xs, Gather(flags, xs), places)
  {
    if flags == [] {
      places := [];
    } else {
      var n := |flags| - 1;
      places := GatheredInOrder(flags[..n], xs[..n]);
      PickOneMore(flags[..n], xs[..n], Gather(flags[..n], xs[..n]), places, flags[n], xs[n]);
      hide Picks;
      assert flags == flags[..n] + [flags[n]] && xs == xs[..n] + [xs[n]];
      if flags[n] {
        places := places + [n];
      }
    }
  }

  /** One answer after the other goes to the entries whose flag is set, `hole` to the rest. */
  function Filled<T>(flags: seq<bool>, raw: seq<T>, hole: T): (r: seq<T>)
    requires |raw| >= Count(flags)
    ensures |r| == |flags|
  {
    if flags == [] then [] else
    var init := flags[..|flags| - 1];
    Filled(init, raw, hole) + [if flags[|flags| - 1] then raw[Count(init)] else hole]
  }

  const STOP_ITERATION := "StopIteration"

  function Scatter<T>(flags: seq<bool>, raw: seq<T>, hole: T): Result<seq<T>>
  {
    if |raw| < Count(flags) then Error(STOP_ITERATION) else Ok(Filled(flags, raw, hole))
  }

  /** Only as many answers are used as there are flags set. */
  lemma {:induction false} FilledIgnoresRest<T>(flags: seq<bool>, raw: seq<T>, more: seq<T>, hole: T)
    requires |raw| >= Count(flags)
    ensures Filled(flags, raw + more, hole) == Filled(flags, raw, hole)
  {
    if flags != [] {
      FilledIgnoresRest(flags[..|flags| - 1], raw, more, hole);
    }
  }

  /** Scattering what was gathered restores every flagged entry in its own place. */
  lemma {:induction false} ScatterOfGather<T>(flags: seq<bool>, xs: seq<T>, hole: T)
    requires |flags| == |xs|
    ensures var r := Scatter(flags, Gather(flags, xs), hole);
      r.Ok? && forall i :: 0 <= i < |xs| ==> r.value[i] == if flags[i] then xs[i] else hole
  {
    if flags != [] {
      var n := |flags| - 1;
      ScatterOfGather(flags[..n], xs[..n], hole);
      FilledIgnoresRest(flags[..n], Gather(flags[..n], xs[..n]), if flags[n] then [xs[n]] else [], hole);
    }
  }

  /** Gathering what was scattered gives back the answers used, in order. */
  lemma {:induction false} GatherOfScatter<T>(flags: seq<bool>, raw: seq<T>, hole: T)
    requires |raw| >= Count(flags)
    ensures Gather(flags, Filled(flags, raw, hole)) == raw[..Count(flags)]
  {
    if flags != [] {
      var n := |flags| - 1;
      GatherOfScatter(flags[..n], raw, hole);
      assert Filled(flags, raw, hole)[..n] == Filled(flags[..n], raw, hole);
    }
  }

  lemma {:induction false} GatherOfMap<T>(flags: seq<bool>, f: string -> T, xs: seq<string>)
    requires |flags| == |xs|
    ensures MapTexts(f, Gather(flags, xs)) == Gather(flags, MapTexts(f, xs))
  {
    if flags != [] {
      var n := |flags| - 1;
      GatherOfMap(flags[..n], f, xs[..n]);
      assert MapTexts(f, xs)[..n] == MapTexts(f, xs[..n]);
    }
  }

  // ---------------------------------------------------------------- the two layers

  datatype Raw = Raw(sentiment: string, score: real)

  datatype Entry = Scored(sentiment: string, score: real) | Invalid(error: string)

  const EMPTY_INPUT := Invalid("Invalid or empty input")
  const INVALID_INPUT := Invalid("Invalid input")
  const NOT_LOADED := "Model not loaded"

  predicate NonBlank(t: string) { Strip(t) != [] }

  function NonBlanks(texts: seq<string>): seq<bool>
  {
    seq(|texts|, i requires 0 <= i < |texts| => NonBlank(texts[i]))
  }

  function Prepared(texts: seq<string>, max: int): seq<string>
  {
    seq(|texts|, i requires 0 <= i < |texts| => Truncate(Strip(texts[i]), max))
  }

  function Entries(raw: seq<Raw>): seq<Entry>
  {
    seq(|raw|, i requires 0 <= i < |raw| => Scored(raw[i].sentiment, raw[i].score))
  }

  /** What is inferred for the valid texts: nothing is asked if there are none. */
  function Inferred(infer: seq<string> -> Result<seq<Raw>>, valid: seq<string>): Result<seq<Raw>>
  {
    if valid == [] then Ok([]) else infer(valid)
  }

  /** The model's `predict_batch`. */
  function ModelBatch(ready: bool, infer: seq<string> -> Result<seq<Raw>>, max: int,
                      texts: seq<string>): Result<seq<Entry>>
  {
    if !ready then Error(NOT_LOADED)
    else Layer(NonBlanks(texts), Labelled(Inferred(infer, Gather(NonBlanks(texts), Prepared(texts, max)))), EMPTY_INPUT)
  }

  function Labelled(r: Result<seq<Raw>>): Result<seq<Entry>>
  {
    match r case Error(e) => Error(e) case Ok(raw) => Ok(Entries(raw))
  }

  /** The second half of either layer: an exception passes, answers are scattered. */
  function Layer(flags: seq<bool>, r: Result<seq<Entry>>, hole: Entry): Result<seq<Entry>>
  {
    match r case Error(e) => Error(e) case Ok(entries) => Scatter(flags, entries, hole)
  }

  predicate Acceptable(t: string, max: int) { NonBlank(t) && |t| <= max }

  function Acceptables(texts: seq<string>, max: int): seq<bool>
  {
    seq(|texts|, i requires 0 <= i < |texts| => Acceptable(texts[i], max))
  }

  /** The texts the service passes on. */
  function PassedOn(texts: seq<string>, max: int): seq<string>
  {
    Gather(Acceptables(texts, max), MapTexts(Strip, texts))
  }

  /** The prediction service's `predict_batch`, on top of the model's. */
  function ServiceBatch(ready: bool, infer: seq<string> -> Result<seq<Raw>>, max: int,
                        texts: seq<string>): Result<seq<Entry>>
  {
    if !ready then Error(NOT_LOADED)
    else Layer(Acceptables(texts, max), ModelBatch(ready, infer, max, PassedOn(texts, max)), INVALID_INPUT)
  }

  // ---------------------------------------------------------------- what the layers do together

  /** Among the texts the service passes on, the model finds nothing to filter out and nothing to cut. */
  lemma {:induction false} PassedOnIsValid(texts: seq<string>, max: int)
    ensures forall i :: 0 <= i < |PassedOn(texts, max)| ==> Settled(PassedOn(texts, max)[i], max)
  {
    if texts != [] {
      var n := |texts| - 1;
      PassedOnIsValid(texts[..n], max);
      assert Acceptables(texts, max)[..n] == Acceptables(texts[..n], max);
      assert MapTexts(Strip, texts)[..n] == MapTexts(Strip, texts[..n]);
      var before := PassedOn(texts[..n], max);
      if Acceptable(texts[n], max) {
        StrippedIsSettled(texts[n], max);
        assert PassedOn(texts, max) == before + [Strip(texts[n])];
      } else {
        assert PassedOn(texts, max) == before + [];
      }
    }
  }

  /** The service passes on the texts that are neither blank nor too long, stripped, in order. */
  lemma PassedOnInOrder(texts: seq<string>, max: int) returns (places: seq<nat>)
    ensures |PassedOn(texts, max)| == |places| && Increasing(places)
    ensures forall k: nat :: k in places <==> k < |texts| && !IsBlank(texts[k]) && |texts[k]| <= max
    ensures forall i :: 0 <= i < |places| ==>
      places[i] < |texts| && PassedOn(texts, max)[i] == Strip(texts[places[i]])
  {
    places := GatheredInOrder(Acceptables(texts, max), MapTexts(Strip, texts));
    forall k | 0 <= k < |texts|
      ensures Acceptables(texts, max)[k] <==> !IsBlank(texts[k]) && |texts[k]| <= max
    {
      StripResult(texts[k]);
    }
  }

  lemma StrippedIsSettled(t: string, max: int)
    requires Acceptable(t, max)
    ensures Settled(Strip(t), max)
  {
    StripResult(t);
    assert Strip(t)[..|Strip(t)|] == Strip(t);
  }

  ghost predicate Settled(t: string, max: int)
  {
    NonBlank(t) && Truncate(Strip(t), max) == t
  }

  lemma {:induction false} AllCounted(flags: seq<bool>)
    requires forall i :: 0 <= i < |flags| ==> flags[i]
    ensures Count(flags) == |flags|
  {
    if flags != [] {
      AllCounted(flags[..|flags| - 1]);
    }
  }

  lemma {:induction false} AllGathered<T>(flags: seq<bool>, xs: seq<T>)
    requires |flags| == |xs| && forall i :: 0 <= i < |flags| ==> flags[i]
    ensures Gather(flags, xs) == xs
  {
    if flags != [] {
      var n := |flags| - 1;
      AllGathered(flags[..n], xs[..n]);
    }
  }

  lemma {:induction false} AllFilled<T>(flags: seq<bool>, raw: seq<T>, hole: T)
    requires |raw| >= Count(flags) && forall i :: 0 <= i < |flags| ==> flags[i]
    ensures |flags| <= |raw| && Filled(flags, raw, hole) == raw[..|flags|]
  {
    AllCounted(flags);
    if flags != [] {
      var n := |flags| - 1;
      AllCounted(flags[..n]);
      AllFilled(flags[..n], raw, hole);
    }
  }

  /** For settled texts the model's layer is the inference itself, cut to their number. */
  lemma ModelOnSettled(infer: seq<string> -> Result<seq<Raw>>, max: int, texts: seq<string>)
    requires forall i :: 0 <= i < |texts| ==> Settled(texts[i], max)
    ensures ModelBatch(true, infer, max, texts) == FirstOf(Labelled(Inferred(infer, texts)), |texts|)
  {
    var flags, answers := NonBlanks(texts), Labelled(Inferred(infer, texts));
    assert Prepared(texts, max) == texts;
    AllCounted(flags);
    AllGathered(flags, texts);
    assert ModelBatch(true, infer, max, texts) == Layer(flags, answers, EMPTY_INPUT);
    if answers.Ok? && |answers.value| >= |flags| {
      AllFilled(flags, answers.value, EMPTY_INPUT);
    }
  }

  function FirstOf(r: Result<seq<Entry>>, n: nat): Result<seq<Entry>>
  {
    if r.Error? then r else if |r.value| < n then Error(STOP_ITERATION) else Ok(r.value[..n])
  }

  /**
    The service answers exactly when the model is ready and the inference returns at least one result for
    each text passed on; its own iterator never runs out, since the model's layer returns one entry each.
   */
  lemma AnswersUnlessInferenceFails(ready: bool, infer: seq<string> -> Result<seq<Raw>>, max: int, texts: seq<string>)
    ensures var passed, r := PassedOn(texts, max), ServiceBatch(ready, infer, max, texts);
      && (r.Ok? <==> ready && Inferred(infer, passed).Ok? && |Inferred(infer, passed).value| >= |passed|)
      && (r.Ok? ==> |r.value| == |texts|)
  {
    var passed := PassedOn(texts, max);
    PassedOnIsValid(texts, max);
    ModelOnSettled(infer, max, passed);
    LayerAnswers(Acceptables(texts, max), Labelled(Inferred(infer, passed)), INVALID_INPUT);
  }

  lemma LayerAnswers(flags: seq<bool>, r: Result<seq<Entry>>, hole: Entry)
    ensures var l := Layer(flags, FirstOf(r, Count(flags)), hole);
      (l.Ok? <==> r.Ok? && |r.value| >= Count(flags)) && (l.Ok? ==> |l.value| == |flags|)
  {
  }

  lemma LabelledIsPointwise(f: string -> Raw, g: string -> Entry, texts: seq<string>)
    requires forall t :: g(t) == Scored(f(t).sentiment, f(t).score)
    ensures FirstOf(Labelled(Ok(MapTexts(f, texts))), |texts|) == Ok(MapTexts(g, texts))
  {
    assert Entries(MapTexts(f, texts))[..|texts|] == MapTexts(g, texts);
  }

  /** For a pointwise model the two layers together are the pointwise specification. */
  lemma TwoLayersArePointwise(infer: seq<string> -> Result<seq<Raw>>, f: string -> Raw, max: int, texts: seq<string>)
    requires forall ts :: infer(ts) == Ok(MapTexts(f, ts))
    ensures var r := ServiceBatch(true, infer, max, texts);
      r.Ok? && |r.value| == |texts| && forall i :: 0 <= i < |texts| ==>
        r.value[i] ==
          if !IsBlank(texts[i]) && |texts[i]| <= max then Scored(f(Strip(texts[i])).sentiment, f(Strip(texts[i])).score)
          else Invalid("Invalid input")
  {
    var flags, passed := Acceptables(texts, max), PassedOn(texts, max);
    var g: string -> Entry := t => Scored(f(t).sentiment, f(t).score);
    PassedOnIsValid(texts, max);
    ModelOnSettled(infer, max, passed);
    assert passed == [] ==> MapTexts(f, passed) == [];
    LabelledIsPointwise(f, g, passed);
    GatherOfMap(flags, g, MapTexts(Strip, texts));
    ScatterOfGather(flags, MapTexts(g, MapTexts(Strip, texts)), INVALID_INPUT);
    forall i | 0 <= i < |texts|
      ensures flags[i] <==> !IsBlank(texts[i]) && |texts[i]| <= max
    {
      StripResult(texts[i]);
    }
  }

  /** The model's layer alone: blank texts get the placeholder, the others are stripped and cut. */
  lemma ModelLayerIsPointwise(infer: seq<string> -> Result<seq<Raw>>, f: string -> Raw, max: int, texts: seq<string>)
    requires forall ts :: infer(ts) == Ok(MapTexts(f, ts))
    ensures var r := ModelBatch(true, infer, max, texts);
      r.Ok? && |r.value| == |texts| && forall i :: 0 <= i < |texts| ==>
        r.value[i] ==
          if IsBlank(texts[i]) then Invalid("Invalid or empty input")
          else Scored(f(Truncate(Strip(texts[i]), max)).sentiment, f(Truncate(Strip(texts[i]), max)).score)
  {
    var flags, g := NonBlanks(texts), (t: string) => Scored(f(t).sentiment, f(t).score);
    var valid := Gather(flags, Prepared(texts, max));
    assert valid == [] ==> MapTexts(f, valid) == [];
    LabelledIsPointwise(f, g, valid);
    assert Entries(MapTexts(f, valid)) == MapTexts(g, valid);
    GatherOfMap(flags, g, Prepared(texts, max));
    ScatterOfGather(flags, MapTexts(g, Prepared(texts, max)), EMPTY_INPUT);
    forall i | 0 <= i < |texts|
      ensures flags[i] <==> !IsBlank(texts[i])
    {
      StripResult(texts[i]);
    }
  }
}
