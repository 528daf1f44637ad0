/** The two layers' own methods, proved against the functions of `GatherScatter`. */
module BatchPrediction {
  import opened Basics
  import opened Text
  import opened GatherScatter

  /** The indices whose flag is set, ascending. */
  function IndicesOf(flags: seq<bool>): seq<nat>
  {
    if flags == [] then [] else
    IndicesOf(flags[..|flags| - 1]) + (if flags[|flags| - 1] then [|flags| - 1] else [])
  }

  /** Membership in the index list, which the second pass tests, recovers the flags. */
  lemma {:induction false} IndicesRecoverFlags(flags: seq<bool>)
    ensures forall i :: i in IndicesOf(flags) <==> 0 <= i < |flags| && flags[i]
  {
    if flags != [] {
      IndicesRecoverFlags(flags[..|flags| - 1]);
    }
  }

  /** The indices increase, and what was gathered stands at them. */
  lemma {:induction false} IndicesAreInOrder<T>(flags: seq<bool>, xs: seq<T>)
    requires |flags| == |xs|
    ensures Increasing(IndicesOf(flags)) && |IndicesOf(flags)| == |Gather(flags, xs)|
    ensures forall i :: 0 <= i < |IndicesOf(flags)| ==>
      IndicesOf(flags)[i] < |xs| && Gather(flags, xs)[i] == xs[IndicesOf(flags)[i]]
  {
    if flags != [] {
      var n := |flags| - 1;
      IndicesAreInOrder(flags[..n], xs[..n]);
    }
  }

  lemma NonBlanksAre(texts: seq<string>)
    ensures forall k :: 0 <= k < |texts| ==> (NonBlanks(texts)[k] <==> !IsBlank(texts[k]))
  {
    forall k | 0 <= k < |texts|
      ensures NonBlanks(texts)[k] <==> !IsBlank(texts[k])
    {
      StripResult(texts[k]);
    }
  }

  function Members(indices: seq<nat>, total: nat): seq<bool>
  {
    seq(total, i => i in indices)
  }

  class SentimentModel {
    const maxLength: int
    const infer: seq<string> -> Result<seq<Raw>>
    var ready: bool
    var predictionCount: nat

    constructor (maxLength: int, infer: seq<string> -> Result<seq<Raw>>)
      ensures this.maxLength == maxLength && this.infer == infer && !ready && predictionCount == 0
    {
      this.maxLength, this.infer, ready, predictionCount := maxLength, infer, false, 0;
    }

    method PreprocessBatchTexts(texts: seq<string>) returns (valid: seq<string>, indices: seq<nat>)
      ensures valid == Gather(NonBlanks(texts), Prepared(texts, maxLength))
      ensures indices == IndicesOf(NonBlanks(texts))
      ensures |valid| == |indices| && Increasing(indices)
      ensures forall k: nat :: k in indices <==> k < |texts| && !IsBlank(texts[k])
      ensures forall i :: 0 <= i < |indices| ==>
        indices[i] < |texts| && valid[i] == Truncate(Strip(texts[indices[i]]), maxLength)
    {
      valid, indices := [], [];
      for i := 0 to |texts|
        invariant valid == Gather(NonBlanks(texts[..i]), Prepared(texts[..i], maxLength))
        invariant indices == IndicesOf(NonBlanks(texts[..i]))
      {
        assert NonBlanks(texts[..i + 1])[..i] == NonBlanks(texts[..i]);
        assert Prepared(texts[..i + 1], maxLength)[..i] == Prepared(texts[..i], maxLength);
        var stripped := Strip(texts[i]);
        if stripped != [] {
          valid := valid + [Truncate(stripped, maxLength)];
          indices := indices + [i];
        }
      }
      assert texts[..|texts|] == texts;
      IndicesRecoverFlags(NonBlanks(texts));
      IndicesAreInOrder(NonBlanks(texts), Prepared(texts, maxLength));
      NonBlanksAre(texts);
    }

    /** The iterator over the raw results is the position of the next one. */
    method BuildBatchResults(raw: seq<Raw>, indices: seq<nat>, total: nat) returns (r: Result<seq<Entry>>)
      ensures r == Scatter(Members(indices, total), Entries(raw), EMPTY_INPUT)
    {
      ghost var flags := Members(indices, total);
      var results, next := [], 0;
      for i := 0 to total
        invariant next == Count(flags[..i]) <= |raw|
        invariant results == Filled(flags[..i], Entries(raw), EMPTY_INPUT)
      {
        CountOfPrefix(flags, i);
        assert flags[..i + 1][..i] == flags[..i];
        if i in indices {
          if next == |raw| {
            return Error(STOP_ITERATION);
          }
          results := results + [Scored(raw[next].sentiment, raw[next].score)];
          next := next + 1;
        } else {
          results := results + [EMPTY_INPUT];
        }
      }
      assert flags[..total] == flags;
      r := Ok(results);
    }

    /** The predictions are counted even when there turn out to be too few results. */
    method PredictBatch(texts: seq<string>) returns (r: Result<seq<Entry>>)
      modifies `predictionCount
      ensures r == ModelBatch(ready, infer, maxLength, texts)
      ensures predictionCount == old(predictionCount) +
        (if ready && Inferred(infer, Gather(NonBlanks(texts), Prepared(texts, maxLength))).Ok?
         then Count(NonBlanks(texts)) else 0)
    {
      if !ready {
        return Error(NOT_LOADED);
      }
      if texts == [] {
        return Ok([]);
      }
      var valid, indices := PreprocessBatchTexts(texts);
      var raw := [];
      if valid != [] {
        var inferred := infer(valid);
        if inferred.Error? {
          return Error(inferred.error);
        }
        raw := inferred.value;
      }
      predictionCount := predictionCount + |valid|;
      IndicesRecoverFlags(NonBlanks(texts));
      assert Members(indices, |texts|) == NonBlanks(texts);
      r := BuildBatchResults(raw, indices, |texts|);
    }
  }

  class PredictionService {
    const model: SentimentModel

    constructor (model: SentimentModel)
      ensures this.model == model
    {
      this.model := model;
    }

    method PredictBatch(texts: seq<string>) returns (r: Result<seq<Entry>>)
      modifies model
      ensures r == ServiceBatch(old(model.ready), model.infer, model.maxLength, texts)
      ensures model.ready == old(model.ready)
    {
      if !model.ready {
        return Error(NOT_LOADED);
      }
      var checked := Validate(texts);
      var passed := Present(checked);
      PresentIsPassedOn(texts, checked, model.maxLength);
      var results := model.PredictBatch(passed);
      if results.Error? {
        return results;
      }
      r := Merge(checked, results.value);
    }

    /** The validating comprehension: the stripped text, or none. */
    method Validate(texts: seq<string>) returns (checked: seq<Option<string>>)
      ensures checked == Checked(texts, model.maxLength)
    {
      checked := seq(|texts|, i requires 0 <= i < |texts| =>
        if Strip(texts[i]) != [] && |texts[i]| <= model.maxLength then Some(Strip(texts[i])) else None);
    }

    method Merge(checked: seq<Option<string>>, results: seq<Entry>) returns (r: Result<seq<Entry>>)
      ensures r == Scatter(Presence(checked), results, INVALID_INPUT)
    {
      ghost var flags := Presence(checked);
      var final, next := [], 0;
      for i := 0 to |checked|
        invariant next == Count(flags[..i]) <= |results|
        invariant final == Filled(flags[..i], results, INVALID_INPUT)
      {
        CountOfPrefix(flags, i);
        assert flags[..i + 1][..i] == flags[..i];
        if checked[i].None? {
          final := final + [INVALID_INPUT];
        } else {
          if next == |results| {
            return Error(STOP_ITERATION);
          }
          final := final + [results[next]];
          next := next + 1;
        }
      }
      assert flags[..|checked|] == flags;
      r := Ok(final);
    }
  }

  function Checked(texts: seq<string>, max: int): seq<Option<string>>
  {
    seq(|texts|, i requires 0 <= i < |texts| => if Acceptable(texts[i], max) then Some(Strip(texts[i])) else None)
  }

  function Presence(checked: seq<Option<string>>): seq<bool>
  {
    seq(|checked|, i requires 0 <= i < |checked| => checked[i].Some?)
  }

  /** `[t for t in valid_texts if t is not None]` */
  function Present(checked: seq<Option<string>>): seq<string>
  {
    if checked == [] then [] else
    Present(checked[..|checked| - 1]) + (if checked[|checked| - 1].Some? then [checked[|checked| - 1].value] else [])
  }

  lemma {:induction false} PresentIsPassedOn(texts: seq<string>, checked: seq<Option<string>>, max: int)
    requires checked == Checked(texts, max)
    ensures Present(checked) == PassedOn(texts, max) && Presence(checked) == Acceptables(texts, max)
  {
    if texts != [] {
      var n := |texts| - 1;
      assert checked[..n] == Checked(texts[..n], max);
      PresentIsPassedOn(texts[..n], checked[..n], max);
      assert Acceptables(texts, max)[..n] == Acceptables(texts[..n], max);
      assert MapTexts(Strip, texts)[..n] == MapTexts(Strip, texts[..n]);
    }
  }
}
