/** The GPU batch optimizer's own methods, proved against the functions of `GpuModel`. */
module GpuBatchOptimizer {
  import opened Basics
  import opened Chunking
  import opened GpuModel

  class GpuBatchOptimizer {
    const cfg: Config
    var loads: map<int, int>
    var index: int

    ghost function View(): Gpus
      reads this
    {
      Gpus(loads, index)
    }

    /** The start-up probe enters the detected GPUs with load zero. */
    constructor (cfg: Config)
      ensures this.cfg == cfg && index == 0
      ensures loads == Probed(cfg.detected)
    {
      this.cfg, loads, index := cfg, map[], 0;
      new;
      for i := 0 to cfg.detected
        invariant loads == Probed(i) && this.cfg == cfg && index == 0
      {
        loads := loads[i := 0];
      }
    }

    method SelectGpu(pick: Option<int>) returns (gpu: int)
      requires CanSelect(cfg)
      modifies `index
      ensures (gpu, View()) == Select(cfg, old(View()), pick)
      ensures var single := !cfg.multiGpu || cfg.gpuCount == 1;
        var inTurn := !single && cfg.strategy != LeastLoaded && !(cfg.strategy == Utilization && pick.Some?);
        && (single ==> gpu == 0)
        && (!single && cfg.strategy == Utilization && pick.Some? ==> gpu == pick.value)
        && (!single && cfg.strategy == LeastLoaded ==>
              forall i :: 0 <= i < cfg.detected ==> Load(loads, gpu) <= Load(loads, i))
        && (if inTurn then gpu == old(index) && index == (old(index) + 1) % cfg.gpuCount else index == old(index))
    {
      if !cfg.multiGpu || cfg.gpuCount == 1 {
        return 0;
      }
      match cfg.strategy {
        case LeastLoaded =>
          gpu := 0;
          for i := 1 to cfg.detected
            invariant gpu == ArgMin(loads, i)
          {
            if Load(loads, i) < Load(loads, gpu) {
              gpu := i;
            }
          }
          return;
        case Utilization =>
          if pick.Some? {
            return pick.value;
          }
        case RoundRobin =>
      }
      gpu := index;
      index := (index + 1) % cfg.gpuCount;
    }

    method GetOptimalBatchSize(n: nat, reading: Reading, pick: Option<int>) returns (size: int)
      modifies `index
      ensures size == OptimalSize(cfg, n, reading)
      ensures View() == AfterProbe(cfg, old(View()), reading, pick)
      ensures var probes := cfg.enabled && cfg.dynamicBatching && reading != NoCuda;
        probes && cfg.multiGpu && cfg.gpuCount > 1 && cfg.strategy == RoundRobin ==>
          index == (old(index) + 1) % cfg.gpuCount
    {
      if !cfg.enabled || !cfg.dynamicBatching {
        return Min(cfg.batchSize, n);
      }
      if reading != NoCuda && CanSelect(cfg) {
        var _ := SelectGpu(pick);
        if reading.Usage? {
          var batchSize := cfg.batchSize;
          if reading.fraction > 0.85 {
            batchSize := Max(cfg.batchSize / 2, 8);
          } else if reading.fraction < 0.5 {
            batchSize := Min(cfg.maxBatchSize, HalfMore(cfg.batchSize));
          }
          return Min(batchSize, n);
        }
      }
      size := Min(cfg.batchSize, n);
    }

    method DistributeBatches(texts: seq<string>, reading: Reading, pick: Option<int>, picks: nat -> Option<int>)
      returns (r: Result<seq<Batch>>)
      modifies this
      ensures (r, View())
           == Distribute(cfg, AfterProbe(cfg, old(View()), reading, pick), texts,
                         OptimalSize(cfg, |texts|, reading), picks)
    {
      var size := GetOptimalBatchSize(|texts|, reading, pick);
      if size == 0 {
        return Error("range() arg 3 must not be zero");
      }
      if Single(cfg) {
        var batches := SliceForGpuZero(texts, size);
        return Ok(batches);
      }
      if size < 0 || texts == [] {
        return Ok([]);
      }
      if !CanSelect(cfg) {
        return Error("no GPU to select");
      }
      var batches := DealBatches(texts, size, picks);
      r := Ok(batches);
    }

    /** The loop for one GPU, which does not touch the load table. */
    method SliceForGpuZero(texts: seq<string>, size: int) returns (batches: seq<Batch>)
      requires size != 0
      ensures batches == OnGpuZero(RangeChunks(texts, size))
    {
      batches := [];
      if size > 0 {
        var i := 0;
        ghost var done: seq<seq<string>> := [];
        while i < |texts|
          invariant 0 <= i <= |texts| && batches == OnGpuZero(done)
          invariant Chunks(texts, size) == done + Chunks(texts[i..], size)
        {
          var end := Min(i + size, |texts|);
          NextChunk(texts, size, i, done);
          batches := batches + [Batch(0, texts[i..end])];
          done := done + [texts[i..end]];
          i := end;
        }
      }
    }

    /** The loop for several GPUs. */
    method DealBatches(texts: seq<string>, size: nat, picks: nat -> Option<int>) returns (batches: seq<Batch>)
      requires size > 0 && CanSelect(cfg)
      modifies this
      ensures (batches, View()) == Deal(cfg, old(View()), Chunks(texts, size), picks)
    {
      batches := [];
      var i, k := 0, 0;
      ghost var done: seq<seq<string>> := [];
      while i < |texts|
        invariant 0 <= i <= |texts| && k == |done|
        invariant (batches, View()) == Deal(cfg, old(View()), done, picks)
        invariant Chunks(texts, size) == done + Chunks(texts[i..], size)
      {
        var end := Min(i + size, |texts|);
        NextChunk(texts, size, i, done);
        DealOneMore(cfg, old(View()), done, texts[i..end], picks);
        var batch := Assign(texts[i..end], picks(k));
        batches := batches + [batch];
        done := done + [texts[i..end]];
        i, k := end, k + 1;
      }
      assert Chunks(texts, size) == done;
    }

    /** The body of that loop: select a GPU for the batch and add to its load. */
    method Assign(texts: seq<string>, pick: Option<int>) returns (batch: Batch)
      requires CanSelect(cfg)
      modifies this
      ensures batch == Batch(Select(cfg, old(View()), pick).0, texts)
      ensures View() == AddLoad(Select(cfg, old(View()), pick).1, batch.gpu, |texts|)
    {
      var gpu := SelectGpu(pick);
      batch := Batch(gpu, texts);
      loads := loads[gpu := Load(loads, gpu) + |texts|];
    }

    /** `process_batch_parallel` on its own: no batch suspends, so the batches run one after the other. */
    method ProcessBatchParallel(onGpu: seq<string> -> ModelOutcome, onCpu: seq<string> -> ModelOutcome,
                                texts: seq<string>, reading: Reading, pick: Option<int>, picks: nat -> Option<int>)
      returns (r: ModelOutcome, ghost batches: seq<Batch>)
      modifies this
      ensures !cfg.enabled || !cfg.multiGpu ==> r == onCpu(texts) && View() == old(View())
      ensures cfg.enabled && cfg.multiGpu ==>
        var (d, s) := Distribute(cfg, AfterProbe(cfg, old(View()), reading, pick), texts,
                                 OptimalSize(cfg, |texts|, reading), picks);
        if d.Error? then r == Raised(d.error) && View() == s
        else batches == d.value && r == Reassembled(onGpu, onCpu, batches) &&
             View() == s.(loads := LoadsAfter(onGpu, s.loads, batches))
    {
      batches := [];
      if !cfg.enabled || !cfg.multiGpu {
        return onCpu(texts), [];
      }
      var dealt := DistributeBatches(texts, reading, pick, picks);
      if dealt.Error? {
        return Raised(dealt.error), [];
      }
      batches := dealt.value;
      r := RunBatches(onGpu, onCpu, dealt.value);
    }

    method RunBatches(onGpu: seq<string> -> ModelOutcome, onCpu: seq<string> -> ModelOutcome, batches: seq<Batch>)
      returns (r: ModelOutcome)
      modifies `loads
      ensures r == Reassembled(onGpu, onCpu, batches)
      ensures loads == LoadsAfter(onGpu, old(loads), batches)
    {
      r := Returned([]);
      for k := 0 to |batches|
        invariant r == Reassembled(onGpu, onCpu, batches[..k])
        invariant loads == LoadsAfter(onGpu, old(loads), batches[..k])
      {
        assert batches[..k + 1][..k] == batches[..k];
        var b := batches[k];
        var answer := onGpu(b.texts);
        if answer.Returned? {
          loads := loads[b.gpu := Max(0, Load(loads, b.gpu) - |b.texts|)];
        } else {
          answer := onCpu(b.texts);
        }
        if r.Returned? {
          r := if answer.Returned? then Returned(r.results + answer.results) else answer;
        }
      }
      assert batches[..|batches|] == batches;
    }
  }

  /** The answer of one batch: a failure on the GPU is tried again on the CPU. */
  function BatchAnswer(onGpu: seq<string> -> ModelOutcome, onCpu: seq<string> -> ModelOutcome,
                       texts: seq<string>): ModelOutcome
  {
    if onGpu(texts).Returned? then onGpu(texts) else onCpu(texts)
  }

  /** The answers put together in the order of the batches, or the first exception. */
  function Reassembled(onGpu: seq<string> -> ModelOutcome, onCpu: seq<string> -> ModelOutcome,
                       batches: seq<Batch>): ModelOutcome
  {
    if batches == [] then Returned([]) else
    var before := Reassembled(onGpu, onCpu, batches[..|batches| - 1]);
    var last := BatchAnswer(onGpu, onCpu, batches[|batches| - 1].texts);
    if before.Raised? then before else if last.Raised? then last else Returned(before.results + last.results)
  }

  /** A call raises exactly if some batch fails on its GPU and on the CPU, and then what the first of these raised. */
  lemma {:induction false} RaisesIfBothFail(onGpu: seq<string> -> ModelOutcome, onCpu: seq<string> -> ModelOutcome,
                                            batches: seq<Batch>)
    ensures Reassembled(onGpu, onCpu, batches).Raised? <==>
      exists k :: 0 <= k < |batches| && onGpu(batches[k].texts).Raised? && onCpu(batches[k].texts).Raised?
    ensures Reassembled(onGpu, onCpu, batches).Raised? ==>
      exists k :: 0 <= k < |batches| && Reassembled(onGpu, onCpu, batches) == onCpu(batches[k].texts) &&
                  forall j :: 0 <= j < k ==> onGpu(batches[j].texts).Returned? || onCpu(batches[j].texts).Returned?
  {
    if batches != [] {
      var n := |batches| - 1;
      var init := batches[..n];
      RaisesIfBothFail(onGpu, onCpu, init);
      assert forall k :: 0 <= k < n ==> init[k] == batches[k];
      if Reassembled(onGpu, onCpu, init).Returned? && BatchAnswer(onGpu, onCpu, batches[n].texts).Raised? {
        assert Reassembled(onGpu, onCpu, batches) == onCpu(batches[n].texts);
      }
    }
  }

  function LoadsAfter(onGpu: seq<string> -> ModelOutcome, loads: map<int, int>, batches: seq<Batch>): map<int, int>
  {
    if batches == [] then loads else
    var b, before := batches[|batches| - 1], LoadsAfter(onGpu, loads, batches[..|batches| - 1]);
    if onGpu(b.texts).Returned? then before[b.gpu := Max(0, Load(before, b.gpu) - |b.texts|)] else before
  }

  function FailedOn(onGpu: seq<string> -> ModelOutcome, batches: seq<Batch>): seq<Batch>
  {
    if batches == [] then [] else
    FailedOn(onGpu, batches[..|batches| - 1]) +
      (if onGpu(batches[|batches| - 1].texts).Raised? then [batches[|batches| - 1]] else [])
  }

  /** GPU and CPU answer every text on its own, the GPU unless it fails. */
  ghost predicate Pointwise(onGpu: seq<string> -> ModelOutcome, onCpu: seq<string> -> ModelOutcome,
                            f: string -> Prediction)
  {
    forall texts :: onCpu(texts) == Returned(MapTexts(f, texts)) &&
      (onGpu(texts).Raised? || onGpu(texts) == Returned(MapTexts(f, texts)))
  }

  lemma {:induction false} ReassembledIsPointwise(onGpu: seq<string> -> ModelOutcome,
                                                  onCpu: seq<string> -> ModelOutcome, f: string -> Prediction,
                                                  batches: seq<Batch>)
    requires Pointwise(onGpu, onCpu, f)
    ensures Reassembled(onGpu, onCpu, batches) == Returned(MapTexts(f, Flatten(TextsOf(batches))))
  {
    if batches != [] {
      var init := batches[..|batches| - 1];
      ReassembledIsPointwise(onGpu, onCpu, f, init);
      assert TextsOf(batches)[..|init|] == TextsOf(init);
      assert MapTexts(f, Flatten(TextsOf(batches)))
          == MapTexts(f, Flatten(TextsOf(init))) + MapTexts(f, batches[|init|].texts);
    }
  }

  /**
    Spreading over GPUs does not show: whichever GPUs are chosen and fail, the results are the pointwise
    predictions in text order.
   */
  lemma ParallelIsTransparent(onGpu: seq<string> -> ModelOutcome, onCpu: seq<string> -> ModelOutcome,
                              f: string -> Prediction, cfg: Config, s: Gpus, texts: seq<string>,
                              reading: Reading, picks: nat -> Option<int>)
    requires Pointwise(onGpu, onCpu, f)
    requires texts != [] && cfg.batchSize >= 1 && cfg.maxBatchSize >= 1 && CanSelect(cfg)
    ensures var d := Distribute(cfg, s, texts, OptimalSize(cfg, |texts|, reading), picks).0;
      d.Ok? && Reassembled(onGpu, onCpu, d.value) == Returned(MapTexts(f, texts))
  {
    SizeInRange(cfg, |texts|, reading);
    DistributionKeepsTexts(cfg, s, texts, OptimalSize(cfg, |texts|, reading), picks);
    ReassembledIsPointwise(onGpu, onCpu, f,
      Distribute(cfg, s, texts, OptimalSize(cfg, |texts|, reading), picks).0.value);
  }

  lemma {:induction false} CompletionLowers(onGpu: seq<string> -> ModelOutcome, loads: map<int, int>,
                                            batches: seq<Batch>, gpu: int)
    requires Load(loads, gpu) >= TextsOn(batches, gpu)
    ensures Load(LoadsAfter(onGpu, loads, batches), gpu)
         == Load(loads, gpu) - TextsOn(batches, gpu) + TextsOn(FailedOn(onGpu, batches), gpu)
  {
    if batches != [] {
      var init, b := batches[..|batches| - 1], batches[|batches| - 1];
      CompletionLowers(onGpu, loads, init, gpu);
      TextsOnConcat(FailedOn(onGpu, init), if onGpu(b.texts).Raised? then [b] else [], gpu);
      TextsOnConcat([], [b], gpu);
    }
  }

  /** After a call of its own, a GPU's load is back where it was, plus what failed on it. */
  lemma CallRestoresLoads(onGpu: seq<string> -> ModelOutcome, cfg: Config, s: Gpus, chunks: seq<seq<string>>,
                          picks: nat -> Option<int>, gpu: int)
    requires CanSelect(cfg) && Load(s.loads, gpu) >= 0
    ensures var (batches, s') := Deal(cfg, s, chunks, picks);
      Load(LoadsAfter(onGpu, s'.loads, batches), gpu) == Load(s.loads, gpu) + TextsOn(FailedOn(onGpu, batches), gpu)
  {
    var (batches, s') := Deal(cfg, s, chunks, picks);
    DealIsDealOut(cfg, s, chunks, picks);
    AddLoadsAdds(s.loads, batches, gpu);
    CompletionLowers(onGpu, s'.loads, batches, gpu);
  }
}
