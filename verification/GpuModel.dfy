/** Batch sizes and the assignment of batches to GPUs. */
module GpuModel {
  import opened Basics
  import opened Chunking

  datatype Strategy = RoundRobin | LeastLoaded | Utilization

  /** `detected` is how many GPUs the start-up probe entered into the load table, as ids 0, 1, and so on. */
  datatype Config = Config(enabled: bool, dynamicBatching: bool, multiGpu: bool, gpuCount: nat, detected: nat,
                           batchSize: int, maxBatchSize: int, strategy: Strategy)

  datatype Gpus = Gpus(loads: map<int, int>, index: int)

  datatype Batch = Batch(gpu: int, texts: seq<string>)

  /** What the memory probe finds: no CUDA, a failing query, or the fraction of memory in use. */
  datatype Reading = NoCuda | Unreadable | Usage(fraction: real)

  function Load(loads: map<int, int>, gpu: int): int
  {
    if gpu in loads then loads[gpu] else 0
  }

  /** The load table after the probe found `n` GPUs. */
  function Probed(n: nat): map<int, int>
  {
    if n == 0 then map[] else Probed(n - 1)[n - 1 := 0]
  }

  function AddLoad(s: Gpus, gpu: int, amount: int): Gpus
  {
    s.(loads := s.loads[gpu := Load(s.loads, gpu) + amount])
  }

  /** `min(loads.items(), key=load)`: the first GPU, in the order of ids, with the least load. */
  function ArgMin(loads: map<int, int>, n: nat): (g: nat)
    requires n > 0
    ensures g < n
    ensures forall i :: 0 <= i < n ==> Load(loads, g) <= Load(loads, i)
    ensures forall i :: 0 <= i < g ==> Load(loads, g) < Load(loads, i)
  {
    if n == 1 then 0 else
    var g := ArgMin(loads, n - 1);
    if Load(loads, n - 1) < Load(loads, g) then n - 1 else g
  }

  predicate Single(cfg: Config) { !cfg.multiGpu || cfg.gpuCount == 1 }

  /** Selection raises when it takes the minimum of no loads, or a remainder modulo no GPUs. */
  predicate CanSelect(cfg: Config)
  {
    Single(cfg) || (if cfg.strategy == LeastLoaded then cfg.detected > 0 else cfg.gpuCount > 0)
  }

  /** `_select_gpu`; `pick` is the GPU with most free memory, if that can be found out. */
  function Select(cfg: Config, s: Gpus, pick: Option<int>): (int, Gpus)
    requires CanSelect(cfg)
  {
    if Single(cfg) then (0, s)
    else if cfg.strategy == LeastLoaded then (ArgMin(s.loads, cfg.detected), s)
    else if cfg.strategy == Utilization && pick.Some? then (pick.value, s)
    else (s.index, s.(index := (s.index + 1) % cfg.gpuCount))
  }

  /** `int(x * 1.5)`, which truncates towards zero. */
  function HalfMore(x: int): int
  {
    if x >= 0 then x * 3 / 2 else -((-x) * 3 / 2)
  }

  function BaseSize(cfg: Config, reading: Reading): int
  {
    match reading
    case Usage(u) =>
      if u > 0.85 then Max(cfg.batchSize / 2, 8)
      else if u < 0.5 then Min(cfg.maxBatchSize, HalfMore(cfg.batchSize))
      else cfg.batchSize
    case _ => cfg.batchSize
  }

  predicate Probes(cfg: Config, reading: Reading)
  {
    cfg.enabled && cfg.dynamicBatching && reading != NoCuda && CanSelect(cfg)
  }

  /** `get_optimal_batch_size`, which selects a GPU to probe and thereby advances the round-robin index. */
  function OptimalSize(cfg: Config, n: nat, reading: Reading): int
  {
    Min(if Probes(cfg, reading) then BaseSize(cfg, reading) else cfg.batchSize, n)
  }

  function AfterProbe(cfg: Config, s: Gpus, reading: Reading, pick: Option<int>): Gpus
  {
    if Probes(cfg, reading) then Select(cfg, s, pick).1 else s
  }

  /** `range(0, len(texts), size)` as slices: a negative step yields none. */
  function RangeChunks(texts: seq<string>, size: int): seq<seq<string>>
  {
    if size > 0 then Chunks(texts, size) else []
  }

  /** The multi-GPU loop: select, assign, and add to the load. */
  function Deal(cfg: Config, s: Gpus, chunks: seq<seq<string>>, picks: nat -> Option<int>): (seq<Batch>, Gpus)
    requires CanSelect(cfg)
  {
    if chunks == [] then ([], s) else
    var n := |chunks| - 1;
    var (batches, s1) := Deal(cfg, s, chunks[..n], picks);
    var (gpu, s2) := Select(cfg, s1, picks(n));
    (batches + [Batch(gpu, chunks[n])], AddLoad(s2, gpu, |chunks[n]|))
  }

  function OnGpuZero(chunks: seq<seq<string>>): seq<Batch>
  {
    seq(|chunks|, k requires 0 <= k < |chunks| => Batch(0, chunks[k]))
  }

  /** `distribute_batches` after the batch size was chosen. */
  function Distribute(cfg: Config, s: Gpus, texts: seq<string>, size: int,
                      picks: nat -> Option<int>): (Result<seq<Batch>>, Gpus)
  {
    var chunks := RangeChunks(texts, size);
    if size == 0 then (Error("range() arg 3 must not be zero"), s)
    else if Single(cfg) then (Ok(OnGpuZero(chunks)), s)
    else if chunks != [] && !CanSelect(cfg) then (Error("no GPU to select"), s)
    else if chunks == [] then (Ok([]), s)
    else var (batches, s') := Deal(cfg, s, chunks, picks); (Ok(batches), s')
  }

  lemma DealOneMore(cfg: Config, s: Gpus, chunks: seq<seq<string>>, chunk: seq<string>, picks: nat -> Option<int>)
    requires CanSelect(cfg)
    ensures var (batches, s1) := Deal(cfg, s, chunks, picks);
      var (gpu, s2) := Select(cfg, s1, picks(|chunks|));
      Deal(cfg, s, chunks + [chunk], picks) == (batches + [Batch(gpu, chunk)], AddLoad(s2, gpu, |chunk|))
  {
    assert (chunks + [chunk])[..|chunks|] == chunks;
  }

  // ---------------------------------------------------------------- nothing is lost

  lemma SizeInRange(cfg: Config, n: nat, reading: Reading)
    requires cfg.batchSize >= 1 && cfg.maxBatchSize >= 1
    ensures OptimalSize(cfg, n, reading) <= n
    ensures OptimalSize(cfg, n, reading) >= 1 <==> n >= 1
  {
  }

  function TextsOf(batches: seq<Batch>): seq<seq<string>>
  {
    seq(|batches|, k requires 0 <= k < |batches| => batches[k].texts)
  }

  lemma {:induction false} DealKeepsChunks(cfg: Config, s: Gpus, chunks: seq<seq<string>>, picks: nat -> Option<int>)
    requires CanSelect(cfg)
    ensures TextsOf(Deal(cfg, s, chunks, picks).0) == chunks
  {
    if chunks != [] {
      DealKeepsChunks(cfg, s, chunks[..|chunks| - 1], picks);
      var batches := Deal(cfg, s, chunks[..|chunks| - 1], picks).0;
      assert |batches| == |TextsOf(batches)|;
      assert forall k :: 0 <= k < |batches| ==> batches[k].texts == TextsOf(batches)[k] == chunks[k];
    }
  }

  /**
    Distribution keeps every text, in order, exactly when the batch size is positive and a GPU can be
    selected, or when there is no text and the size is not zero; otherwise it raises or, for a negative
    size, drops them all.
   */
  lemma DistributionKeepsTexts(cfg: Config, s: Gpus, texts: seq<string>, size: int, picks: nat -> Option<int>)
    ensures var r := Distribute(cfg, s, texts, size, picks).0;
      (r.Ok? && Flatten(TextsOf(r.value)) == texts) <==>
        (if texts == [] then size != 0 else size >= 1 && CanSelect(cfg))
  {
    var r := Distribute(cfg, s, texts, size, picks).0;
    if size >= 1 {
      var chunks := Chunks(texts, size);
      ChunksPartition(texts, size);
      if Single(cfg) {
        assert TextsOf(OnGpuZero(chunks)) == chunks;
      } else if chunks != [] && CanSelect(cfg) {
        DealKeepsChunks(cfg, s, chunks, picks);
      }
    } else if r.Ok? {
      assert TextsOf(r.value) == [];
    }
  }

  /** The size chosen before it is cut to the number of texts. */
  function WantedSize(cfg: Config, reading: Reading): int
  {
    if Probes(cfg, reading) then BaseSize(cfg, reading) else cfg.batchSize
  }

  /**
    Memory use above 0.85 halves the size, but not below eight, so that it raises a size configured below
    eight; use below 0.5 adds half, up to the maximum, so that it lowers a size configured above that.
   */
  lemma MemoryMovesSize(cfg: Config, u: real)
    requires Probes(cfg, Usage(u))
    ensures var size, plain := WantedSize(cfg, Usage(u)), cfg.batchSize;
      && (u > 0.85 ==> (size > plain <==> plain < 8) && size == if plain >= 16 then plain / 2 else 8)
      && (u < 0.5 ==>
            && (size < plain <==> cfg.maxBatchSize < plain || plain <= -2)
            && (plain >= 0 ==> size == Min(cfg.maxBatchSize, plain + plain / 2)))
      && (0.5 <= u <= 0.85 ==> size == plain)
  {
  }

  /** Without a probe of the memory, or with one that fails, the size is the one configured; it is cut to the texts. */
  lemma SizeIsCut(cfg: Config, n: nat, reading: Reading)
    ensures OptimalSize(cfg, n, reading) == Min(WantedSize(cfg, reading), n)
    ensures !cfg.enabled || !cfg.dynamicBatching || !reading.Usage? ==> WantedSize(cfg, reading) == cfg.batchSize
  {
  }

  /** With batches of four configured, memory almost full makes batches of eight. */
  lemma HighUseRaisesSize()
    ensures var cfg := Config(true, true, true, 2, 2, 4, 128, RoundRobin);
      OptimalSize(cfg, 100, Usage(0.9)) == 8 && OptimalSize(cfg, 100, Usage(0.7)) == 4
  {
    var cfg := Config(true, true, true, 2, 2, 4, 128, RoundRobin);
    MemoryMovesSize(cfg, 0.9);
    MemoryMovesSize(cfg, 0.7);
  }

  /** All batches but the last have exactly the size, and the last no more. */
  lemma DistributionSizes(cfg: Config, s: Gpus, texts: seq<string>, size: int, picks: nat -> Option<int>, k: nat)
    requires size >= 1 && CanSelect(cfg) && k < |Distribute(cfg, s, texts, size, picks).0.value|
    ensures var batches := Distribute(cfg, s, texts, size, picks).0.value;
      && 0 < |batches[k].texts| <= size
      && (k < |batches| - 1 ==> |batches[k].texts| == size)
      && (Single(cfg) ==> batches[k].gpu == 0 && Distribute(cfg, s, texts, size, picks).1 == s)
  {
    var chunks, batches := Chunks(texts, size), Distribute(cfg, s, texts, size, picks).0.value;
    ChunksBounded(texts, size);
    ChunksFull(texts, size);
    if !Single(cfg) && chunks != [] {
      DealKeepsChunks(cfg, s, chunks, picks);
    }
    assert TextsOf(batches) == chunks;
    assert batches[k].texts == TextsOf(batches)[k];
  }

  /** By utilization each batch goes to the GPU found to have most memory then, if one was found. */
  lemma {:induction false} UtilizationFollows(cfg: Config, s: Gpus, chunks: seq<seq<string>>,
                                              picks: nat -> Option<int>, k: nat)
    requires CanSelect(cfg) && !Single(cfg) && cfg.strategy == Utilization && k < |chunks| && picks(k).Some?
    ensures |Deal(cfg, s, chunks, picks).0| == |chunks| && Deal(cfg, s, chunks, picks).0[k].gpu == picks(k).value
    decreases |chunks|
  {
    var n := |chunks| - 1;
    DealKeepsChunks(cfg, s, chunks, picks);
    DealKeepsChunks(cfg, s, chunks[..n], picks);
    assert |TextsOf(Deal(cfg, s, chunks[..n], picks).0)| == n && |TextsOf(Deal(cfg, s, chunks, picks).0)| == n + 1;
    if k < n {
      UtilizationFollows(cfg, s, chunks[..n], picks, k);
    }
  }

  /** An empty list makes the distribution raise exactly if the size wanted is not negative. */
  lemma EmptyListRaises(cfg: Config, s: Gpus, reading: Reading, picks: nat -> Option<int>)
    ensures Distribute(cfg, s, [], OptimalSize(cfg, 0, reading), picks).0.Error? <==> WantedSize(cfg, reading) >= 0
  {
    DistributionKeepsTexts(cfg, s, [], OptimalSize(cfg, 0, reading), picks);
  }

  /** A run in which a negative size drops the only text without a word. */
  lemma NegativeSizeDropsTexts(picks: nat -> Option<int>)
    ensures var cfg := Config(true, false, true, 2, 2, -1, 128, RoundRobin);
      var size := OptimalSize(cfg, 1, NoCuda);
      size == -1 && Distribute(cfg, Gpus(Probed(2), 0), ["t"], size, picks).0 == Ok([])
  {
    var cfg := Config(true, false, true, 2, 2, -1, 128, RoundRobin);
    DistributionKeepsTexts(cfg, Gpus(Probed(2), 0), ["t"], OptimalSize(cfg, 1, NoCuda), picks);
  }

  // ---------------------------------------------------------------- load

  /** The loads of GPUs 0 to `n - 1` differ by at most `d`. */
  ghost predicate SpreadWithin(loads: map<int, int>, n: nat, d: int)
  {
    forall i, j :: 0 <= i < n && 0 <= j < n ==> Load(loads, i) - Load(loads, j) <= d
  }

  lemma LeastLoadedStep(loads: map<int, int>, n: nat, amount: nat, d: int)
    requires n > 0 && SpreadWithin(loads, n, d) && amount <= d
    ensures var g := ArgMin(loads, n); SpreadWithin(loads[g := Load(loads, g) + amount], n, d)
  {
    var g := ArgMin(loads, n);
    var loads' := loads[g := Load(loads, g) + amount];
    forall i, j | 0 <= i < n && 0 <= j < n
      ensures Load(loads', i) - Load(loads', j) <= d
    {
      assert Load(loads, i) - Load(loads, j) <= d && Load(loads, g) <= Load(loads, j);
    }
  }

  /** Whatever bound, not below the batch size, the loads kept before, they keep after a least-loaded deal. */
  lemma {:induction false} LeastLoadedBalances(cfg: Config, s: Gpus, chunks: seq<seq<string>>,
                                               picks: nat -> Option<int>, d: int)
    requires CanSelect(cfg) && !Single(cfg) && cfg.strategy == LeastLoaded
    requires SpreadWithin(s.loads, cfg.detected, d) && forall k :: 0 <= k < |chunks| ==> |chunks[k]| <= d
    ensures SpreadWithin(Deal(cfg, s, chunks, picks).1.loads, cfg.detected, d)
  {
    if chunks != [] {
      var init := chunks[..|chunks| - 1];
      assert forall k :: 0 <= k < |init| ==> init[k] == chunks[k];
      LeastLoadedBalances(cfg, s, init, picks, d);
      LeastLoadedStep(Deal(cfg, s, init, picks).1.loads, cfg.detected, |chunks[|chunks| - 1]|, d);
    }
  }

  /** The spread never exceeds the larger of what it was and the batch size. */
  lemma SpreadAfterDistribution(cfg: Config, s: Gpus, texts: seq<string>, size: int, picks: nat -> Option<int>,
                                spread: int)
    requires !Single(cfg) && cfg.strategy == LeastLoaded && SpreadWithin(s.loads, cfg.detected, spread)
    ensures SpreadWithin(Distribute(cfg, s, texts, size, picks).1.loads, cfg.detected, Max(spread, size))
  {
    if size > 0 && texts != [] && CanSelect(cfg) {
      ChunksBounded(texts, size);
      LeastLoadedBalances(cfg, s, Chunks(texts, size), picks, Max(spread, size));
    }
  }

  function TotalLoad(loads: map<int, int>, n: nat): int
  {
    if n == 0 then 0 else TotalLoad(loads, n - 1) + Load(loads, n - 1)
  }

  lemma {:induction false} AddRaisesTotal(loads: map<int, int>, n: nat, g: int, load: int)
    ensures TotalLoad(loads[g := load], n) == TotalLoad(loads, n) + (if 0 <= g < n then load - Load(loads, g) else 0)
  {
    if n > 0 {
      AddRaisesTotal(loads, n - 1, g, load);
    }
  }

  lemma {:induction false} AddLoadsRaisesTotal(loads: map<int, int>, batches: seq<Batch>, n: nat)
    requires forall k :: 0 <= k < |batches| ==> 0 <= batches[k].gpu < n
    ensures TotalLoad(AddLoads(loads, batches), n) == TotalLoad(loads, n) + |Flatten(TextsOf(batches))|
  {
    if batches != [] {
      var init, b := batches[..|batches| - 1], batches[|batches| - 1];
      assert forall k :: 0 <= k < |init| ==> init[k] == batches[k];
      AddLoadsRaisesTotal(loads, init, n);
      AddRaisesTotal(AddLoads(loads, init), n, b.gpu, Load(AddLoads(loads, init), b.gpu) + |b.texts|);
      assert TextsOf(batches)[..|init|] == TextsOf(init);
    }
  }

  /** One more than any GPU the strategy can choose: those of the load table, or those configured. */
  function GpuBound(cfg: Config): nat { Max(cfg.detected, cfg.gpuCount) }

  /** The index, and any GPU found to have most memory, are those of a GPU configured. */
  ghost predicate InBounds(cfg: Config, s: Gpus, picks: nat -> Option<int>)
  {
    0 <= s.index < cfg.gpuCount && forall k: nat :: picks(k).Some? ==> 0 <= picks(k).value < cfg.gpuCount
  }

  lemma {:induction false} DealInBounds(cfg: Config, s: Gpus, chunks: seq<seq<string>>, picks: nat -> Option<int>)
    requires CanSelect(cfg) && !Single(cfg) && InBounds(cfg, s, picks)
    ensures var (batches, s') := Deal(cfg, s, chunks, picks);
      InBounds(cfg, s', picks) && forall k :: 0 <= k < |batches| ==> 0 <= batches[k].gpu < GpuBound(cfg)
  {
    if chunks != [] {
      DealInBounds(cfg, s, chunks[..|chunks| - 1], picks);
    }
  }

  /** Whatever the strategy, distribution raises the total load by exactly the number of texts. */
  lemma DistributionRaisesTotal(cfg: Config, s: Gpus, texts: seq<string>, size: int, picks: nat -> Option<int>)
    requires !Single(cfg) && CanSelect(cfg) && size >= 1 && InBounds(cfg, s, picks)
    ensures var n := GpuBound(cfg);
      TotalLoad(Distribute(cfg, s, texts, size, picks).1.loads, n) == TotalLoad(s.loads, n) + |texts|
  {
    var chunks := Chunks(texts, size);
    ChunksPartition(texts, size);
    if texts != [] {
      DealInBounds(cfg, s, chunks, picks);
      DealIsDealOut(cfg, s, chunks, picks);
      DealKeepsChunks(cfg, s, chunks, picks);
      AddLoadsRaisesTotal(s.loads, Deal(cfg, s, chunks, picks).0, GpuBound(cfg));
    }
  }

  // ---------------------------------------------------------------- round robin

  function CountOn(batches: seq<Batch>, gpu: int): nat
  {
    if batches == [] then 0
    else CountOn(batches[..|batches| - 1], gpu) + (if batches[|batches| - 1].gpu == gpu then 1 else 0)
  }

  /** Going round from `start`, `gpu` comes before `index`. */
  predicate Passed(start: int, index: int, gpu: int)
  {
    if start <= index then start <= gpu < index else gpu >= start || gpu < index
  }

  /** After full rounds every GPU has `q` batches, and those passed since have one more. */
  ghost predicate Even(batches: seq<Batch>, count: nat, start: int, index: int, q: nat)
  {
    && 0 <= index < count
    && forall g :: 0 <= g < count ==> CountOn(batches, g) == q + (if Passed(start, index, g) then 1 else 0)
  }

  lemma NextIndex(index: int, count: nat)
    requires 0 <= index < count
    ensures (index + 1) % count == if index + 1 == count then 0 else index + 1
  {
    if index + 1 < count {
      QuotientIs(index + 1, count, 0, index + 1);
    } else {
      QuotientIs(count, count, 1, 0);
    }
  }

  lemma EvenStep(batches: seq<Batch>, count: nat, start: int, index: int, q: nat, texts: seq<string>) returns (q': nat)
    requires 0 <= start < count && Even(batches, count, start, index, q)
    ensures Even(batches + [Batch(index, texts)], count, start, (index + 1) % count, q')
  {
    NextIndex(index, count);
    q' := if (index + 1) % count == start then q + 1 else q;
    var longer := batches + [Batch(index, texts)];
    assert longer[..|batches|] == batches;
    forall g | 0 <= g < count
      ensures CountOn(longer, g) == q' + (if Passed(start, (index + 1) % count, g) then 1 else 0)
    {
      assert CountOn(longer, g) == CountOn(batches, g) + (if index == g then 1 else 0);
    }
  }

  lemma {:induction false} RoundRobinIsEven(cfg: Config, s: Gpus, chunks: seq<seq<string>>, picks: nat -> Option<int>)
    returns (q: nat)
    requires !Single(cfg) && cfg.strategy == RoundRobin && 0 <= s.index < cfg.gpuCount
    ensures var (batches, s') := Deal(cfg, s, chunks, picks); Even(batches, cfg.gpuCount, s.index, s'.index, q)
  {
    if chunks == [] {
      q := 0;
    } else {
      var k := |chunks| - 1;
      var (batches, s1) := Deal(cfg, s, chunks[..k], picks);
      var p := RoundRobinIsEven(cfg, s, chunks[..k], picks);
      q := EvenStep(batches, cfg.gpuCount, s.index, s1.index, p, chunks[k]);
    }
  }

  /** Within one call, round robin gives any two GPUs numbers of batches that differ by at most one. */
  lemma RoundRobinIsFair(cfg: Config, s: Gpus, texts: seq<string>, size: int, picks: nat -> Option<int>, g: int, h: int)
    requires !Single(cfg) && cfg.strategy == RoundRobin && 0 <= s.index < cfg.gpuCount && size >= 1
    requires 0 <= g < cfg.gpuCount && 0 <= h < cfg.gpuCount
    ensures var batches := Distribute(cfg, s, texts, size, picks).0.value;
      CountOn(batches, g) <= CountOn(batches, h) + 1
    ensures 0 <= Distribute(cfg, s, texts, size, picks).1.index < cfg.gpuCount
  {
    if texts != [] {
      var q := RoundRobinIsEven(cfg, s, Chunks(texts, size), picks);
    }
  }

  // ---------------------------------------------------------------- parallel calls

  /** The load table while calls run: batches dealt and not yet done, and batches that failed on their GPU. */
  datatype Pool = Pool(loads: map<int, int>, waiting: seq<Batch>, failed: seq<Batch>)

  datatype PoolStep = DealOut(batches: seq<Batch>) | Complete(k: nat, ok: bool)

  /** No call has been made on `n` GPUs. */
  function NoCalls(n: nat): Pool { Pool(Probed(n), [], []) }

  lemma {:induction false} ProbedAreIdle(n: nat, gpu: int)
    ensures Load(Probed(n), gpu) == 0
  {
    if n > 0 {
      ProbedAreIdle(n - 1, gpu);
    }
  }

  function AddLoads(loads: map<int, int>, batches: seq<Batch>): map<int, int>
  {
    if batches == [] then loads else
    var b, before := batches[|batches| - 1], AddLoads(loads, batches[..|batches| - 1]);
    before[b.gpu := Load(before, b.gpu) + |b.texts|]
  }

  predicate PoolEnabled(s: Pool, step: PoolStep) { step.Complete? ==> step.k < |s.waiting| }

  /** A batch that succeeds lowers its GPU's load, never below zero; one that fails leaves it. */
  function PoolNext(s: Pool, step: PoolStep): Pool
    requires PoolEnabled(s, step)
  {
    match step
    case DealOut(batches) => Pool(AddLoads(s.loads, batches), s.waiting + batches, s.failed)
    case Complete(k, ok) =>
      var b, rest := s.waiting[k], s.waiting[..k] + s.waiting[k + 1..];
      if ok then Pool(s.loads[b.gpu := Max(0, Load(s.loads, b.gpu) - |b.texts|)], rest, s.failed)
      else Pool(s.loads, rest, s.failed + [b])
  }

  ghost predicate PoolReaches(s: Pool, steps: seq<PoolStep>, t: Pool)
    decreases |steps|
  {
    if steps == [] then s == t else PoolEnabled(s, steps[0]) && PoolReaches(PoolNext(s, steps[0]), steps[1..], t)
  }

  /** The texts in those of the batches that were dealt to one GPU. */
  function TextsOn(batches: seq<Batch>, gpu: int): nat
  {
    if batches == [] then 0 else
    TextsOn(batches[..|batches| - 1], gpu) +
      (if batches[|batches| - 1].gpu == gpu then |batches[|batches| - 1].texts| else 0)
  }

  lemma {:induction false} TextsOnConcat(xs: seq<Batch>, ys: seq<Batch>, gpu: int)
    ensures TextsOn(xs + ys, gpu) == TextsOn(xs, gpu) + TextsOn(ys, gpu)
    decreases |ys|
  {
    if ys == [] {
      assert xs + ys == xs;
    } else {
      TextsOnConcat(xs, ys[..|ys| - 1], gpu);
      assert (xs + ys)[..|xs + ys| - 1] == xs + ys[..|ys| - 1];
    }
  }

  lemma TextsOnRemove(xs: seq<Batch>, k: nat, gpu: int)
    requires k < |xs|
    ensures TextsOn(xs, gpu) == TextsOn(xs[..k] + xs[k + 1..], gpu) + (if xs[k].gpu == gpu then |xs[k].texts| else 0)
  {
    assert xs == xs[..k + 1] + xs[k + 1..] && xs[..k + 1][..k] == xs[..k];
    TextsOnConcat(xs[..k + 1], xs[k + 1..], gpu);
    TextsOnConcat(xs[..k], xs[k + 1..], gpu);
  }

  lemma {:induction false} AddLoadsAdds(loads: map<int, int>, batches: seq<Batch>, gpu: int)
    ensures Load(AddLoads(loads, batches), gpu) == Load(loads, gpu) + TextsOn(batches, gpu)
  {
    if batches != [] {
      AddLoadsAdds(loads, batches[..|batches| - 1], gpu);
    }
  }

  /** A GPU's load is the texts waiting for it plus the texts of the batches that failed on it. */
  ghost predicate PoolInv(s: Pool)
  {
    forall gpu: int :: Load(s.loads, gpu) == TextsOn(s.waiting, gpu) + TextsOn(s.failed, gpu)
  }

  lemma PoolStepKeepsInv(s: Pool, step: PoolStep)
    requires PoolInv(s) && PoolEnabled(s, step)
    ensures PoolInv(PoolNext(s, step))
  {
    var s' := PoolNext(s, step);
    forall gpu: int
      ensures Load(s'.loads, gpu) == TextsOn(s'.waiting, gpu) + TextsOn(s'.failed, gpu)
    {
      match step {
        case DealOut(batches) =>
          AddLoadsAdds(s.loads, batches, gpu);
          TextsOnConcat(s.waiting, batches, gpu);
        case Complete(k, ok) =>
          TextsOnRemove(s.waiting, k, gpu);
          assert (s.failed + [s.waiting[k]])[..|s.failed|] == s.failed;
      }
    }
  }

  lemma {:induction false} PoolRunKeepsInv(s: Pool, steps: seq<PoolStep>, t: Pool)
    requires PoolInv(s) && PoolReaches(s, steps, t)
    ensures PoolInv(t)
    decreases |steps|
  {
    if steps != [] {
      PoolStepKeepsInv(s, steps[0]);
      PoolRunKeepsInv(PoolNext(s, steps[0]), steps[1..], t);
    }
  }

  /**
    However calls overlap, the clamp at zero never takes effect, and once every batch is done a GPU's load is
    exactly the texts of the batches that failed on it: a failure is never taken off again.
   */
  lemma LoadsSettle(n: nat, steps: seq<PoolStep>, s: Pool, gpu: int)
    requires PoolReaches(NoCalls(n), steps, s)
    ensures forall k :: 0 <= k < |s.waiting| ==> Load(s.loads, s.waiting[k].gpu) >= |s.waiting[k].texts|
    ensures s.waiting == [] ==> Load(s.loads, gpu) == TextsOn(s.failed, gpu)
  {
    forall g: int
      ensures Load(Probed(n), g) == 0
    {
      ProbedAreIdle(n, g);
    }
    PoolRunKeepsInv(NoCalls(n), steps, s);
    forall k | 0 <= k < |s.waiting|
      ensures Load(s.loads, s.waiting[k].gpu) >= |s.waiting[k].texts|
    {
      TextsOnRemove(s.waiting, k, s.waiting[k].gpu);
    }
  }

  /** A run in which a batch fails on its GPU, is answered elsewhere, and stays in that GPU's load. */
  lemma FailureStaysInLoad()
    ensures exists steps, s ::
      PoolReaches(NoCalls(2), steps, s) && s.waiting == [] && Load(s.loads, 0) == 1 && Load(NoCalls(2).loads, 0) == 0
  {
    hide PoolReaches, AddLoads;
    var b := Batch(0, ["t"]);
    var deal, fail := DealOut([b]), Complete(0, false);
    var s1 := PoolNext(NoCalls(2), deal);
    var s2 := PoolNext(s1, fail);
    ProbedAreIdle(2, 0);
    AddLoadsAdds(Probed(2), [b], 0);
    TwoSteps(NoCalls(2), deal, s1, fail, s2);
    assert TextsOn([b], 0) == 1 && s2.waiting == [] && s2.loads == s1.loads;
  }

  lemma TwoSteps(s: Pool, a: PoolStep, s1: Pool, b: PoolStep, s2: Pool)
    requires PoolEnabled(s, a) && s1 == PoolNext(s, a) && PoolEnabled(s1, b) && s2 == PoolNext(s1, b)
    ensures PoolReaches(s, [a, b], s2)
  {
    hide PoolNext;
    assert [a, b][1..] == [b] && [b][1..] == [];
    assert PoolReaches(s2, [], s2);
    assert PoolReaches(s1, [b], s2);
  }

  /** Dealing adds to the table exactly what its batches hold, so a deal is one `DealOut` step. */
  lemma AddLoadsOneMore(loads: map<int, int>, batches: seq<Batch>, b: Batch)
    ensures AddLoads(loads, batches + [b])
         == AddLoads(loads, batches)[b.gpu := Load(AddLoads(loads, batches), b.gpu) + |b.texts|]
  {
    hide Load;
    assert (batches + [b])[..|batches|] == batches;
  }

  lemma {:induction false} DealIsDealOut(cfg: Config, s: Gpus, chunks: seq<seq<string>>, picks: nat -> Option<int>)
    requires CanSelect(cfg)
    ensures var (batches, s') := Deal(cfg, s, chunks, picks); s'.loads == AddLoads(s.loads, batches)
  {
    if chunks != [] {
      hide Deal, AddLoads, AddLoad, Load, Select;
      var init, last := chunks[..|chunks| - 1], chunks[|chunks| - 1];
      var (batches, s1) := Deal(cfg, s, init, picks);
      assert chunks == init + [last];
      DealIsDealOut(cfg, s, init, picks);
      DealOneMore(cfg, s, init, last, picks);
      AddedIsDealt(s, batches, s1, Select(cfg, s1, picks(|init|)).1, Batch(Select(cfg, s1, picks(|init|)).0, last));
    } else {
      assert AddLoads(s.loads, []) == s.loads;
    }
  }

  lemma AddedIsDealt(s: Gpus, batches: seq<Batch>, s1: Gpus, s2: Gpus, b: Batch)
    requires s1.loads == AddLoads(s.loads, batches) && s2.loads == s1.loads
    ensures AddLoad(s2, b.gpu, |b.texts|).loads == AddLoads(s.loads, batches + [b])
  {
    hide AddLoads, Load;
    AddLoadsOneMore(s.loads, batches, b);
  }
}
