/** The result cache: an insertion-ordered dictionary with a time to live and a size limit. */
module CacheModel {
  import opened Basics

  datatype Entry = Entry(results: seq<Prediction>, cachedAt: real)

  /** `order` lists the keys as they were inserted, the order in which the dictionary is iterated. */
  datatype Cache = Cache(entries: map<string, Entry>, order: seq<string>)

  const EMPTY_CACHE: Cache := Cache(map[], [])

  function Elements<T>(xs: seq<T>): set<T>
  {
    set x | x in xs
  }

  predicate IsDictionary(c: Cache)
  {
    NoDuplicates(c.order) && Elements(c.order) == c.entries.Keys
  }

  /** `ids` without the members of `gone`. */
  function Without(ids: seq<string>, gone: set<string>): (r: seq<string>)
    ensures forall x :: x in r <==> x in ids && x !in gone
  {
    if ids == [] then []
    else if ids[|ids| - 1] in gone then Without(ids[..|ids| - 1], gone)
    else Without(ids[..|ids| - 1], gone) + [ids[|ids| - 1]]
  }

  function Remove(c: Cache, gone: set<string>): Cache
  {
    Cache(c.entries - gone, Without(c.order, gone))
  }

  predicate Stale(e: Entry, now: real, ttl: real) { now - e.cachedAt >= ttl }

  function StaleKeys(c: Cache, now: real, ttl: real): set<string>
  {
    set id | id in c.entries && Stale(c.entries[id], now, ttl)
  }

  function Age(entries: map<string, Entry>, id: string): real
  {
    if id in entries then entries[id].cachedAt else 0.0
  }

  /** `sorted(..., key=cached_at)`: entries of equal age keep the order of insertion. */
  function SortByAge(ids: seq<string>, entries: map<string, Entry>): (r: seq<string>)
    ensures multiset(r) == multiset(ids)
  {
    if ids == [] then [] else
    assert ids == ids[..|ids| - 1] + [ids[|ids| - 1]];
    InsertByAge(SortByAge(ids[..|ids| - 1], entries), ids[|ids| - 1], entries)
  }

  /** Behind every entry that is at most as old a number as `id`'s. */
  function InsertByAge(sorted: seq<string>, id: string, entries: map<string, Entry>): (r: seq<string>)
    ensures multiset(r) == multiset(sorted) + multiset{id}
  {
    if sorted == [] then [id]
    else
      var last, init := sorted[|sorted| - 1], sorted[..|sorted| - 1];
      if Age(entries, last) <= Age(entries, id) then sorted + [id]
      else
        assert sorted == init + [last];
        InsertByAge(init, id, entries) + [last]
  }

  /** The oldest entries a write removes: enough to leave one place free. */
  function Victims(c: Cache, maxSize: int): seq<string>
  {
    var sorted := SortByAge(c.order, c.entries);
    if |c.entries| < maxSize then [] else sorted[..Min(|c.entries| - maxSize + 1, |sorted|)]
  }

  function CleanUp(c: Cache, now: real, ttl: real): Cache
  {
    Remove(c, StaleKeys(c, now, ttl))
  }

  function Enforce(c: Cache, maxSize: int): Cache
  {
    Remove(c, Elements(Victims(c, maxSize)))
  }

  /** `cache_result`: clean up, make room, and insert unless the id is still present. */
  function Write(c: Cache, id: string, results: seq<Prediction>, now: real, ttl: real, maxSize: int): Cache
  {
    var c' := Enforce(CleanUp(c, now, ttl), maxSize);
    if id in c'.entries then c' else Cache(c'.entries[id := Entry(results, now)], c'.order + [id])
  }

  /** `get_cached_result`: the answer, and the cache after a stale entry is dropped. */
  function Lookup(c: Cache, id: string, now: real, ttl: real): Option<seq<Prediction>>
  {
    if id in c.entries && !Stale(c.entries[id], now, ttl) then Some(c.entries[id].results) else None
  }

  function AfterLookup(c: Cache, id: string, now: real, ttl: real): Cache
  {
    if id in c.entries && Stale(c.entries[id], now, ttl) then Remove(c, {id}) else c
  }

  // ---------------------------------------------------------------- the dictionary

  lemma {:induction false} WithoutKeepsNoDuplicates(ids: seq<string>, gone: set<string>)
    requires NoDuplicates(ids)
    ensures NoDuplicates(Without(ids, gone))
  {
    if ids != [] {
      var init := ids[..|ids| - 1];
      WithoutKeepsNoDuplicates(init, gone);
      assert ids[|ids| - 1] !in Without(init, gone);
    }
  }

  lemma RemoveKeepsDictionary(c: Cache, gone: set<string>)
    requires IsDictionary(c)
    ensures IsDictionary(Remove(c, gone))
  {
    WithoutKeepsNoDuplicates(c.order, gone);
  }

  lemma {:induction false} WithoutTwice(ids: seq<string>, a: set<string>, b: set<string>)
    ensures Without(Without(ids, a), b) == Without(ids, a + b)
  {
    if ids != [] {
      var init, last := ids[..|ids| - 1], ids[|ids| - 1];
      WithoutTwice(init, a, b);
      if last !in a {
        var w := Without(ids, a);
        assert w[..|w| - 1] == Without(init, a) && w[|w| - 1] == last;
      }
    }
  }

  lemma RemoveTwice(c: Cache, a: set<string>, b: set<string>)
    ensures Remove(Remove(c, a), b) == Remove(c, a + b)
  {
    WithoutTwice(c.order, a, b);
    assert c.entries - a - b == c.entries - (a + b);
  }

  lemma {:induction false} CountOfNoDuplicates<T>(xs: seq<T>)
    requires NoDuplicates(xs)
    ensures |Elements(xs)| == |xs|
  {
    if xs != [] {
      var init, last := xs[..|xs| - 1], xs[|xs| - 1];
      CountOfNoDuplicates(init);
      assert Elements(xs) == Elements(init) + {last};
      assert last !in Elements(init);
    }
  }

  lemma {:induction false} DuplicatesShowInMultiset<T>(xs: seq<T>)
    ensures NoDuplicates(xs) <==> forall x :: x in multiset(xs) ==> multiset(xs)[x] == 1
  {
    if xs != [] {
      var init, last := xs[..|xs| - 1], xs[|xs| - 1];
      assert xs == init + [last];
      DuplicatesShowInMultiset(init);
      if NoDuplicates(xs) {
        assert last !in init;
      } else if NoDuplicates(init) {
        assert last in init;
        assert multiset(xs)[last] >= 2;
      } else {
        var x :| x in multiset(init) && multiset(init)[x] != 1;
        assert multiset(xs)[x] >= 2;
      }
    }
  }

  lemma SortOfDictionary(c: Cache)
    requires IsDictionary(c)
    ensures var s := SortByAge(c.order, c.entries);
      NoDuplicates(s) && Elements(s) == c.entries.Keys && |s| == |c.entries|
  {
    var s := SortByAge(c.order, c.entries);
    DuplicatesShowInMultiset(c.order);
    DuplicatesShowInMultiset(s);
    CountOfNoDuplicates(s);
    forall x
      ensures x in Elements(s) <==> x in Elements(c.order)
    {
      assert x in s <==> x in multiset(s);
      assert x in c.order <==> x in multiset(c.order);
    }
    assert |c.entries| == |c.entries.Keys|;
  }

  // ---------------------------------------------------------------- ages

  ghost predicate Ascending(ids: seq<string>, entries: map<string, Entry>)
  {
    forall i, j :: 0 <= i < j < |ids| ==> Age(entries, ids[i]) <= Age(entries, ids[j])
  }

  lemma {:induction false} InsertKeepsAscending(sorted: seq<string>, id: string, entries: map<string, Entry>)
    requires Ascending(sorted, entries)
    ensures Ascending(InsertByAge(sorted, id, entries), entries)
  {
    if sorted != [] && Age(entries, sorted[|sorted| - 1]) > Age(entries, id) {
      var last, init := sorted[|sorted| - 1], sorted[..|sorted| - 1];
      InsertKeepsAscending(init, id, entries);
      var r := InsertByAge(init, id, entries);
      forall i | 0 <= i < |r|
        ensures Age(entries, r[i]) <= Age(entries, last)
      {
        assert r[i] in multiset(r);
        assert r[i] == id || r[i] in init;
      }
    }
  }

  lemma {:induction false} SortIsAscending(ids: seq<string>, entries: map<string, Entry>)
    ensures Ascending(SortByAge(ids, entries), entries)
  {
    if ids != [] {
      var init := ids[..|ids| - 1];
      SortIsAscending(init, entries);
      InsertKeepsAscending(SortByAge(init, entries), ids[|ids| - 1], entries);
    }
  }

  /** The victims are a prefix of the sorted keys, of the size that leaves one place free. */
  lemma VictimsAreAPrefix(c: Cache, maxSize: int)
    requires IsDictionary(c)
    ensures Victims(c, maxSize) <= SortByAge(c.order, c.entries)
    ensures |c.entries| - |Victims(c, maxSize)| == Min(|c.entries|, Max(0, maxSize - 1))
  {
    SortOfDictionary(c);
  }

  lemma PrefixOfNoDuplicates<T>(xs: seq<T>, ys: seq<T>)
    requires xs <= ys && NoDuplicates(ys)
    ensures NoDuplicates(xs) && Elements(xs) <= Elements(ys)
  {
    assert forall i :: 0 <= i < |xs| ==> xs[i] == ys[i];
  }

  lemma VictimsAreKeys(c: Cache, maxSize: int)
    requires IsDictionary(c)
    ensures NoDuplicates(Victims(c, maxSize)) && Elements(Victims(c, maxSize)) <= c.entries.Keys
  {
    SortOfDictionary(c);
    VictimsAreAPrefix(c, maxSize);
    PrefixOfNoDuplicates(Victims(c, maxSize), SortByAge(c.order, c.entries));
  }

  lemma RemoveSize(c: Cache, gone: set<string>)
    requires gone <= c.entries.Keys
    ensures |Remove(c, gone).entries| == |c.entries| - |gone|
  {
    assert Remove(c, gone).entries.Keys == c.entries.Keys - gone;
    assert |Remove(c, gone).entries| == |Remove(c, gone).entries.Keys| && |c.entries| == |c.entries.Keys|;
  }

  lemma EnforceSize(c: Cache, maxSize: int)
    requires IsDictionary(c)
    ensures |Enforce(c, maxSize).entries| == Min(|c.entries|, Max(0, maxSize - 1))
  {
    VictimsAreAPrefix(c, maxSize);
    VictimsAreKeys(c, maxSize);
    CountOfNoDuplicates(Victims(c, maxSize));
    RemoveSize(c, Elements(Victims(c, maxSize)));
  }

  /** What a write evicts for its size is at least as old as everything it keeps. */
  lemma EvictsOldest(c: Cache, maxSize: int, gone: string, kept: string)
    requires IsDictionary(c)
    requires gone in c.entries && gone !in Enforce(c, maxSize).entries && kept in Enforce(c, maxSize).entries
    ensures c.entries[gone].cachedAt <= c.entries[kept].cachedAt
  {
    var s, victims := SortByAge(c.order, c.entries), Victims(c, maxSize);
    VictimsAreAPrefix(c, maxSize);
    SortOfDictionary(c);
    SortIsAscending(c.order, c.entries);
    assert gone in Elements(victims) && kept in Elements(s) && kept !in Elements(victims);
    var i :| 0 <= i < |victims| && victims[i] == gone;
    var j :| 0 <= j < |s| && s[j] == kept;
    assert s[i] == gone && i < |victims| <= j;
  }

  lemma InsertKeepsDictionary(c: Cache, id: string, e: Entry)
    requires IsDictionary(c) && id !in c.entries
    ensures IsDictionary(Cache(c.entries[id := e], c.order + [id]))
    ensures |c.entries[id := e]| == |c.entries| + 1
  {
    assert id !in Elements(c.order);
    assert Elements(c.order + [id]) == Elements(c.order) + {id} == c.entries[id := e].Keys;
    assert |c.entries[id := e]| == |c.entries[id := e].Keys| && |c.entries| == |c.entries.Keys|;
  }

  /** A write never leaves more than the limit, or one entry if the limit is not positive. */
  lemma SizeAfterWrite(c: Cache, id: string, results: seq<Prediction>, now: real, ttl: real, maxSize: int)
    requires IsDictionary(c)
    ensures IsDictionary(Write(c, id, results, now, ttl, maxSize))
    ensures |Write(c, id, results, now, ttl, maxSize).entries| <= Max(1, maxSize)
  {
    RemoveKeepsDictionary(c, StaleKeys(c, now, ttl));
    var clean := CleanUp(c, now, ttl);
    RemoveKeepsDictionary(clean, Elements(Victims(clean, maxSize)));
    EnforceSize(clean, maxSize);
    var c' := Enforce(clean, maxSize);
    if id !in c'.entries {
      InsertKeepsDictionary(c', id, Entry(results, now));
    }
  }

  /** Those still younger than the time to live. */
  function FreshKeys(c: Cache, now: real, ttl: real): set<string>
  {
    set id | id in c.entries && now - c.entries[id].cachedAt < ttl
  }

  lemma CleanUpLeavesFresh(c: Cache, now: real, ttl: real)
    requires IsDictionary(c)
    ensures CleanUp(c, now, ttl).entries.Keys == FreshKeys(c, now, ttl) && IsDictionary(CleanUp(c, now, ttl))
    ensures forall k :: k in FreshKeys(c, now, ttl) ==> CleanUp(c, now, ttl).entries[k] == c.entries[k]
  {
    RemoveKeepsDictionary(c, StaleKeys(c, now, ttl));
  }

  /** What a write finds left after its clean-up and eviction. */
  function Survivors(c: Cache, now: real, ttl: real, maxSize: int): map<string, Entry>
  {
    Enforce(CleanUp(c, now, ttl), maxSize).entries
  }

  lemma SurvivorsAreFresh(c: Cache, now: real, ttl: real, maxSize: int)
    requires IsDictionary(c)
    ensures var left := Survivors(c, now, ttl, maxSize);
      && left.Keys <= FreshKeys(c, now, ttl) && forall k :: k in left ==> left[k] == c.entries[k]
  {
    hide Enforce, CleanUp, IsDictionary;
    CleanUpLeavesFresh(c, now, ttl);
    EnforceRemoves(CleanUp(c, now, ttl), maxSize);
  }

  lemma EnforceRemoves(c: Cache, maxSize: int)
    ensures Enforce(c, maxSize).entries.Keys <= c.entries.Keys
    ensures forall k :: k in Enforce(c, maxSize).entries ==> Enforce(c, maxSize).entries[k] == c.entries[k]
    ensures |c.entries| < maxSize ==> Enforce(c, maxSize).entries == c.entries
  {
    hide SortByAge;
    if |c.entries| < maxSize {
      assert Elements(Victims(c, maxSize)) == {};
      assert c.entries - {} == c.entries;
    }
  }

  lemma SurvivorCount(c: Cache, now: real, ttl: real, maxSize: int)
    requires IsDictionary(c)
    ensures var young, left := FreshKeys(c, now, ttl), Survivors(c, now, ttl, maxSize);
      && |left.Keys| == Min(|young|, Max(0, maxSize - 1))
      && (|young| < maxSize ==> left.Keys == young)
  {
    hide Enforce, CleanUp, IsDictionary;
    var clean := CleanUp(c, now, ttl);
    CleanUpLeavesFresh(c, now, ttl);
    EnforceSize(clean, maxSize);
    EnforceRemoves(clean, maxSize);
    assert |clean.entries| == |clean.entries.Keys|;
    assert |Enforce(clean, maxSize).entries| == |Enforce(clean, maxSize).entries.Keys|;
  }

  lemma SurvivorsAreYoungest(c: Cache, now: real, ttl: real, maxSize: int, gone: string, kept: string)
    requires IsDictionary(c) && gone in FreshKeys(c, now, ttl)
    requires gone !in Survivors(c, now, ttl, maxSize) && kept in Survivors(c, now, ttl, maxSize)
    ensures kept in c.entries && gone in c.entries && c.entries[gone].cachedAt <= c.entries[kept].cachedAt
  {
    assert gone in c.entries;
    hide Enforce, CleanUp, IsDictionary;
    CleanUpLeavesFresh(c, now, ttl);
    SurvivorsAreFresh(c, now, ttl, maxSize);
    EvictsOldest(CleanUp(c, now, ttl), maxSize, gone, kept);
  }

  lemma WriteIs(c: Cache, id: string, results: seq<Prediction>, now: real, ttl: real, maxSize: int)
    ensures var left := Survivors(c, now, ttl, maxSize);
      Write(c, id, results, now, ttl, maxSize).entries == if id in left then left else left[id := Entry(results, now)]
  {
    hide Enforce, CleanUp;
  }

  /**
    A write keeps fresh entries only, unchanged, and all of them if they leave room for one more; else it
    gives up just enough of them, none younger than one it keeps. The id written is then in the cache.
   */
  lemma WriteKeepsFresh(c: Cache, id: string, results: seq<Prediction>, now: real, ttl: real, maxSize: int)
    requires IsDictionary(c)
    ensures var young, after := FreshKeys(c, now, ttl), Write(c, id, results, now, ttl, maxSize).entries;
      && (forall k :: k in after && k != id ==> k in young && after[k] == c.entries[k])
      && (|young| < maxSize ==> young <= after.Keys)
      && (forall gone, k :: gone in young && gone !in after && k in after && k != id ==>
            c.entries[gone].cachedAt <= c.entries[k].cachedAt)
      && id in after
      && (id !in young ==> after[id] == Entry(results, now) && |after.Keys - {id}| == Min(|young|, Max(0, maxSize - 1)))
  {
    hide Write, Survivors, FreshKeys, IsDictionary;
    var young, left := FreshKeys(c, now, ttl), Survivors(c, now, ttl, maxSize);
    var after := Write(c, id, results, now, ttl, maxSize).entries;
    WriteIs(c, id, results, now, ttl, maxSize);
    SurvivorsAreFresh(c, now, ttl, maxSize);
    SurvivorCount(c, now, ttl, maxSize);
    forall gone, k | gone in young && gone !in after && k in after && k != id
      ensures k in c.entries && gone in c.entries && c.entries[gone].cachedAt <= c.entries[k].cachedAt
    {
      SurvivorsAreYoungest(c, now, ttl, maxSize, gone, k);
    }
    if id !in young {
      assert after.Keys - {id} == left.Keys;
    }
  }

  /** An entry that is fresh, and stays so, is a hit after another id was written while there was room. */
  lemma FreshStaysAHit(c: Cache, id: string, results: seq<Prediction>, now: real, later: real, ttl: real, maxSize: int,
                       other: string)
    requires IsDictionary(c) && other in c.entries && other != id && |FreshKeys(c, now, ttl)| < maxSize
    requires now - c.entries[other].cachedAt < ttl && later - c.entries[other].cachedAt < ttl
    ensures Lookup(Write(c, id, results, now, ttl, maxSize), other, later, ttl) == Some(c.entries[other].results)
  {
    assert other in FreshKeys(c, now, ttl);
    hide Write, FreshKeys, IsDictionary;
    WriteKeepsFresh(c, id, results, now, ttl, maxSize);
  }

  // ---------------------------------------------------------------- runs

  datatype CacheOp =
    | WriteOp(id: string, results: seq<Prediction>, now: real)
    | LookupOp(id: string, now: real)
    | ClearOp

  function ApplyOp(c: Cache, op: CacheOp, ttl: real, maxSize: int): Cache
  {
    match op
    case WriteOp(id, results, now) => Write(c, id, results, now, ttl, maxSize)
    case LookupOp(id, now) => AfterLookup(c, id, now, ttl)
    case ClearOp => EMPTY_CACHE
  }

  /** `trace` lists the states of the cache, from the empty one, around the operations `ops`. */
  ghost predicate IsTrace(trace: seq<Cache>, ops: seq<CacheOp>, ttl: real, maxSize: int)
  {
    && |trace| == |ops| + 1
    && trace[0] == EMPTY_CACHE
    && forall k :: 0 <= k < |ops| ==> trace[k + 1] == ApplyOp(trace[k], ops[k], ttl, maxSize)
  }

  ghost predicate Holds(c: Cache, id: string, e: Entry)
  {
    id in c.entries && c.entries[id] == e
  }

  /** The write `op` of `id` found no entry for it that survived its own clean-up and eviction. */
  predicate Inserts(c: Cache, op: CacheOp, ttl: real, maxSize: int, id: string)
  {
    op.WriteOp? && op.id == id && id !in Enforce(CleanUp(c, op.now, ttl), maxSize).entries
  }

  /**
    Operation `k` stored `e` for `id`, which had no entry left at that moment, and it has been there,
    unchanged, up to state `n`.
   */
  ghost predicate StoredBy(trace: seq<Cache>, ops: seq<CacheOp>, ttl: real, maxSize: int,
                           id: string, e: Entry, k: nat, n: nat)
    requires n < |trace|
  {
    && k < |ops| && k < n && k < |trace|
    && ops[k] == WriteOp(id, e.results, e.cachedAt)
    && Inserts(trace[k], ops[k], ttl, maxSize, id)
    && forall i :: k < i <= n ==> Holds(trace[i], id, e)
  }

  /** An operation keeps an entry as it is or removes it; only a write of its own id can add it. */
  lemma OpChangesEntry(c: Cache, op: CacheOp, ttl: real, maxSize: int, id: string, e: Entry)
    requires Holds(ApplyOp(c, op, ttl, maxSize), id, e)
    ensures Holds(c, id, e) || (op == WriteOp(id, e.results, e.cachedAt) && Inserts(c, op, ttl, maxSize, id))
  {
  }

  /** An entry present after an operation was there before or has just been written. */
  ghost predicate Explained(trace: seq<Cache>, ops: seq<CacheOp>, ttl: real, maxSize: int, id: string, e: Entry)
  {
    && |trace| == |ops| + 1
    && !Holds(trace[0], id, e)
    && forall n :: 0 < n < |trace| && Holds(trace[n], id, e) ==>
         Holds(trace[n - 1], id, e) ||
         (ops[n - 1] == WriteOp(id, e.results, e.cachedAt) && Inserts(trace[n - 1], ops[n - 1], ttl, maxSize, id))
  }

  lemma TraceIsExplained(trace: seq<Cache>, ops: seq<CacheOp>, ttl: real, maxSize: int, id: string, e: Entry)
    requires IsTrace(trace, ops, ttl, maxSize)
    ensures Explained(trace, ops, ttl, maxSize, id, e)
  {
    forall n | 0 < n < |trace| && Holds(trace[n], id, e)
      ensures Holds(trace[n - 1], id, e) ||
        (ops[n - 1] == WriteOp(id, e.results, e.cachedAt) && Inserts(trace[n - 1], ops[n - 1], ttl, maxSize, id))
    {
      var k := n - 1;
      assert trace[k + 1] == ApplyOp(trace[k], ops[k], ttl, maxSize);
      OpChangesEntry(trace[k], ops[k], ttl, maxSize, id, e);
    }
  }

  lemma {:induction false} FindWrite(trace: seq<Cache>, ops: seq<CacheOp>, ttl: real, maxSize: int,
                                     id: string, e: Entry, n: nat) returns (k: nat)
    requires Explained(trace, ops, ttl, maxSize, id, e) && n < |trace| && Holds(trace[n], id, e)
    ensures StoredBy(trace, ops, ttl, maxSize, id, e, k, n)
    decreases n
  {
    if Holds(trace[n - 1], id, e) {
      k := FindWrite(trace, ops, ttl, maxSize, id, e, n - 1);
    } else {
      k := n - 1;
    }
  }

  /**
    Every cached payload is the one first written for its id since the id was last removed: the write that
    stored it is the last event in the entry's history, later writes of the same id notwithstanding.
   */
  lemma Provenance(trace: seq<Cache>, ops: seq<CacheOp>, ttl: real, maxSize: int, id: string, e: Entry, n: nat)
    returns (k: nat)
    requires IsTrace(trace, ops, ttl, maxSize) && n < |trace| && Holds(trace[n], id, e)
    ensures StoredBy(trace, ops, ttl, maxSize, id, e, k, n)
  {
    TraceIsExplained(trace, ops, ttl, maxSize, id, e);
    k := FindWrite(trace, ops, ttl, maxSize, id, e, n);
  }

  lemma LookupKeepsDictionary(c: Cache, id: string, now: real, ttl: real)
    requires IsDictionary(c)
    ensures IsDictionary(AfterLookup(c, id, now, ttl)) && |AfterLookup(c, id, now, ttl).entries| <= |c.entries|
  {
    if id in c.entries && Stale(c.entries[id], now, ttl) {
      RemoveKeepsDictionary(c, {id});
      RemoveSize(c, {id});
    }
  }

  lemma EmptyIsDictionary()
    ensures IsDictionary(EMPTY_CACHE) && |EMPTY_CACHE.entries| == 0
  {
  }

  lemma OpKeepsBound(c: Cache, op: CacheOp, ttl: real, maxSize: int)
    requires IsDictionary(c) && |c.entries| <= Max(1, maxSize)
    ensures IsDictionary(ApplyOp(c, op, ttl, maxSize)) && |ApplyOp(c, op, ttl, maxSize).entries| <= Max(1, maxSize)
  {
    hide IsDictionary, Write, AfterLookup;
    match op {
      case WriteOp(id, results, now) => SizeAfterWrite(c, id, results, now, ttl, maxSize);
      case LookupOp(id, now) => LookupKeepsDictionary(c, id, now, ttl);
      case ClearOp => EmptyIsDictionary();
    }
  }

  /** The cache stays a dictionary of bounded size through every run. */
  lemma {:induction false} TraceIsBounded(trace: seq<Cache>, ops: seq<CacheOp>, ttl: real, maxSize: int, n: nat)
    requires IsTrace(trace, ops, ttl, maxSize) && n < |trace|
    ensures IsDictionary(trace[n]) && |trace[n].entries| <= Max(1, maxSize)
    decreases n
  {
    hide IsDictionary, ApplyOp;
    if n == 0 {
      EmptyIsDictionary();
    } else {
      TraceIsBounded(trace, ops, ttl, maxSize, n - 1);
      OpKeepsBound(trace[n - 1], ops[n - 1], ttl, maxSize);
      assert trace[n - 1 + 1] == ApplyOp(trace[n - 1], ops[n - 1], ttl, maxSize);
    }
  }

  /** A hit is younger than the time to live, and its payload is the one `Provenance` traces. */
  lemma HitIsFresh(trace: seq<Cache>, ops: seq<CacheOp>, ttl: real, maxSize: int, id: string, now: real, n: nat)
    returns (k: nat, e: Entry)
    requires IsTrace(trace, ops, ttl, maxSize) && n < |trace| && Lookup(trace[n], id, now, ttl).Some?
    ensures StoredBy(trace, ops, ttl, maxSize, id, e, k, n)
    ensures now - e.cachedAt < ttl && Lookup(trace[n], id, now, ttl) == Some(e.results)
  {
    e := trace[n].entries[id];
    k := Provenance(trace, ops, ttl, maxSize, id, e, n);
  }
}
