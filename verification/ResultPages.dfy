/** The pages in which a job's results are served. */
module ResultPages {
  import opened Basics
  import opened JobBatches

  datatype Summary = Summary(total: nat, successes: nat, failures: nat)

  datatype Page = Page(items: seq<Prediction>, total: nat, number: int, size: int, hasMore: bool, summary: Summary)

  function CountSuccesses(rs: seq<Prediction>): nat
  {
    if rs == [] then 0
    else CountSuccesses(rs[..|rs| - 1]) +
         (if rs[|rs| - 1].sentiment.Some? && !IsErrorResult(rs[|rs| - 1]) then 1 else 0)
  }

  /** Python's `xs[start:end]` for non-negative bounds. */
  function Slice<T>(xs: seq<T>, start: nat, end: nat): seq<T>
  {
    if start <= end <= |xs| then xs[start..end] else if start <= |xs| < end then xs[start..] else []
  }

  /** `_paginate_results` */
  function Paginate(results: seq<Prediction>, page: int, pageSize: int): Page
  {
    PageOf(results, Max(1, page), Max(1, pageSize))
  }

  /** Its part after page and size were raised to one. */
  function PageOf(results: seq<Prediction>, safePage: int, size: int): Page
    requires safePage >= 1 && size >= 1
  {
    var total := |results|;
    var asked := (safePage - 1) * size;
    var past := asked >= total && total > 0;
    var number := if past then (total + size - 1) / size else safePage;
    var start := if past then ((total - 1) / size) * size else asked;
    var end := Min(start + size, total);
    assert start >= 0 && end >= 0 by { ProductBounds(safePage, size, total); }
    Page(Slice(results, start, end), total, number, size, end < total,
         Summary(total, CountSuccesses(results), CountErrors(results)))
  }

  lemma ProductBounds(page: int, size: int, total: nat)
    requires page >= 1 && size >= 1
    ensures (page - 1) * size >= 0
    ensures total > 0 ==> 0 <= ((total - 1) / size) * size < total
  {
  }

  /** How many pages there are. */
  function PageCount(total: nat, size: nat): nat
    requires size > 0
  {
    (total + size - 1) / size
  }

  lemma CeilBounds(n: nat, s: nat)
    requires s > 0
    ensures PageCount(n, s) * s >= n
    ensures n > 0 ==> PageCount(n, s) >= 1 && (PageCount(n, s) - 1) * s < n && (n - 1) / s == PageCount(n, s) - 1
  {
    var q := PageCount(n, s);
    var r := (n + s - 1) % s;
    assert q * s + r == n + s - 1;
    assert (q - 1) * s == q * s - s;
    if n > 0 {
      assert n - 1 == (q - 1) * s + r;
      QuotientIs(n - 1, s, q - 1, r);
    }
  }

  /** A page within range: its slice of the results, its own number, and `has_more` before the last only. */
  lemma PageInRange(results: seq<Prediction>, page: nat, size: nat)
    requires size > 0 && 1 <= page <= PageCount(|results|, size)
    ensures var p := Paginate(results, page, size);
      && (page - 1) * size < |results|
      && p.items == results[(page - 1) * size..Min(page * size, |results|)]
      && p.number == page
      && (p.hasMore <==> page < PageCount(|results|, size))
  {
    var n, q := |results|, PageCount(|results|, size);
    CeilBounds(n, size);
    Monotone(page - 1, q - 1, size);
    assert page * size == (page - 1) * size + size;
    if page < q {
      Monotone(page, q - 1, size);
    }
  }

  /** Any page past the end is the last page, under its true number. */
  lemma PagePastEnd(results: seq<Prediction>, page: nat, size: nat)
    requires size > 0 && results != [] && page > PageCount(|results|, size)
    ensures Paginate(results, page, size) == Paginate(results, PageCount(|results|, size), size)
  {
    var n, q := |results|, PageCount(|results|, size);
    CeilBounds(n, size);
    Monotone(q, page - 1, size);
  }

  /** Only for an empty result list is a page beyond the end served under the number asked for. */
  lemma PageOfNothing(page: int, pageSize: int)
    ensures Paginate([], page, pageSize).items == [] && !Paginate([], page, pageSize).hasMore
    ensures Paginate([], page, pageSize).number == Max(1, page)
  {
    ProductBounds(Max(1, page), Max(1, pageSize), 0);
  }

  /** Page numbers and sizes below one mean one. */
  lemma PageClamped(results: seq<Prediction>, page: int, pageSize: int)
    ensures Paginate(results, page, pageSize) == Paginate(results, Max(1, page), Max(1, pageSize))
  {
    hide PageOf;
  }

  /** The pages 1 to `k`, put together. */
  function PagesUpTo(results: seq<Prediction>, size: nat, k: nat): seq<Prediction>
  {
    if k == 0 then [] else PagesUpTo(results, size, k - 1) + Paginate(results, k, size).items
  }

  /** Where page `k` ends among `n` results. */
  function EndOf(n: nat, size: nat, k: nat): (end: nat)
    ensures end <= n
  {
    if k == 0 then 0 else Min(EndOf(n, size, k - 1) + size, n)
  }

  lemma {:induction false} EndIsProduct(n: nat, size: nat, k: nat)
    ensures EndOf(n, size, k) == Min(k * size, n)
  {
    if k > 0 {
      EndIsProduct(n, size, k - 1);
      assert k * size == (k - 1) * size + size;
    }
  }

  lemma PageItems(results: seq<Prediction>, size: nat, k: nat)
    requires size > 0 && 1 <= k <= PageCount(|results|, size)
    ensures EndOf(|results|, size, k - 1) <= EndOf(|results|, size, k)
    ensures Paginate(results, k, size).items == results[EndOf(|results|, size, k - 1)..EndOf(|results|, size, k)]
  {
    hide Paginate, PageCount, EndOf;
    PageInRange(results, k, size);
    EndIsProduct(|results|, size, k - 1);
    EndIsProduct(|results|, size, k);
    assert k * size == (k - 1) * size + size;
  }

  lemma {:induction false} PagesArePrefix(results: seq<Prediction>, size: nat, k: nat)
    requires size > 0 && k <= PageCount(|results|, size)
    ensures PagesUpTo(results, size, k) == results[..EndOf(|results|, size, k)]
    decreases k
  {
    hide Paginate, PageCount;
    if k > 0 {
      PagesArePrefix(results, size, k - 1);
      PageItems(results, size, k);
      JoinPrefix(results, EndOf(|results|, size, k - 1), EndOf(|results|, size, k));
    }
  }

  lemma JoinPrefix<T>(xs: seq<T>, a: int, b: int)
    requires 0 <= a <= b <= |xs|
    ensures xs[..a] + xs[a..b] == xs[..b]
  {
  }

  /** Reading page after page to the last one yields the results, each once and in order. */
  lemma PagesPartition(results: seq<Prediction>, size: nat)
    requires size > 0
    ensures PagesUpTo(results, size, PageCount(|results|, size)) == results
  {
    hide PagesUpTo, EndOf;
    var n := PageCount(|results|, size);
    CeilBounds(|results|, size);
    PagesArePrefix(results, size, n);
    EndIsProduct(|results|, size, n);
    assert results[..|results|] == results;
  }

  lemma HasMoreInRange(results: seq<Prediction>, page: nat, size: nat)
    requires size > 0 && page >= 1
    ensures Paginate(results, page, size).hasMore <==> page < PageCount(|results|, size)
  {
    CeilBounds(|results|, size);
    if page <= PageCount(|results|, size) {
      PageInRange(results, page, size);
    } else if results == [] {
      PageOfNothing(page, size);
    } else {
      PagePastEnd(results, page, size);
      PageInRange(results, PageCount(|results|, size), size);
    }
  }

  /** A reader following `has_more` stops exactly after the last page, whatever page and size it asks for. */
  lemma HasMoreEndsAtLastPage(results: seq<Prediction>, page: int, pageSize: int)
    ensures Paginate(results, page, pageSize).hasMore <==> Max(1, page) < PageCount(|results|, Max(1, pageSize))
  {
    PageClamped(results, page, pageSize);
    HasMoreInRange(results, Max(1, page), Max(1, pageSize));
  }

  /** Every page carries the same summary; unlabelled entries count on neither side. */
  lemma {:induction false} SummaryCounts(results: seq<Prediction>)
    ensures CountSuccesses(results) + CountErrors(results) <= |results|
    ensures CountSuccesses(results) + CountErrors(results) == |results|
      <==> forall i :: 0 <= i < |results| ==> results[i].sentiment.Some?
  {
    if results != [] {
      var n := |results| - 1;
      SummaryCounts(results[..n]);
      assert forall i :: 0 <= i < n ==> results[i] == results[..n][i];
    }
  }

  lemma PageStart(results: seq<Prediction>, page: int, pageSize: int)
    ensures var p := Paginate(results, page, pageSize);
      && p.number >= 1 && p.size >= 1
      && var start := (p.number - 1) * p.size;
      0 <= start && p.items == Slice(results, start, Min(start + p.size, |results|))
  {
    var number, size := Max(1, page), Max(1, pageSize);
    ProductBounds(number, size, |results|);
    if (number - 1) * size >= |results| > 0 {
      CeilBounds(|results|, size);
    }
  }

  /** Which of all results entry `i` of a page is. */
  function PlaceOf(p: Page, i: nat): int
  {
    (p.number - 1) * p.size + i
  }

  /** Whatever page is asked for, entry `i` of the one served is the result that its number and size say. */
  lemma PageByNumber(results: seq<Prediction>, page: int, pageSize: int, i: nat)
    requires i < |Paginate(results, page, pageSize).items|
    ensures var p := Paginate(results, page, pageSize);
      && p.number >= 1 && p.size >= 1
      && 0 <= PlaceOf(p, i) < |results|
      && p.items[i] == results[PlaceOf(p, i)]
  {
    hide Paginate;
    PageStart(results, page, pageSize);
  }

  lemma {:induction false} SuccessesAreCounted(rs: seq<Prediction>)
    ensures CountSuccesses(rs) == |set i | 0 <= i < |rs| && rs[i].sentiment.Some? && rs[i].sentiment.value != "ERROR"|
  {
    if rs != [] {
      var n := |rs| - 1;
      SuccessesAreCounted(rs[..n]);
      var before := set i | 0 <= i < n && rs[..n][i].sentiment.Some? && rs[..n][i].sentiment.value != "ERROR";
      var after := set i | 0 <= i < |rs| && rs[i].sentiment.Some? && rs[i].sentiment.value != "ERROR";
      MaybeOneMore(before, n, rs[n].sentiment.Some? && rs[n].sentiment.value != "ERROR", after);
    }
  }

  /** What every page says about the whole: its size, the results in all, the successes and the errors. */
  lemma PageSummary(results: seq<Prediction>, page: int, pageSize: int)
    ensures var p := Paginate(results, page, pageSize);
      && p.size == Max(1, pageSize) && p.total == p.summary.total == |results|
      && p.summary.failures == |set i | 0 <= i < |results| && results[i].sentiment == Some("ERROR")|
      && p.summary.successes ==
           |set i | 0 <= i < |results| && results[i].sentiment.Some? && results[i].sentiment.value != "ERROR"|
  {
    ErrorsAreCounted(results);
    SuccessesAreCounted(results);
  }
}
