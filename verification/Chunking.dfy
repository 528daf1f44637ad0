/** Slicing a list with `range(0, len(xs), size)`. */
module Chunking {
  import opened Basics

  /** The slice `xs[:size]`, and what `xs[size:]` leaves. */
  function Head<T>(xs: seq<T>, size: nat): seq<T> { if size <= |xs| then xs[..size] else xs }

  function Rest<T>(xs: seq<T>, size: nat): seq<T> { if size <= |xs| then xs[size..] else [] }

  /** The slices `xs[i : i + size]` for `i` in `range(0, len(xs), size)`. */
  function Chunks<T>(xs: seq<T>, size: nat): seq<seq<T>>
    requires size > 0
    decreases |xs|
  {
    if xs == [] then [] else [Head(xs, size)] + Chunks(Rest(xs, size), size)
  }

  function Flatten<T>(xss: seq<seq<T>>): seq<T>
  {
    if xss == [] then [] else Flatten(xss[..|xss| - 1]) + xss[|xss| - 1]
  }

  lemma FlattenAppend<T>(xss: seq<seq<T>>, xs: seq<T>)
    ensures Flatten(xss + [xs]) == Flatten(xss) + xs
  {
    assert (xss + [xs])[..|xss|] == xss;
  }

  lemma {:induction false} FlattenConcat<T>(xss: seq<seq<T>>, yss: seq<seq<T>>)
    ensures Flatten(xss + yss) == Flatten(xss) + Flatten(yss)
    decreases |yss|
  {
    if yss == [] {
      assert xss + yss == xss;
    } else {
      var init, last := yss[..|yss| - 1], yss[|yss| - 1];
      FlattenConcat(xss, init);
      FlattenAppend(xss + init, last);
      assert yss == init + [last];
      Associative(xss, init, [last]);
      Associative(Flatten(xss), Flatten(init), last);
    }
  }

  lemma Associative<T>(a: seq<T>, b: seq<T>, c: seq<T>)
    ensures (a + b) + c == a + (b + c)
  {
  }

  lemma FlattenOne<T>(xs: seq<T>)
    ensures Flatten([xs]) == xs
  {
    assert [xs][..0] == [];
  }

  /** The slices put together are the list. */
  lemma {:induction false} ChunksPartition<T>(xs: seq<T>, size: nat)
    requires size > 0
    ensures Flatten(Chunks(xs, size)) == xs
    decreases |xs|
  {
    if xs != [] {
      var head, rest := Head(xs, size), Rest(xs, size);
      ChunksPartition(rest, size);
      FlattenOne(head);
      FlattenConcat([head], Chunks(rest, size));
      assert head + rest == xs;
    }
  }

  /** No slice is empty or larger than the size. */
  lemma {:induction false} ChunksBounded<T>(xs: seq<T>, size: nat)
    requires size > 0
    ensures forall k :: 0 <= k < |Chunks(xs, size)| ==> 0 < |Chunks(xs, size)[k]| <= size
    decreases |xs|
  {
    if xs != [] {
      ChunksBounded(Rest(xs, size), size);
    }
  }

  /** Every slice but the last has exactly the size. */
  lemma {:induction false} ChunksFull<T>(xs: seq<T>, size: nat)
    requires size > 0
    ensures forall k :: 0 <= k < |Chunks(xs, size)| - 1 ==> |Chunks(xs, size)[k]| == size
    decreases |xs|
  {
    if xs != [] {
      var rest := Rest(xs, size);
      ChunksFull(rest, size);
      assert Chunks(xs, size) == [Head(xs, size)] + Chunks(rest, size);
      assert size > |xs| ==> Chunks(rest, size) == [];
    }
  }

  /** A loop at index `i` that has cut `done` finds the next chunk in the slice `xs[i : i + size]`. */
  lemma NextChunk<T>(xs: seq<T>, size: nat, i: nat, done: seq<seq<T>>)
    requires size > 0 && i < |xs| && Chunks(xs, size) == done + Chunks(xs[i..], size)
    ensures var end := Min(i + size, |xs|);
      Chunks(xs, size) == (done + [xs[i..end]]) + Chunks(xs[end..], size)
  {
    var rest, end := xs[i..], Min(i + size, |xs|);
    assert Head(rest, size) == xs[i..end] && Rest(rest, size) == xs[end..];
    assert done + ([xs[i..end]] + Chunks(xs[end..], size)) == (done + [xs[i..end]]) + Chunks(xs[end..], size);
  }
}
