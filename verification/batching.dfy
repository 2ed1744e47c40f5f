/** The request plan of `evalmetrics` with `get_all`: the ids are cut into
    consecutive slices of at most 10, the expressions into consecutive slices
    of at most 4, and one request is issued per (id slice, expression slice)
    pair, ids in the outer loop and expressions in the inner loop. */
module Batching {
  import Seqs

  /** Most ids the server takes in one evalmetrics call. */
  const IdsPerCall := 10
  /** Most expressions the server takes in one evalmetrics call. */
  const ExpressionsPerCall := 4

  /** `s[start : start + size]` for `start` in `range(0, len(s), size)`:
      consecutive slices of `size` elements, the last one possibly shorter. */
  function Chunks<T>(s: seq<T>, size: nat): (r: seq<seq<T>>)
    requires 0 < size
    ensures forall i :: 0 <= i < |r| ==> 0 < |r[i]| <= size
    decreases |s|
  {
    if |s| == 0 then []
    else
      var n := Seqs.Min(size, |s|);
      [s[..n]] + Chunks(s[n..], size)
  }

  /** Concatenating the slices in order gives back the whole sequence. */
  lemma {:induction false} ChunksFlatten<T>(s: seq<T>, size: nat)
    requires 0 < size
    ensures Seqs.Flatten(Chunks(s, size)) == s
    decreases |s|
  {
    if |s| > 0 {
      var n := Seqs.Min(size, |s|);
      ChunksFlatten(s[n..], size);
      assert s[..n] + s[n..] == s;
    }
  }

  /** There are `ceil(|s| / size)` slices: just enough to hold every element. */
  lemma {:induction false} ChunksCount<T>(s: seq<T>, size: nat)
    requires 0 < size
    ensures |s| <= |Chunks(s, size)| * size < |s| + size
    decreases |s|
  {
    if |s| > 0 {
      var n := Seqs.Min(size, |s|);
      ChunksCount(s[n..], size);
      var m := |Chunks(s[n..], size)|;
      var p := m * size;
      assert |Chunks(s, size)| == m + 1;
      MulSucc(m, size);
      if n < size {
        assert m == 0;
        assert p == 0;
      }
    }
  }

  /** The i-th slice starts at `i * size`, as the `range` loops of `evalmetrics` do. */
  lemma ChunkAt<T>(s: seq<T>, size: nat, i: nat)
    requires 0 < size && i < |Chunks(s, size)|
    ensures i * size < |s|
    ensures Chunks(s, size)[i] == s[i * size .. Seqs.Min(i * size + size, |s|)]
  {
    ChunkFrom(s, size, i, i * size);
  }

  /** `ChunkAt` with the start offset named, so the induction stays linear. */
  lemma {:induction false} ChunkFrom<T>(s: seq<T>, size: nat, i: nat, start: nat)
    requires 0 < size && i < |Chunks(s, size)| && start == i * size
    ensures start < |s|
    ensures Chunks(s, size)[i] == s[start .. Seqs.Min(start + size, |s|)]
    decreases i
  {
    var n := Seqs.Min(size, |s|);
    assert Chunks(s, size) == [s[..n]] + Chunks(s[n..], size);
    if i > 0 {
      assert n == size;
      MulSucc(i - 1, size);
      var q := Seqs.Min(start, |s| - size);
      ChunkFrom(s[size..], size, i - 1, start - size);
      SliceOfSuffix(s, size, start - size, q);
      assert size + q == Seqs.Min(start + size, |s|);
    }
  }

  lemma MulSucc(m: int, size: int)
    ensures (m + 1) * size == m * size + size
  {
  }

  lemma SliceOfSuffix<T>(s: seq<T>, n: nat, p: nat, q: nat)
    requires n <= |s| && p <= q <= |s| - n
    ensures s[n..][p..q] == s[n + p .. n + q]
  {
  }

  /** The pair of slices that one evalmetrics request carries. */
  datatype Batch<T> = Batch(ids: seq<T>, expressions: seq<T>)

  /** Every expression slice paired with one id slice, in order. */
  function Row<T>(idChunk: seq<T>, exprChunks: seq<seq<T>>): seq<Batch<T>> {
    seq(|exprChunks|, j requires 0 <= j < |exprChunks| => Batch(idChunk, exprChunks[j]))
  }

  /** The nested loops: id slices outer, expression slices inner. */
  function Pairs<T>(idChunks: seq<seq<T>>, exprChunks: seq<seq<T>>): (r: seq<Batch<T>>)
    ensures |r| == |idChunks| * |exprChunks|
  {
    if |idChunks| == 0 then []
    else
      var rest := Pairs(idChunks[1..], exprChunks);
      assert |idChunks| * |exprChunks| == (|idChunks| - 1) * |exprChunks| + |exprChunks|;
      Row(idChunks[0], exprChunks) + rest
  }

  /** Request `i * |exprChunks| + j` carries id slice `i` and expression slice `j`:
      all requests for one id slice come before any request for the next. */
  lemma {:induction false} PairsAt<T>(idChunks: seq<seq<T>>, exprChunks: seq<seq<T>>, i: nat, j: nat)
    requires i < |idChunks| && j < |exprChunks|
    ensures i * |exprChunks| + j < |Pairs(idChunks, exprChunks)|
      && Pairs(idChunks, exprChunks)[i * |exprChunks| + j] == Batch(idChunks[i], exprChunks[j])
    decreases i
  {
    var m := |exprChunks|;
    var row := Row(idChunks[0], exprChunks);
    var rest := Pairs(idChunks[1..], exprChunks);
    assert Pairs(idChunks, exprChunks) == row + rest;
    if i > 0 {
      PairsAt(idChunks[1..], exprChunks, i - 1, j);
      MulSucc(i - 1, m);
      assert (i - 1) * m + j + m == i * m + j;
    } else {
      assert i * m == 0;
    }
  }

  /** The full plan for one `evalmetrics` call with `get_all`. */
  function Plan<T>(ids: seq<T>, expressions: seq<T>): (r: seq<Batch<T>>)
    ensures |r| == |Chunks(ids, IdsPerCall)| * |Chunks(expressions, ExpressionsPerCall)|
    ensures forall k :: 0 <= k < |r| ==> 0 < |r[k].ids| <= IdsPerCall && 0 < |r[k].expressions| <= ExpressionsPerCall
  {
    var idChunks := Chunks(ids, IdsPerCall);
    var exprChunks := Chunks(expressions, ExpressionsPerCall);
    var r := Pairs(idChunks, exprChunks);
    assert forall k :: 0 <= k < |r| ==> r[k].ids in idChunks && r[k].expressions in exprChunks by {
      PairsMembers(idChunks, exprChunks);
    }
    r
  }

  /** One call issues `ceil(|ids| / 10) * ceil(|expressions| / 4)` requests,
      none at all when either list is empty. */
  lemma PlanCount<T>(ids: seq<T>, expressions: seq<T>)
    ensures |Plan(ids, expressions)| == ((|ids| + IdsPerCall - 1) / IdsPerCall) * ((|expressions| + ExpressionsPerCall - 1) / ExpressionsPerCall)
    ensures |Plan(ids, expressions)| == 0 <==> |ids| == 0 || |expressions| == 0
  {
    SliceCounts(ids, expressions);
  }

  /** With the slice sizes `evalmetrics` uses, the slice counts are ceilings. */
  lemma SliceCounts<T>(ids: seq<T>, expressions: seq<T>)
    ensures |Chunks(ids, IdsPerCall)| == (|ids| + IdsPerCall - 1) / IdsPerCall
    ensures |Chunks(expressions, ExpressionsPerCall)| == (|expressions| + ExpressionsPerCall - 1) / ExpressionsPerCall
  {
    ChunksCount(ids, IdsPerCall);
    ChunksCount(expressions, ExpressionsPerCall);
  }

  lemma {:induction false} PairsMembers<T>(idChunks: seq<seq<T>>, exprChunks: seq<seq<T>>)
    ensures forall k :: 0 <= k < |Pairs(idChunks, exprChunks)| ==>
      Pairs(idChunks, exprChunks)[k].ids in idChunks && Pairs(idChunks, exprChunks)[k].expressions in exprChunks
  {
    if |idChunks| > 0 {
      PairsMembers(idChunks[1..], exprChunks);
    }
  }

  /** Request `i * ceil(|expressions| / 4) + j` carries the slices starting at
      `10 * i` and `4 * j`, as the two `range` loops produce them. */
  lemma {:induction false} PlanAt<T>(ids: seq<T>, expressions: seq<T>, i: nat, j: nat)
    requires IdsPerCall * i < |ids| && ExpressionsPerCall * j < |expressions|
    ensures var m := |Chunks(expressions, ExpressionsPerCall)|;
      && i * m + j < |Plan(ids, expressions)|
      && Plan(ids, expressions)[i * m + j]
         == Batch(ids[IdsPerCall * i .. Seqs.Min(IdsPerCall * i + IdsPerCall, |ids|)],
                  expressions[ExpressionsPerCall * j .. Seqs.Min(ExpressionsPerCall * j + ExpressionsPerCall, |expressions|)])
  {
    var idChunks := Chunks(ids, IdsPerCall);
    var exprChunks := Chunks(expressions, ExpressionsPerCall);
    SliceCounts(ids, expressions);
    ChunkAt(ids, IdsPerCall, i);
    ChunkAt(expressions, ExpressionsPerCall, j);
    PairsAt(idChunks, exprChunks, i, j);
  }

  /** Every requested (id, expression) pair is asked for: id `a` and expression
      `b` travel together in request `(a / 10) * ceil(|expressions| / 4) + b / 4`,
      at positions `a % 10` and `b % 4` of its slices. */
  lemma PlanCovers<T>(ids: seq<T>, expressions: seq<T>, a: nat, b: nat)
    requires a < |ids| && b < |expressions|
    ensures var k := (a / IdsPerCall) * ((|expressions| + ExpressionsPerCall - 1) / ExpressionsPerCall) + b / ExpressionsPerCall;
      && k < |Plan(ids, expressions)|
      && a % IdsPerCall < |Plan(ids, expressions)[k].ids|
      && Plan(ids, expressions)[k].ids[a % IdsPerCall] == ids[a]
      && b % ExpressionsPerCall < |Plan(ids, expressions)[k].expressions|
      && Plan(ids, expressions)[k].expressions[b % ExpressionsPerCall] == expressions[b]
  {
    var i, j := a / IdsPerCall, b / ExpressionsPerCall;
    SliceCounts(ids, expressions);
    PlanAt(ids, expressions, i, j);
    SliceAt(ids, IdsPerCall * i, Seqs.Min(IdsPerCall * i + IdsPerCall, |ids|), a);
    SliceAt(expressions, ExpressionsPerCall * j, Seqs.Min(ExpressionsPerCall * j + ExpressionsPerCall, |expressions|), b);
  }

  /** Element `k` of `s` sits at position `k - lo` of the slice `s[lo..hi]`. */
  lemma SliceAt<T>(s: seq<T>, lo: nat, hi: nat, k: nat)
    requires lo <= k < hi <= |s|
    ensures k - lo < |s[lo..hi]| && s[lo..hi][k - lo] == s[k]
  {
  }
}
