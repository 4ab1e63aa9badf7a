/** The batch partitioner of cook/utils.py: a list of job ids is cut into
    consecutive slices of `batch_size` ids, and every slice becomes a list of
    `job=<id>` query parameters. */
module Batching {
  import opened Common

  /** `(a + n - 1) / n`, the number of slices of size `n` that cover `a` items. */
  function CeilDiv(a: nat, n: nat): nat
    requires n > 0
  {
    (a + n - 1) / n
  }

  /** `i` is reached from 0 in steps of `n`. */
  predicate IsMultiple(i: nat, n: nat)
    requires n > 0
    decreases i
  {
    i == 0 || (i >= n && IsMultiple(i - n, n))
  }

  /** The query parameter naming one job. */
  function JobParam(id: string): string { "job=" + id }

  /** The parameters of one slice, in slice order. */
  function JobParams(ids: seq<string>): seq<string>
  {
    seq(|ids|, i requires 0 <= i < |ids| => JobParam(ids[i]))
  }

  /** Reference definition of the slicing: the first `n` ids form a slice, the
      rest is sliced again. */
  function Partition(ids: seq<string>, n: nat): seq<seq<string>>
    requires n > 0
    decreases |ids|
  {
    if |ids| == 0 then []
    else if |ids| <= n then [ids]
    else [ids[..n]] + Partition(ids[n..], n)
  }

  function ParamsOfEach(chunks: seq<seq<string>>): seq<seq<string>>
  {
    seq(|chunks|, k requires 0 <= k < |chunks| => JobParams(chunks[k]))
  }

  /** What `generate_batch_request(ids, n)` returns for a positive `n`. */
  function BatchRequest(ids: seq<string>, n: nat): seq<seq<string>>
    requires n > 0
  {
    ParamsOfEach(Partition(ids, n))
  }

  /** The message of the `ValueError` Python's `range` raises for a zero step. */
  const RangeStepZero: string := "range() step argument must not be zero"

  /** What `generate_batch_request(ids, n)` does for any integer `n`: Python's
      `range` refuses a zero step and yields nothing for a negative one. */
  function BatchOutcome(ids: seq<string>, n: int): Result<seq<seq<string>>>
  {
    if n == 0 then Failure(ValueError(RangeStepZero))
    else if n < 0 then Success([])
    else Success(BatchRequest(ids, n))
  }

  /** `generate_batch_request`: walks `ids` in steps of `batchSize` and appends
      the parameters of each slice. */
  method GenerateBatchRequest(ids: seq<string>, batchSize: int) returns (r: Result<seq<seq<string>>>)
    ensures r == BatchOutcome(ids, batchSize)
  {
    if batchSize == 0 {
      return Failure(ValueError(RangeStepZero));
    }
    if batchSize < 0 {
      return Success([]);
    }
    var n: nat := batchSize;
    var batch: seq<seq<string>> := [];
    var i: nat := 0;
    while i < |ids|
      invariant IsMultiple(i, n)
      invariant batch == BatchRequest(ids[..Min(i, |ids|)], n)
      decreases |ids| - i
    {
      var chunk := PySlice(ids, i, i + n);
      assert ids[..Min(i + n, |ids|)] == ids[..i] + chunk;
      PartitionAppend(ids[..i], chunk, n);
      assert Partition(chunk, n) == [chunk];
      ParamsOfEachAppend(Partition(ids[..i], n), [chunk]);
      batch := batch + [JobParams(chunk)];
      assert (i + n) - n == i;
      i := i + n;
    }
    assert ids[..Min(i, |ids|)] == ids;
    return Success(batch);
  }

  // ---- Helper facts ----

  lemma ParamsOfEachAppend(a: seq<seq<string>>, b: seq<seq<string>>)
    ensures ParamsOfEach(a + b) == ParamsOfEach(a) + ParamsOfEach(b)
  {
  }

  lemma JobParamsAppend(a: seq<string>, b: seq<string>)
    ensures JobParams(a + b) == JobParams(a) + JobParams(b)
  {
  }

  lemma ConcatCons<T>(head: seq<T>, tail: seq<seq<T>>)
    ensures Concat([head] + tail) == head + Concat(tail)
    decreases |tail|
  {
    if |tail| > 0 {
      var init := tail[..|tail| - 1];
      assert [head] + tail == ([head] + init) + [tail[|tail| - 1]];
      ConcatAppend([head] + init, tail[|tail| - 1]);
      ConcatCons(head, init);
      assert tail == init + [tail[|tail| - 1]];
      ConcatAppend(init, tail[|tail| - 1]);
    }
  }

  /** Slicing a prefix made of whole slices, then the rest, is slicing the whole. */
  lemma {:induction false} PartitionAppend(a: seq<string>, b: seq<string>, n: nat)
    requires n > 0 && IsMultiple(|a|, n)
    ensures Partition(a + b, n) == Partition(a, n) + Partition(b, n)
    decreases |a|
  {
    if |a| > 0 {
      assert |a| >= n;
      assert (a + b)[..n] == a[..n];
      assert (a + b)[n..] == a[n..] + b;
      if |a| == n {
        assert a[n..] == [];
        assert a[..n] == a;
        if |b| > 0 {
          assert |a + b| > n;
        } else {
          assert a + b == a;
        }
      } else {
        PartitionAppend(a[n..], b, n);
      }
    } else {
      assert a + b == b;
    }
  }

  lemma {:induction false} PartitionCount(ids: seq<string>, n: nat)
    requires n > 0
    ensures |Partition(ids, n)| == CeilDiv(|ids|, n)
    decreases |ids|
  {
    if |ids| == 0 {
      DivUnique(n - 1, n, 0, n - 1);
    } else if |ids| <= n {
      DivUnique(|ids| + n - 1, n, 1, |ids| - 1);
    } else {
      PartitionCount(ids[n..], n);
      var a := |ids| - 1;
      var q, r := a / n, a % n;
      assert a == q * n + r;
      assert (q + 1) * n == q * n + n;
      DivUnique(a + n, n, q + 1, r);
    }
  }

  lemma MulAtLeast(x: int, n: int)
    requires x >= 1 && n > 0
    ensures x * n >= n
  {
    if x > 1 {
      MulAtLeast(x - 1, n);
      assert x * n == (x - 1) * n + n;
    }
  }

  /** Integer division has one quotient. */
  lemma DivUnique(a: int, n: int, q: int, r: int)
    requires n > 0 && 0 <= r < n && a == q * n + r
    ensures a / n == q
  {
    var q0, r0 := a / n, a % n;
    assert a == q0 * n + r0;
    assert (q - q0) * n == r0 - r;
    if q > q0 {
      MulAtLeast(q - q0, n);
    }
    if q0 > q {
      MulAtLeast(q0 - q, n);
    }
  }

  lemma {:induction false} PartitionChunk(ids: seq<string>, n: nat, k: nat)
    requires n > 0 && k < |Partition(ids, n)|
    ensures k * n < |ids|
    ensures Partition(ids, n)[k] == PySlice(ids, k * n, (k + 1) * n)
    decreases |ids|
  {
    if |ids| <= n {
      assert k == 0;
    } else if k > 0 {
      var rest := ids[n..];
      PartitionChunk(rest, n, k - 1);
      assert (k - 1) * n + n == k * n;
      assert k * n + n == (k + 1) * n;
    }
  }

  lemma {:induction false} PartitionFlatten(ids: seq<string>, n: nat)
    requires n > 0
    ensures Concat(Partition(ids, n)) == ids
    decreases |ids|
  {
    if |ids| == 0 {
    } else if |ids| <= n {
      assert Concat([ids]) == Concat([ids][..0]) + ids;
    } else {
      PartitionFlatten(ids[n..], n);
      ConcatCons(ids[..n], Partition(ids[n..], n));
      assert ids[..n] + ids[n..] == ids;
    }
  }

  lemma {:induction false} ConcatParams(chunks: seq<seq<string>>)
    ensures Concat(ParamsOfEach(chunks)) == JobParams(Concat(chunks))
    decreases |chunks|
  {
    if |chunks| > 0 {
      var init := chunks[..|chunks| - 1];
      var last := chunks[|chunks| - 1];
      assert chunks == init + [last];
      ParamsOfEachAppend(init, [last]);
      ConcatParams(init);
      ConcatAppend(ParamsOfEach(init), JobParams(last));
      JobParamsAppend(Concat(init), last);
    }
  }

  // ---- What the partitioner promises ----

  /** There are ceil(|ids| / n) slices; in particular none for no ids. */
  lemma BatchCount(ids: seq<string>, n: nat)
    requires n > 0
    ensures |BatchRequest(ids, n)| == CeilDiv(|ids|, n)
    ensures BatchRequest(ids, n) == [] <==> ids == []
  {
    PartitionCount(ids, n);
    if ids != [] {
      assert (|ids| + n - 1) / n >= 1;
    }
  }

  /** Slice `k` holds the parameters of `ids[k*n : (k+1)*n]`, and is not empty. */
  lemma BatchChunkAt(ids: seq<string>, n: nat, k: nat)
    requires n > 0 && k < |BatchRequest(ids, n)|
    ensures k * n < |ids|
    ensures BatchRequest(ids, n)[k] == JobParams(PySlice(ids, k * n, (k + 1) * n))
  {
    PartitionChunk(ids, n, k);
  }

  /** Every slice has between 1 and `n` parameters, and all but the last exactly `n`. */
  lemma BatchSizes(ids: seq<string>, n: nat, k: nat)
    requires n > 0 && k < |BatchRequest(ids, n)|
    ensures 0 < |BatchRequest(ids, n)[k]| <= n
    ensures k < |BatchRequest(ids, n)| - 1 ==> |BatchRequest(ids, n)[k]| == n
  {
    PartitionChunk(ids, n, k);
    if k < |BatchRequest(ids, n)| - 1 {
      PartitionChunk(ids, n, k + 1);
      assert (k + 1) * n < |ids|;
      assert (k + 1) * n - k * n == n;
    } else {
      assert (k + 1) * n - k * n == n;
    }
  }

  /** Flattening the slices gives `job=<id>` for every id, in the original order. */
  lemma BatchFlatten(ids: seq<string>, n: nat)
    requires n > 0
    ensures Concat(BatchRequest(ids, n)) == JobParams(ids)
  {
    ConcatParams(Partition(ids, n));
    PartitionFlatten(ids, n);
  }

  /** 30 ids in slices of 4: eight slices, the last of two. */
  lemma ThirtyInFours(ids: seq<string>)
    requires |ids| == 30
    ensures |BatchRequest(ids, 4)| == 8
    ensures forall k :: 0 <= k < 7 ==> |BatchRequest(ids, 4)[k]| == 4
    ensures |BatchRequest(ids, 4)[7]| == 2
  {
    BatchCount(ids, 4);
    forall k | 0 <= k < 7
      ensures |BatchRequest(ids, 4)[k]| == 4
    {
      BatchSizes(ids, 4, k);
    }
    BatchChunkAt(ids, 4, 7);
  }
}
