/** The request paths that both clients build for querying and deleting jobs
    (cook/jobclient.py `query`/`delete`, cook/__init__.py `__query`/`__delete`):
    one direct path for a single id, one batched path per slice otherwise. */
module SchedulerPaths {
  import opened Common
  import opened Batching

  const SchedulerEndpoint: string := "/rawscheduler"

  /** The path naming one job directly. */
  function SinglePath(id: string): string
  {
    SchedulerEndpoint + "?job=" + id
  }

  /** The path carrying the parameters of one slice. */
  function BatchPath(params: seq<string>): string
  {
    SchedulerEndpoint + "?" + Join("&", params)
  }

  function BatchPaths(batch: seq<seq<string>>): seq<string>
  {
    seq(|batch|, k requires 0 <= k < |batch| => BatchPath(batch[k]))
  }

  /** The paths requested for `ids` with slice size `n`.  The single-id branch
      indexes the list, so an empty list raises `IndexError`. */
  function PathsFor(ids: seq<string>, n: int): Result<seq<string>>
  {
    if |ids| == 0 then Failure(IndexError)
    else if |ids| == 1 then Success([SinglePath(ids[0])])
    else match BatchOutcome(ids, n)
      case Failure(e) => Failure(e)
      case Success(batch) => Success(BatchPaths(batch))
  }

  /** Builds the request paths, appending one path per slice. */
  method RequestPaths(ids: seq<string>, n: int) returns (r: Result<seq<string>>)
    ensures r == PathsFor(ids, n)
  {
    if |ids| == 0 {
      return Failure(IndexError);
    }
    if |ids| == 1 {
      return Success([SinglePath(ids[0])]);
    }
    var batch := GenerateBatchRequest(ids, n);
    if batch.Failure? {
      return Failure(batch.error);
    }
    var req: seq<string> := [];
    var i := 0;
    while i < |batch.value|
      invariant 0 <= i <= |batch.value|
      invariant req == BatchPaths(batch.value[..i])
    {
      req := req + [BatchPath(batch.value[i])];
      i := i + 1;
    }
    assert batch.value[..i] == batch.value;
    return Success(req);
  }

  /** A list of two or more ids with a positive slice size gives ceil(|ids|/n)
      paths, path `k` carrying `job=<id>` for the ids of slice `k`. */
  lemma BatchedPaths(ids: seq<string>, n: int, k: nat)
    requires |ids| > 1 && n > 0
    ensures PathsFor(ids, n).Success?
    ensures |PathsFor(ids, n).value| == CeilDiv(|ids|, n)
    ensures k < CeilDiv(|ids|, n) ==>
      PathsFor(ids, n).value[k] == SchedulerEndpoint + "?" + Join("&", JobParams(PySlice(ids, k * n, (k + 1) * n)))
  {
    var batch := BatchRequest(ids, n);
    assert BatchOutcome(ids, n) == Success(batch);
    assert PathsFor(ids, n) == Success(BatchPaths(batch));
    BatchCount(ids, n);
    if k < CeilDiv(|ids|, n) {
      BatchChunkAt(ids, n, k);
      assert BatchPaths(batch)[k] == BatchPath(batch[k]);
    }
  }

  /** All the parameters of the batched paths, read in order, name every id in
      its original order: nothing is lost, repeated or reordered. */
  lemma BatchedPathsCoverIds(ids: seq<string>, n: int)
    requires |ids| > 1 && n > 0
    ensures PathsFor(ids, n) == Success(BatchPaths(BatchRequest(ids, n)))
    ensures Concat(BatchRequest(ids, n)) == JobParams(ids)
  {
    BatchFlatten(ids, n);
  }

  /** For one id the direct path is the path batching would have built. */
  lemma SinglePathIsBatchPath(id: string, n: int)
    requires n > 0
    ensures PathsFor([id], n) == Success(BatchPaths(BatchRequest([id], n)))
  {
    assert Partition([id], n) == [[id]];
    assert JobParams([id]) == ["job=" + id];
    assert BatchRequest([id], n) == [JobParams([id])];
    assert Join("&", ["job=" + id]) == "job=" + id;
    assert SchedulerEndpoint + "?" + ("job=" + id) == SinglePath(id);
    assert BatchPaths([["job=" + id]]) == [SinglePath(id)];
  }
}
