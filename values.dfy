/** The data the client handles: loosely typed JSON-like values, job
    descriptions as maps from field name to value, job records returned by the
    scheduler, and the caller-owned list of job ids that `wait` consumes. */
module Values {

  /** A decoded JSON / Python 2 value. `Int` is a plain `int`, which holds
      only values in the 64-bit range; `Long` is a `long` (written `5L`, or any
      integer beyond that range). `Float` carries the number as a real. */
  datatype Value =
    | Null
    | Bool(b: bool)
    | Int(i: int)
    | Long(l: int)
    | Float(r: real)
    | Str(s: string)
    | List(items: seq<Value>)
    | Dict(entries: map<string, Value>)

  /** A job description as the caller builds it: a dict from field name to value. */
  type Job = map<string, Value>

  /** A job record as the scheduler returns it: its `uuid`, its `status` and the
      rest of its fields, which the client never inspects. */
  datatype JobInfo = JobInfo(uuid: string, status: string, fields: map<string, Value>)

  /** The job with a `uuid` field added when it has none; an existing one is kept. */
  function WithUuid(job: Job, newId: string): (r: Job)
    ensures "uuid" in r
    ensures r["uuid"] == if "uuid" in job then job["uuid"] else Str(newId)
    ensures r.Keys == job.Keys + {"uuid"}
    ensures forall k :: k in job ==> r[k] == job[k]
  {
    if "uuid" in job then job else job["uuid" := Str(newId)]
  }

  /** The `uuid` field of every job, in order. */
  function UuidValues(jobs: seq<Job>): seq<Value>
    requires forall i :: 0 <= i < |jobs| ==> "uuid" in jobs[i]
  {
    seq(|jobs|, i requires 0 <= i < |jobs| => jobs[i]["uuid"])
  }

  /** The ids of a sequence of job records, in order. */
  function UuidsOf(infos: seq<JobInfo>): (r: seq<string>)
    ensures |r| == |infos|
  {
    if |infos| == 0 then [] else UuidsOf(infos[..|infos| - 1]) + [infos[|infos| - 1].uuid]
  }

  /** Each id sits where its record does. */
  lemma {:induction false} UuidsOfIndex(infos: seq<JobInfo>)
    ensures forall i :: 0 <= i < |infos| ==> UuidsOf(infos)[i] == infos[i].uuid
  {
    if |infos| > 0 {
      UuidsOfIndex(infos[..|infos| - 1]);
    }
  }

  lemma UuidsOfAppend(a: seq<JobInfo>, b: seq<JobInfo>)
    ensures UuidsOf(a + b) == UuidsOf(a) + UuidsOf(b)
  {
    UuidsOfIndex(a);
    UuidsOfIndex(b);
    UuidsOfIndex(a + b);
  }

  /** A Python list of job ids owned by the caller and changed in place. */
  class IdList {
    var items: seq<string>

    constructor (items: seq<string>)
      ensures this.items == items
    {
      this.items := items;
    }
  }
}
