/** The job schema of cook/jobclient.py: a closed table of field rules that
    every submitted job description must satisfy.  `max_retries` is the one
    required field; a key the table does not list is refused, as the schema
    library does by default for dictionaries. */
module JobSchema {
  import opened Common
  import opened Values

  /** `sys.maxint` of a 64-bit Python 2. */
  const MaxInt: int := 0x7FFF_FFFF_FFFF_FFFF

  /** `isinstance(v, int)` in Python 2: booleans are integers, a `long` is
      not, and an integer beyond the 64-bit range is always a `long`. */
  predicate IsInt(v: Value)
  {
    v.Bool? || (v.Int? && -MaxInt - 1 <= v.i <= MaxInt)
  }

  function IntOf(v: Value): int
    requires IsInt(v)
  {
    if v.Int? then v.i else if v.b then 1 else 0
  }

  /** `isinstance(v, (int, float))` */
  predicate IsNumber(v: Value) { IsInt(v) || v.Float? }

  function NumberOf(v: Value): real
    requires IsNumber(v)
  {
    if v.Float? then v.r else IntOf(v) as real
  }

  /** `int(r)` for a float: truncation toward zero. */
  function Truncate(r: real): (n: int)
    ensures r >= 0.0 ==> 0 <= n && n as real <= r < n as real + 1.0
    ensures r < 0.0 ==> n <= 0 && n as real - 1.0 < r <= n as real
  {
    if r >= 0.0 then r.Floor else -((-r).Floor)
  }

  /** `Use(int)`: the integer `int(v)` gives, or None when the schema fails on
      `v`.  Strings are refused (see README, Left out). */
  function UseInt(v: Value): Option<int>
  {
    match v
    case Int(i) => Some(i)
    case Long(l) => Some(l)
    case Bool(b) => Some(if b then 1 else 0)
    case Float(r) => Some(Truncate(r))
    case _ => None
  }

  predicate NonEmptyStr(v: Value) { v.Str? && |v.s| > 0 }

  predicate UseIntWhere(v: Value, lo: int, hi: Option<int>)
  {
    UseInt(v).Some? && lo <= UseInt(v).value && (hi.Some? ==> UseInt(v).value <= hi.value)
  }

  /** The rule the schema attaches to `key`, with `isUuid` standing for
      "`UUID(s)` does not raise". Keys outside the table are refused. */
  predicate FieldAccepts(key: string, v: Value, isUuid: string -> bool)
  {
    if key == "name" then NonEmptyStr(v)
    else if key == "uuid" then NonEmptyStr(v) && isUuid(v.s)
    else if key == "executor" then v.Str? && (v.s == "mesos" || v.s == "cook")
    else if key == "priority" then UseIntWhere(v, 0, Some(100))
    else if key == "max_retries" then UseIntWhere(v, 1, None)
    else if key == "max_runtime" then UseIntWhere(v, 1, None)
    else if key == "expected_runtime" then UseIntWhere(v, 1, None)
    else if key == "cpus" then IsNumber(v) && NumberOf(v) > 0.0
    else if key == "mem" then IsNumber(v) && NumberOf(v) > 0.0
    else if key == "gpus" then UseIntWhere(v, 0, None)
    else if key == "ports" then IsInt(v) && IntOf(v) >= 0
    else if key == "uris" then v.List?
    else if key == "env" then v.Dict?
    else if key == "constraints" then v.List?
    else if key == "disable_mea_culpa_retries" then v.Bool?
    else if key == "container" then v.Dict?
    else if key == "command" then v.Str?
    else false
  }

  /** Every field of `job` is accepted by its rule. */
  predicate FieldsAccepted(job: Job, isUuid: string -> bool)
  {
    forall k :: k in job ==> FieldAccepts(k, job[k], isUuid)
  }

  /** One job passes the schema. */
  predicate ValidJob(job: Job, isUuid: string -> bool)
  {
    "max_retries" in job && FieldsAccepted(job, isUuid)
  }

  /** The schema is a list schema: the list passes only if every job does. */
  predicate ValidJobs(jobs: seq<Job>, isUuid: string -> bool)
  {
    forall i :: 0 <= i < |jobs| ==> ValidJob(jobs[i], isUuid)
  }

  /** What a valid job guarantees about the constrained numeric fields. */
  lemma ValidJobNumbers(job: Job, isUuid: string -> bool)
    requires ValidJob(job, isUuid)
    ensures UseInt(job["max_retries"]).Some? && UseInt(job["max_retries"]).value > 0
    ensures "priority" in job ==> UseInt(job["priority"]).Some? && 0 <= UseInt(job["priority"]).value <= 100
    ensures "cpus" in job ==> IsNumber(job["cpus"]) && NumberOf(job["cpus"]) > 0.0
    ensures "ports" in job ==> IsInt(job["ports"]) && IntOf(job["ports"]) >= 0
  {
    assert FieldAccepts("max_retries", job["max_retries"], isUuid);
    if "priority" in job {
      assert FieldAccepts("priority", job["priority"], isUuid);
    }
    if "cpus" in job {
      assert FieldAccepts("cpus", job["cpus"], isUuid);
    }
    if "ports" in job {
      assert FieldAccepts("ports", job["ports"], isUuid);
    }
  }

  /** A job with only `max_retries` and `priority`. */
  function PriorityJob(p: int): Job
  {
    map["max_retries" := Int(1), "priority" := Int(p)]
  }

  /** `priority` is accepted exactly on 0..100: 0 and 100 pass, -1 and 101 fail. */
  lemma PriorityRange(p: int, isUuid: string -> bool)
    ensures ValidJob(PriorityJob(p), isUuid) <==> 0 <= p <= 100
  {
    var job := PriorityJob(p);
    assert job.Keys == {"max_retries", "priority"};
    assert FieldAccepts("max_retries", job["max_retries"], isUuid);
    if !(0 <= p <= 100) {
      assert !FieldAccepts("priority", job["priority"], isUuid);
    }
  }

  /** A job without `max_retries` never passes, whatever else it holds. */
  lemma MaxRetriesRequired(job: Job, isUuid: string -> bool)
    requires "max_retries" !in job
    ensures !ValidJob(job, isUuid)
  {
  }

  /** A job holding only `max_retries` passes exactly when the count is positive. */
  lemma MaxRetriesPositive(n: int, isUuid: string -> bool)
    ensures ValidJob(map["max_retries" := Int(n)], isUuid) <==> n > 0
  {
    var job := map["max_retries" := Int(n)];
    assert job.Keys == {"max_retries"};
    assert FieldAccepts("max_retries", job["max_retries"], isUuid) <==> n > 0;
  }

  /** Adding one more field to a valid job keeps it valid exactly when the
      table accepts that field's value. */
  lemma AddFieldIff(job: Job, key: string, v: Value, isUuid: string -> bool)
    requires ValidJob(job, isUuid) && key != "max_retries"
    ensures ValidJob(job[key := v], isUuid) <==> FieldAccepts(key, v, isUuid)
  {
    var bigger := job[key := v];
    if FieldAccepts(key, v, isUuid) {
      forall k | k in bigger
        ensures FieldAccepts(k, bigger[k], isUuid)
      {
        if k != key {
          assert bigger[k] == job[k];
        }
      }
    } else {
      assert key in bigger && bigger[key] == v;
    }
  }

  /** The list schema checks each job on its own: a list passes exactly when
      both of its parts do. */
  lemma ValidJobsAppend(a: seq<Job>, b: seq<Job>, isUuid: string -> bool)
    ensures ValidJobs(a + b, isUuid) <==> ValidJobs(a, isUuid) && ValidJobs(b, isUuid)
  {
    if ValidJobs(a, isUuid) && ValidJobs(b, isUuid) {
      forall i | 0 <= i < |a + b|
        ensures ValidJob((a + b)[i], isUuid)
      {
        if i >= |a| {
          assert (a + b)[i] == b[i - |a|];
        }
      }
    }
    if ValidJobs(a + b, isUuid) {
      forall i | 0 <= i < |a|
        ensures ValidJob(a[i], isUuid)
      {
        assert (a + b)[i] == a[i];
      }
      forall i | 0 <= i < |b|
        ensures ValidJob(b[i], isUuid)
      {
        assert (a + b)[|a| + i] == b[i];
      }
    }
  }

  /** `cpus`, `mem` and `ports` demand an `int`: a `long` there, or an
      integer past `sys.maxint`, fails the schema whatever its value. */
  lemma LongWhereIntDemanded(key: string, n: int, isUuid: string -> bool)
    requires key == "cpus" || key == "mem" || key == "ports"
    ensures !ValidJob(map["max_retries" := Int(1), key := Long(n)], isUuid)
    ensures n > MaxInt ==> !ValidJob(map["max_retries" := Int(1), key := Int(n)], isUuid)
  {
    var job := map["max_retries" := Int(1), key := Long(n)];
    assert key in job && !FieldAccepts(key, job[key], isUuid);
    if n > MaxInt {
      var big := map["max_retries" := Int(1), key := Int(n)];
      assert key in big && !FieldAccepts(key, big[key], isUuid);
    }
  }

  /** `Use(int)` converts a `long` as it does an `int`: a job holding only
      `max_retries` as a `long` passes exactly when the count is positive. */
  lemma LongCoerced(n: int, isUuid: string -> bool)
    ensures ValidJob(map["max_retries" := Long(n)], isUuid) <==> n > 0
  {
    var job := map["max_retries" := Long(n)];
    assert job.Keys == {"max_retries"};
    assert FieldAccepts("max_retries", job["max_retries"], isUuid) <==> n > 0;
  }

  /** A key outside the table makes a job invalid. */
  lemma UnknownKeyRefused(job: Job, key: string, isUuid: string -> bool)
    requires key in job
    requires key !in {"name", "uuid", "executor", "priority", "max_retries", "max_runtime",
                      "expected_runtime", "cpus", "mem", "gpus", "ports", "uris", "env",
                      "constraints", "disable_mea_culpa_retries", "container", "command"}
    ensures !ValidJob(job, isUuid)
  {
    assert !FieldAccepts(key, job[key], isUuid);
  }
}
