/** The `JobClient` of cook/jobclient.py: configuration checks, submission
    (uuid fill-in, default merge, schema validation, one POST), query and delete
    over batched paths, retry, list, and the `wait` polling loop. */
module Client {
  import opened Common
  import opened Values
  import opened Http
  import Batching
  import opened SchedulerPaths
  import opened JobSchema
  import opened Polling
  import opened Waiting

  const ListEndpoint: string := "/list"
  const RetryEndpoint: string := "/retry"

  /** The states a job can be in; also the default `state` filter of `list`. */
  const JobStates: seq<string> := ["success", "running", "failed", "completed", "waiting"]

  // ---- Construction ----

  /** The stored credential: a basic-auth pair, or a Kerberos negotiator (a
      foreign object, represented by a tag). */
  datatype Auth = Basic(user: string, password: string) | Kerberos

  /** The constructor's arguments; `None` stands for Python's `None`. */
  datatype ClientArgs = ClientArgs(
    url: string,
    auth: string,
    httpUser: Option<string>,
    httpPassword: Option<string>,
    batchRequestSize: int,
    statusUpdateIntervalSecs: int,
    requestTimeoutSecs: int,
    defaultJobSettings: Job)

  /** The arguments a caller gets by naming only the URL. */
  function DefaultArgs(url: string): ClientArgs
  {
    ClientArgs(url, "http_basic", None, None, 32, 10, 60, map["max_retries" := Int(1)])
  }

  datatype Config = Config(
    url: string,
    auth: Auth,
    batchRequestSize: int,
    statusUpdateIntervalSecs: int,
    requestTimeoutSecs: int,
    defaultJobSettings: Job)

  /** The checks of `__init__`: basic auth needs both a user and a password,
      Kerberos needs nothing, any other kind is refused. */
  function Configure(args: ClientArgs): (r: Result<Config>)
    ensures r.Success? <==>
      (args.auth == "http_basic" && args.httpUser.Some? && args.httpPassword.Some?) || args.auth == "kerberos"
    ensures args.auth == "http_basic" && (args.httpUser.None? || args.httpPassword.None?) ==>
      r == Failure(AssertionError)
    ensures args.auth != "http_basic" && args.auth != "kerberos" ==> r.Failure? && r.error.ValueError?
    ensures r.Success? ==>
      && r.value.auth == (if args.auth == "kerberos" then Kerberos
                          else Basic(args.httpUser.value, args.httpPassword.value))
      && r.value.url == args.url
      && r.value.batchRequestSize == args.batchRequestSize
      && r.value.statusUpdateIntervalSecs == args.statusUpdateIntervalSecs
      && r.value.requestTimeoutSecs == args.requestTimeoutSecs
      && r.value.defaultJobSettings == args.defaultJobSettings
  {
    if args.auth == "http_basic" then
      if args.httpUser.None? || args.httpPassword.None? then Failure(AssertionError)
      else Success(WithAuth(args, Basic(args.httpUser.value, args.httpPassword.value)))
    else if args.auth == "kerberos" then Success(WithAuth(args, Kerberos))
    else Failure(ValueError("Authentication type " + args.auth + " not supported"))
  }

  /** The stored configuration once the credential is settled. */
  function WithAuth(args: ClientArgs, auth: Auth): Config
  {
    Config(args.url, auth, args.batchRequestSize, args.statusUpdateIntervalSecs,
           args.requestTimeoutSecs, args.defaultJobSettings)
  }

  /** Naming only the URL fails: the default auth kind is basic auth, whose
      user and password default to None. */
  lemma UrlAloneIsRefused(url: string)
    ensures Configure(DefaultArgs(url)) == Failure(AssertionError)
  {
  }

  // ---- Submission ----

  /** One job as `submit` prepares it: a missing `uuid` is filled in with
      `newId`, then the defaults are merged underneath the job's own fields. */
  function PrepareJob(job: Job, newId: string, defaults: Job): (r: Job)
    ensures "uuid" in r
    ensures "uuid" in job ==> r["uuid"] == job["uuid"]
    ensures "uuid" !in job ==> r["uuid"] == Str(newId)
    ensures r.Keys == job.Keys + defaults.Keys + {"uuid"}
    ensures forall k :: k in job ==> r[k] == job[k]
    ensures forall k :: k in defaults && k !in job && k != "uuid" ==> r[k] == defaults[k]
  {
    defaults + WithUuid(job, newId)
  }

  /** Every job prepared; job `i` gets `freshId(i)` if it needs an id. */
  function PrepareAll(jobs: seq<Job>, freshId: nat -> string, defaults: Job): (r: seq<Job>)
    ensures |r| == |jobs|
    ensures forall i :: 0 <= i < |r| ==> r[i] == PrepareJob(jobs[i], freshId(i), defaults)
    ensures forall i :: 0 <= i < |r| ==> "uuid" in r[i]
  {
    seq(|jobs|, i requires 0 <= i < |jobs| => PrepareJob(jobs[i], freshId(i), defaults))
  }

  /** What a successful submission returns: one id per job, in input order,
      the job's own id where it had one and the generated one otherwise, and
      each a string that parses as a UUID. */
  lemma SubmittedUuids(jobs: seq<Job>, freshId: nat -> string, defaults: Job, isUuid: string -> bool)
    requires ValidJobs(PrepareAll(jobs, freshId, defaults), isUuid)
    ensures |UuidValues(PrepareAll(jobs, freshId, defaults))| == |jobs|
    ensures forall i :: 0 <= i < |jobs| ==>
      && UuidValues(PrepareAll(jobs, freshId, defaults))[i] == (if "uuid" in jobs[i] then jobs[i]["uuid"] else Str(freshId(i)))
      && UuidValues(PrepareAll(jobs, freshId, defaults))[i].Str?
      && isUuid(UuidValues(PrepareAll(jobs, freshId, defaults))[i].s)
  {
    var prepared := PrepareAll(jobs, freshId, defaults);
    forall i | 0 <= i < |jobs|
      ensures UuidValues(prepared)[i].Str? && isUuid(UuidValues(prepared)[i].s)
    {
      assert ValidJob(prepared[i], isUuid);
      assert FieldAccepts("uuid", prepared[i]["uuid"], isUuid);
    }
  }

  /** Merging before validating matters: a job whose own fields pass and that
      lacks only `max_retries` passes once a valid default supplies it, and a
      generated id that parses as a UUID passes the `uuid` rule. */
  lemma DefaultsCompleteJob(job: Job, newId: string, defaults: Job, isUuid: string -> bool)
    requires FieldsAccepted(job, isUuid) && FieldsAccepted(defaults, isUuid)
    requires "max_retries" in job || "max_retries" in defaults
    requires "uuid" !in job ==> |newId| > 0 && isUuid(newId)
    ensures ValidJob(PrepareJob(job, newId, defaults), isUuid)
  {
    var r := PrepareJob(job, newId, defaults);
    forall k | k in r
      ensures FieldAccepts(k, r[k], isUuid)
    {
      if k in job {
      } else if k == "uuid" {
        assert r[k] == Str(newId);
      } else {
        assert r[k] == defaults[k];
      }
    }
  }

  /** A default never hides a bad field: if the prepared job passes, every field
      the caller wrote passes on its own. */
  lemma PreparedValidMeansJobFieldsValid(job: Job, newId: string, defaults: Job, isUuid: string -> bool)
    requires ValidJob(PrepareJob(job, newId, defaults), isUuid)
    ensures FieldsAccepted(job, isUuid)
  {
    var r := PrepareJob(job, newId, defaults);
    forall k | k in job
      ensures FieldAccepts(k, job[k], isUuid)
    {
      assert r[k] == job[k];
      assert FieldAccepts(k, r[k], isUuid);
    }
  }

  // ---- Paths ----

  /** `"{}?job={}&retries={}".format(retry_endpoint, job, retries)` */
  function RetryPath(id: string, retries: int): string
  {
    RetryEndpoint + "?job=" + id + "&retries=" + IntToString(retries)
  }

  /** The retry count can be read back from the end of the path. */
  lemma RetryPathCarriesCount(id: string, retries: int)
    ensures var p := RetryPath(id, retries); var t := IntToString(retries);
      && p == RetryEndpoint + "?job=" + id + "&retries=" + t
      && |t| < |p|
      && ParseInt(p[|p| - |t|..]) == Some(retries)
  {
    var p := RetryPath(id, retries);
    var t := IntToString(retries);
    assert p[|p| - |t|..] == t;
    IntToStringRoundTrip(retries);
  }

  /** The `state` argument of `list`: a single string or a list of states. */
  datatype StateFilter = StateText(text: string) | StateList(states: seq<string>)

  predicate StateTruthy(state: StateFilter)
  {
    match state
    case StateText(t) => |t| > 0
    case StateList(ss) => |ss| > 0
  }

  /** A list of states is joined with an encoded `+`. */
  function StateValue(state: StateFilter): string
  {
    match state
    case StateText(t) => t
    case StateList(ss) => Join("%2B", ss)
  }

  /** The `state` filter as sent, or None when it is falsy and left out. */
  function StateOpt(state: StateFilter): Option<string>
  {
    if StateTruthy(state) then Some(StateValue(state)) else None
  }

  /** The `limit` as sent, or None when it is None or 0 and left out. */
  function LimitOpt(limit: Option<int>): Option<string>
  {
    if limit.Some? && limit.value != 0 then Some(IntToString(limit.value)) else None
  }

  /** A parameter that is sent only when it has a value. */
  function OptParam(name: string, v: Option<string>): seq<string>
  {
    if v.Some? then [name + v.value] else []
  }

  /** The query parameters of `list`, in order.  `startMs`/`stopMs` are the
      already rendered millisecond values. */
  function ListParams(user: string, state: StateFilter, startMs: Option<string>,
                      stopMs: Option<string>, limit: Option<int>): seq<string>
  {
    ["user=" + user]
    + (OptParam("state=", StateOpt(state))
    + (OptParam("start_ms=", startMs)
    + (OptParam("stop_ms=", stopMs)
    + OptParam("limit=", LimitOpt(limit)))))
  }

  function ListPath(user: string, state: StateFilter, startMs: Option<string>,
                    stopMs: Option<string>, limit: Option<int>): string
  {
    ListEndpoint + "?" + Join("&", ListParams(user, state, startMs, stopMs, limit))
  }

  /** The value of the first parameter that starts with `key`. */
  function Lookup(params: seq<string>, key: string): Option<string>
  {
    if |params| == 0 then None
    else if key <= params[0] then Some(params[0][|key|..])
    else Lookup(params[1..], key)
  }

  /** The parameter names `list` may send. */
  const ListKeys: seq<string> := ["user=", "state=", "start_ms=", "stop_ms=", "limit="]

  lemma {:induction false} LookupAppend(a: seq<string>, b: seq<string>, key: string)
    ensures Lookup(a + b, key) == if Lookup(a, key).Some? then Lookup(a, key) else Lookup(b, key)
    decreases |a|
  {
    if |a| > 0 {
      assert (a + b)[0] == a[0];
      assert (a + b)[1..] == a[1..] + b;
      LookupAppend(a[1..], b, key);
    } else {
      assert a + b == b;
    }
  }

  /** No parameter name is a prefix of another parameter. */
  lemma LookupEntry(key: string, other: string, value: string)
    requires key in ListKeys && other in ListKeys
    ensures Lookup([other + value], key) == if key == other then Some(value) else None
  {
    var p := other + value;
    var ps: seq<string> := [p];
    assert |ps[1..]| == 0;
    if key == other {
      assert key <= p;
      assert p[|key|..] == value;
    } else {
      assert key[0] != other[0] || key[2] != other[2] || key[3] != other[3];
      assert key[0] != p[0] || key[2] != p[2] || key[3] != p[3];
    }
  }

  lemma LookupOpt(key: string, name: string, v: Option<string>)
    requires key in ListKeys && name in ListKeys
    ensures Lookup(OptParam(name, v), key) == if key == name then v else None
  {
    if v.Some? {
      LookupEntry(key, name, v.value);
    }
  }

  /** Each filter sits in its own part of the parameter list and nowhere else. */
  lemma ListLookupKey(user: string, state: StateFilter, startMs: Option<string>,
                      stopMs: Option<string>, limit: Option<int>, key: string)
    requires key in ListKeys
    ensures Lookup(ListParams(user, state, startMs, stopMs, limit), key) ==
      if key == "user=" then Some(user)
      else if key == "state=" then StateOpt(state)
      else if key == "start_ms=" then startMs
      else if key == "stop_ms=" then stopMs
      else LimitOpt(limit)
  {
    var s := OptParam("state=", StateOpt(state));
    var a := OptParam("start_ms=", startMs);
    var o := OptParam("stop_ms=", stopMs);
    var l := OptParam("limit=", LimitOpt(limit));
    LookupAppend(["user=" + user], s + (a + (o + l)), key);
    LookupAppend(s, a + (o + l), key);
    LookupAppend(a, o + l, key);
    LookupAppend(o, l, key);
    LookupEntry(key, "user=", user);
    LookupOpt(key, "state=", StateOpt(state));
    LookupOpt(key, "start_ms=", startMs);
    LookupOpt(key, "stop_ms=", stopMs);
    LookupOpt(key, "limit=", LimitOpt(limit));
  }

  /** Every filter `list` is given can be read back from its query string: the
      user always, each other filter exactly when it is truthy. */
  lemma ListParamsRecoverable(user: string, state: StateFilter, startMs: Option<string>,
                              stopMs: Option<string>, limit: Option<int>)
    ensures var ps := ListParams(user, state, startMs, stopMs, limit);
      && ListPath(user, state, startMs, stopMs, limit) == ListEndpoint + "?" + Join("&", ps)
      && ps[0] == "user=" + user
      && Lookup(ps, "user=") == Some(user)
      && Lookup(ps, "state=") == (if StateTruthy(state) then Some(StateValue(state)) else None)
      && (state == StateList(JobStates) ==> Lookup(ps, "state=") == Some(Join("%2B", JobStates)))
      && Lookup(ps, "start_ms=") == startMs
      && Lookup(ps, "stop_ms=") == stopMs
      && Lookup(ps, "limit=") == (if limit.Some? && limit.value != 0 then Some(IntToString(limit.value)) else None)
  {
    ListLookupKey(user, state, startMs, stopMs, limit, "user=");
    ListLookupKey(user, state, startMs, stopMs, limit, "state=");
    ListLookupKey(user, state, startMs, stopMs, limit, "start_ms=");
    ListLookupKey(user, state, startMs, stopMs, limit, "stop_ms=");
    ListLookupKey(user, state, startMs, stopMs, limit, "limit=");
  }

  // ---- Requests ----

  function RetryRequests(url: string, ids: seq<string>, retries: int): seq<Request>
  {
    seq(|ids|, i requires 0 <= i < |ids| => Request(POST, url + RetryPath(ids[i], retries), EmptyObject))
  }

  function Bodies(rs: seq<Response>): seq<seq<JobInfo>>
  {
    seq(|rs|, i requires 0 <= i < |rs| => rs[i].json)
  }

  /** The loop of `query` that extends one list with the records of each
      response in turn. */
  method JoinBodies(rs: seq<Response>) returns (ret: seq<JobInfo>)
    ensures ret == Concat(Bodies(rs))
  {
    ret := [];
    var i := 0;
    while i < |rs|
      invariant 0 <= i <= |rs|
      invariant ret == Concat(Bodies(rs[..i]))
    {
      assert Bodies(rs[..i + 1]) == Bodies(rs[..i]) + [rs[i].json];
      ConcatAppend(Bodies(rs[..i]), rs[i].json);
      ret := ret + rs[i].json;
      i := i + 1;
    }
    assert rs[..i] == rs;
  }

  // ---- Query and one poll, as functions of the scheduler's answers ----

  /** The requests `query(jobs)` issues when no answer raises: none for an
      empty list or a batch size `range` refuses. */
  function QueryRequests(config: Config, jobs: seq<string>): seq<Request>
  {
    if |jobs| == 0 then []
    else match PathsFor(jobs, config.batchRequestSize)
      case Failure(_) => []
      case Success(paths) => Requests(GET, config.url, paths)
  }

  /** The requests `query(jobs)` does send: up to and including the first
      whose answer raises. */
  function QuerySent(config: Config, respond: (nat, Request) -> Response, start: nat, jobs: seq<string>): seq<Request>
  {
    var reqs := QueryRequests(config, jobs);
    reqs[..CheckedCount(Replies(respond, start, reqs))]
  }

  /** What `query(jobs)` returns or raises when the answers start at `start`. */
  function QueryResult(config: Config, respond: (nat, Request) -> Response, start: nat, jobs: seq<string>): Result<seq<JobInfo>>
  {
    if |jobs| == 0 then Failure(AssertionError)
    else match PathsFor(jobs, config.batchRequestSize)
      case Failure(e) => Failure(e)
      case Success(_) =>
        var rs := Replies(respond, start, QueryRequests(config, jobs));
        if CheckedOutcome(rs).Failure? then Failure(CheckedOutcome(rs).error) else Success(Concat(Bodies(rs)))
  }

  /** The exceptions `query` raises: `AssertionError` exactly for an empty
      list, otherwise a `ValueError` of `range` or an HTTP error. */
  lemma QueryErrors(config: Config, respond: (nat, Request) -> Response, start: nat, jobs: seq<string>)
    ensures QueryResult(config, respond, start, jobs).Failure? ==>
      && (QueryResult(config, respond, start, jobs).error == AssertionError <==> |jobs| == 0)
      && (QueryResult(config, respond, start, jobs).error.AssertionError?
          || QueryResult(config, respond, start, jobs).error.ValueError?
          || QueryResult(config, respond, start, jobs).error.JobClientError?)
  {
    if |jobs| > 1 && config.batchRequestSize == 0 {
      assert PathsFor(jobs, config.batchRequestSize) == Failure(ValueError(Batching.RangeStepZero));
    }
  }

  /** One pass of the newer `wait` loop: query the ids, then walk the records
      returned.  An HTTP error of the query is swallowed and changes nothing;
      another exception of the query, or `list.remove` raising, ends `wait`. */
  function PollOf(config: Config, respond: (nat, Request) -> Response, start: nat, items: seq<string>): PollStep
  {
    var q := QueryResult(config, respond, start, items);
    var sent := QuerySent(config, respond, start, items);
    if q.Failure? then PollStep([], items, if q.error.JobClientError? then None else Some(q.error), None, sent)
    else
      var t := Take(items, q.value);
      PollStep(t.taken, t.remaining, if t.missing then Some(ValueError(RemoveMissing)) else None, None, sent)
  }

  /** The poll `wait` repeats, for the scheduler `respond`. */
  function PollWith(config: Config, respond: (nat, Request) -> Response): (nat, seq<string>) -> PollStep
  {
    (start: nat, items: seq<string>) => PollOf(config, respond, start, items)
  }

  /** What one poll does to the list: the records taken are completed, their
      ids leave the list in order and nothing else does; only
      `AssertionError` (an empty list) or a `ValueError` ends `wait`. */
  lemma PollFacts(config: Config, respond: (nat, Request) -> Response, start: nat, items: seq<string>)
    ensures var p := PollOf(config, respond, start, items);
      && AllCompleted(p.taken)
      && p.remaining == RemoveUuids(items, p.taken)
      && multiset(p.remaining) + multiset(UuidsOf(p.taken)) == multiset(items)
      && p.unremoved.None?
      && (p.crash.Some? ==> p.crash.value.AssertionError? || p.crash.value.ValueError?)
      && (p.crash == Some(AssertionError) <==> items == [])
  {
    QueryErrors(config, respond, start, items);
    var q := QueryResult(config, respond, start, items);
    if q.Success? {
      TakeFacts(items, q.value);
    }
  }

  /** What one poll takes from the answers: nothing after an HTTP error, which
      is swallowed; otherwise exactly the completed records, in order, up to
      the first whose id `list.remove` cannot find. */
  lemma PollAnswers(config: Config, respond: (nat, Request) -> Response, start: nat, items: seq<string>)
    ensures var q := QueryResult(config, respond, start, items); var p := PollOf(config, respond, start, items);
      && (q.Failure? && q.error.JobClientError? ==> p.crash.None? && p.taken == [] && p.remaining == items)
      && (q.Success? && p.crash.None? ==> p.taken == CompletedOf(q.value))
      && (q.Success? && p.crash.Some? ==>
            p.crash == Some(ValueError(RemoveMissing))
            && exists k :: 0 <= k < |q.value| && IsCompleted(q.value[k]) && q.value[k].uuid !in p.remaining
                           && p.taken == CompletedOf(q.value[..k]))
  {
    var q := QueryResult(config, respond, start, items);
    if q.Success? {
      TakeFacts(items, q.value);
    }
  }

  /** Every poll of the newer client keeps the books the whole `wait` relies
      on. */
  lemma PollsKeep(config: Config, respond: (nat, Request) -> Response)
    ensures PollsComplete(PollWith(config, respond))
    ensures PollsCount(PollWith(config, respond))
    ensures PollsInOrder(PollWith(config, respond))
    ensures PollsStop(PollWith(config, respond))
    ensures PollsRemoveAll(PollWith(config, respond))
    ensures PollsCrashWith(PollWith(config, respond), AssertionError)
  {
    var poll := PollWith(config, respond);
    forall start: nat, items: seq<string>
      ensures Polled(start, items) ==>
        && AllCompleted(Step(poll, start, items).taken)
        && multiset(Step(poll, start, items).remaining) + multiset(UuidsOf(Step(poll, start, items).taken))
           == multiset(items) + Extra(Step(poll, start, items).unremoved)
        && (Step(poll, start, items).unremoved.Some? ==> Step(poll, start, items).crash.Some?)
        && (Step(poll, start, items).unremoved.None? ==>
              Step(poll, start, items).remaining == RemoveUuids(items, Step(poll, start, items).taken))
        && Step(poll, start, items).unremoved.None?
        && (Step(poll, start, items).crash.Some? ==>
              Step(poll, start, items).crash.value == AssertionError || Step(poll, start, items).crash.value.ValueError?)
        && (Step(poll, start, items).crash == Some(AssertionError) <==> items == [])
    {
      assert Step(poll, start, items) == PollOf(config, respond, start, items);
      PollFacts(config, respond, start, items);
    }
  }

  /** What a whole `wait` of the newer client does: every yielded job is
      completed, the ids leave the list in the order the jobs were yielded and
      nothing else does, and only `AssertionError` (exactly when the starting
      list is empty) or a `ValueError` ends it early; an HTTP error never
      does. */
  lemma WaitFacts(config: Config, respond: (nat, Request) -> Response, start: nat,
                  items: seq<string>, fuel: nat)
    ensures var w := WaitOf(PollWith(config, respond), start, items, fuel);
      && AllCompleted(w.yielded)
      && w.unremoved.None?
      && w.remaining == RemoveUuids(items, w.yielded)
      && multiset(w.remaining) + multiset(UuidsOf(w.yielded)) == multiset(items)
      && (w.outcome.Crashed? ==> w.outcome.error.AssertionError? || w.outcome.error.ValueError?)
      && (w.outcome == Crashed(AssertionError) <==> items == [] && fuel > 0)
  {
    var poll := PollWith(config, respond);
    PollsKeep(config, respond);
    WaitComplete(poll, start, items, fuel);
    WaitCounts(poll, start, items, fuel);
    WaitInOrder(poll, start, items, fuel);
    WaitRemovesAll(poll, start, items, fuel);
    WaitCrashes(poll, AssertionError, start, items, fuel);
  }

  class JobClient {
    const config: Config
    const server: Server

    constructor (config: Config, server: Server)
      ensures this.config == config && this.server == server
    {
      this.config := config;
      this.server := server;
    }

    /** `_api_get`, `_api_delete`, `_api_post`: issues the requests in order and
        stops at the first response whose `raise_for_status` raises. */
    method ApiCall(reqs: seq<Request>) returns (r: Result<seq<Response>>)
      modifies server
      ensures server.log == old(server.log) + reqs[..CheckedCount(Replies(server.respond, |old(server.log)|, reqs))]
      ensures r == CheckedOutcome(Replies(server.respond, |old(server.log)|, reqs))
    {
      ghost var start := |server.log|;
      ghost var rs := Replies(server.respond, start, reqs);
      var got: seq<Response> := [];
      var i := 0;
      while i < |reqs|
        invariant 0 <= i <= |reqs|
        invariant FirstRaising(rs) >= i
        invariant got == rs[..i]
        invariant server.log == old(server.log) + reqs[..i]
      {
        var resp := server.Send(reqs[i]);
        assert resp == rs[i];
        if RaisesForStatus(resp.code) {
          assert FirstRaising(rs) == i;
          assert reqs[..i + 1] == reqs[..i] + [reqs[i]];
          return Failure(JobClientError(resp.code));
        }
        got := got + [resp];
        assert reqs[..i + 1] == reqs[..i] + [reqs[i]];
        i := i + 1;
      }
      assert reqs[..i] == reqs && got == rs;
      return Success(got);
    }

    /** `delete`: one DELETE per path, stopping at the first failure. */
    method Delete(jobs: seq<string>) returns (r: Result<()>)
      modifies server
      ensures |jobs| == 0 ==> r == Failure(AssertionError) && server.log == old(server.log)
      ensures |jobs| > 0 ==>
        match PathsFor(jobs, config.batchRequestSize)
        case Failure(e) => r == Failure(e) && server.log == old(server.log)
        case Success(paths) =>
          var reqs := Requests(DELETE, config.url, paths);
          var rs := Replies(server.respond, |old(server.log)|, reqs);
          && server.log == old(server.log) + reqs[..CheckedCount(rs)]
          && r == (if CheckedOutcome(rs).Failure? then Failure(CheckedOutcome(rs).error) else Success(()))
    {
      if |jobs| == 0 {
        return Failure(AssertionError);
      }
      var paths := RequestPaths(jobs, config.batchRequestSize);
      if paths.Failure? {
        return Failure(paths.error);
      }
      var resps := ApiCall(Requests(DELETE, config.url, paths.value));
      if resps.Failure? {
        return Failure(resps.error);
      }
      return Success(());
    }

    /** `query`: one GET per path; the job records of all responses are
        concatenated in request order. */
    method Query(jobs: seq<string>) returns (r: Result<seq<JobInfo>>)
      modifies server
      ensures server.log == old(server.log) + QuerySent(config, server.respond, |old(server.log)|, jobs)
      ensures r == QueryResult(config, server.respond, |old(server.log)|, jobs)
      ensures r.Failure? ==>
        && (r.error == AssertionError <==> |jobs| == 0)
        && (r.error.AssertionError? || r.error.ValueError? || r.error.JobClientError?)
    {
      if |jobs| == 0 {
        return Failure(AssertionError);
      }
      var paths := RequestPaths(jobs, config.batchRequestSize);
      if paths.Failure? {
        return Failure(paths.error);
      }
      var resps := ApiCall(Requests(GET, config.url, paths.value));
      if resps.Failure? {
        return Failure(resps.error);
      }
      var ret := JoinBodies(resps.value);
      QueryErrors(config, server.respond, |old(server.log)|, jobs);
      return Success(ret);
    }

    /** `submit`: prepares every job in place (the caller's dicts change even
        when validation then fails), validates the whole list, and only then
        issues one POST.  Job `i` gets `freshId(i)` if it has no `uuid`;
        `isUuid` says whether `UUID(s)` accepts `s`. */
    method Submit(jobs: array<Job>, isUuid: string -> bool, freshId: nat -> string) returns (r: Result<seq<Value>>)
      modifies jobs, server
      ensures jobs.Length == 0 ==> r == Failure(AssertionError) && server.log == old(server.log)
      ensures jobs[..] == if jobs.Length == 0 then old(jobs[..])
                          else PrepareAll(old(jobs[..]), freshId, config.defaultJobSettings)
      ensures jobs.Length > 0 && !ValidJobs(jobs[..], isUuid) ==>
        r == Failure(SchemaError) && server.log == old(server.log)
      ensures jobs.Length > 0 && ValidJobs(jobs[..], isUuid) ==>
        var req := Request(POST, config.url + SchedulerEndpoint, JobsBody(jobs[..]));
        var resp := server.respond(|old(server.log)|, req);
        && server.log == old(server.log) + [req]
        && r == if RaisesForStatus(resp.code) then Failure(JobClientError(resp.code)) else Success(UuidValues(jobs[..]))
    {
      if jobs.Length == 0 {
        return Failure(AssertionError);
      }
      ghost var prepared := PrepareAll(jobs[..], freshId, config.defaultJobSettings);
      var i := 0;
      while i < jobs.Length
        invariant 0 <= i <= jobs.Length
        invariant forall k :: 0 <= k < i ==> jobs[k] == prepared[k]
        invariant forall k :: i <= k < jobs.Length ==> jobs[k] == old(jobs[k])
        invariant server.log == old(server.log)
      {
        jobs[i] := PrepareJob(jobs[i], freshId(i), config.defaultJobSettings);
        i := i + 1;
      }
      assert jobs[..] == prepared;
      if !ValidJobs(jobs[..], isUuid) {
        return Failure(SchemaError);
      }
      var req := Request(POST, config.url + SchedulerEndpoint, JobsBody(jobs[..]));
      SingleCall(server.respond, |server.log|, req);
      var resp := ApiCall([req]);
      if resp.Failure? {
        return Failure(resp.error);
      }
      return Success(UuidValues(jobs[..]));
    }

    /** `retry`: one POST per id, in order, to `/retry?job=<id>&retries=<n>`,
        stopping at the first failure. */
    method Retry(jobs: seq<string>, retries: int) returns (r: Result<()>)
      modifies server
      ensures |jobs| == 0 || retries < 0 ==> r == Failure(AssertionError) && server.log == old(server.log)
      ensures |jobs| > 0 && retries >= 0 ==>
        var reqs := RetryRequests(config.url, jobs, retries);
        var rs := Replies(server.respond, |old(server.log)|, reqs);
        && server.log == old(server.log) + reqs[..CheckedCount(rs)]
        && r == (if CheckedOutcome(rs).Failure? then Failure(CheckedOutcome(rs).error) else Success(()))
    {
      if |jobs| == 0 || retries < 0 {
        return Failure(AssertionError);
      }
      var resps := ApiCall(RetryRequests(config.url, jobs, retries));
      if resps.Failure? {
        return Failure(resps.error);
      }
      return Success(());
    }

    /** `list`: one GET of the `/list` query; its job records are returned as they are. */
    method List(user: string, state: StateFilter, startMs: Option<string>,
                stopMs: Option<string>, limit: Option<int>) returns (r: Result<seq<JobInfo>>)
      modifies server
      ensures
        var req := Request(GET, config.url + ListPath(user, state, startMs, stopMs, limit), NoBody);
        var resp := server.respond(|old(server.log)|, req);
        && server.log == old(server.log) + [req]
        && r == if RaisesForStatus(resp.code) then Failure(JobClientError(resp.code)) else Success(resp.json)
    {
      var req := Request(GET, config.url + ListPath(user, state, startMs, stopMs, limit), NoBody);
      SingleCall(server.respond, |server.log|, req);
      var resps := ApiCall([req]);
      if resps.Failure? {
        return Failure(resps.error);
      }
      return Success(resps.value[0].json);
    }

    /** One pass of the `wait` loop: query the remaining ids, then remove and
        yield the completed ones.  A `JobClientError` of the query is logged
        and swallowed; any other exception ends `wait` and is returned as
        `crash`. */
    method Poll(jobs: IdList) returns (taken: seq<JobInfo>, crash: Option<Error>)
      modifies jobs, server
      ensures var p := PollOf(config, server.respond, |old(server.log)|, old(jobs.items));
        && taken == p.taken && jobs.items == p.remaining && crash == p.crash
        && server.log == old(server.log) + p.sent
      ensures AllCompleted(taken)
      ensures jobs.items == RemoveUuids(old(jobs.items), taken)
      ensures multiset(jobs.items) + multiset(UuidsOf(taken)) == multiset(old(jobs.items))
      ensures crash.Some? ==> crash.value.AssertionError? || crash.value.ValueError?
      ensures crash == Some(AssertionError) <==> old(jobs.items) == []
    {
      ghost var start, items := |server.log|, jobs.items;
      var found := Query(jobs.items);
      PollFacts(config, server.respond, start, items);
      if found.Failure? {
        if found.error.JobClientError? {
          return [], None;
        }
        return [], Some(found.error);
      }
      var missing;
      taken, missing := TakeCompleted(jobs, found.value);
      if missing {
        return taken, Some(ValueError(RemoveMissing));
      }
      return taken, None;
    }

    /** `Poll`, described through a poll that agrees with this client's. */
    method PollBy(jobs: IdList, ghost poll: (nat, seq<string>) -> PollStep) returns (taken: seq<JobInfo>, crash: Option<Error>)
      requires SamePolls(poll, PollWith(config, server.respond))
      modifies jobs, server
      ensures var p := Step(poll, |old(server.log)|, old(jobs.items));
        && taken == p.taken && jobs.items == p.remaining && crash == p.crash && p.unremoved.None?
        && server.log == old(server.log) + p.sent
    {
      SameAt(poll, PollWith(config, server.respond), |server.log|, jobs.items);
      assert Step(PollWith(config, server.respond), |server.log|, jobs.items)
        == PollOf(config, server.respond, |server.log|, jobs.items);
      taken, crash := Poll(jobs);
    }

    /** `wait`: polls until every id has been removed from the caller's list,
        yielding each completed job after removing its id.  An HTTP error of a
        poll is logged and polling goes on.  `maxPolls` bounds the number of
        polls; `polls` is the number made. */
    method Wait(jobs: IdList, maxPolls: nat) returns (yielded: seq<JobInfo>, outcome: WaitOutcome, ghost polls: nat)
      modifies jobs, server
      ensures var w := WaitOf(PollWith(config, server.respond), |old(server.log)|, old(jobs.items), maxPolls);
        && yielded == w.yielded && jobs.items == w.remaining && outcome == w.outcome && polls == w.polls
        && server.log == old(server.log) + w.sent
      ensures AllCompleted(yielded)
      ensures jobs.items == RemoveUuids(old(jobs.items), yielded)
      ensures multiset(jobs.items) + multiset(UuidsOf(yielded)) == multiset(old(jobs.items))
      ensures outcome == Done ==> jobs.items == []
      ensures outcome == PollsExhausted ==> polls == maxPolls && (maxPolls == 0 || jobs.items != [])
      ensures polls <= maxPolls && (maxPolls > 0 ==> polls >= 1)
      ensures outcome.Crashed? ==> outcome.error.AssertionError? || outcome.error.ValueError?
      ensures outcome == Crashed(AssertionError) <==> old(jobs.items) == [] && maxPolls > 0
    {
      // The loop reasons about a poll known only by what it does at each list.
      assert SamePolls(PollWith(config, server.respond), PollWith(config, server.respond));
      ghost var poll: (nat, seq<string>) -> PollStep :| SamePolls(poll, PollWith(config, server.respond));
      ghost var start, items := |server.log|, jobs.items;
      yielded, outcome, polls := WaitBy(jobs, maxPolls, poll);
      WaitOfSame(poll, PollWith(config, server.respond), start, items, maxPolls);
      WaitFacts(config, server.respond, start, items, maxPolls);
      WaitShape(poll, start, items, maxPolls);
    }

    /** The loop of `wait`, described through a poll that agrees with this client's. */
    method WaitBy(jobs: IdList, maxPolls: nat, ghost poll: (nat, seq<string>) -> PollStep)
      returns (yielded: seq<JobInfo>, outcome: WaitOutcome, ghost polls: nat)
      requires SamePolls(poll, PollWith(config, server.respond))
      modifies jobs, server
      ensures var w := WaitOf(poll, |old(server.log)|, old(jobs.items), maxPolls);
        && yielded == w.yielded && jobs.items == w.remaining && outcome == w.outcome && polls == w.polls
        && server.log == old(server.log) + w.sent
    {
      ghost var start, items := |server.log|, jobs.items;
      ghost var whole := WaitOf(poll, start, items, maxPolls);
      ghost var sent: seq<Request> := [];
      yielded := [];
      outcome := PollsExhausted;
      ghost var unremoved: Option<string> := None;
      var n := 0;
      while n < maxPolls
        invariant 0 <= n <= maxPolls
        invariant server.log == old(server.log) + sent
        invariant whole == After(yielded, sent, n, WaitOf(poll, |server.log|, jobs.items, maxPolls - n))
      {
        ghost var at, before := |server.log|, jobs.items;
        ghost var p := Step(poll, at, before);
        StepOn(poll, maxPolls, whole, yielded, sent, n, at, before);
        var taken, crash := PollBy(jobs, poll);
        yielded := yielded + taken;
        AppendAssoc(old(server.log), sent, p.sent);
        sent := sent + p.sent;
        n := n + 1;
        if crash.Some? {
          outcome := Crashed(crash.value);
          unremoved := p.unremoved;
          assert whole == WaitRun(yielded, jobs.items, outcome, unremoved, sent, n);
          break;
        }
        if |jobs.items| == 0 {
          outcome := Done;
          assert whole == WaitRun(yielded, jobs.items, outcome, unremoved, sent, n);
          break;
        }
        // The pause between polls has no effect in the model.
        assert |server.log| == at + |p.sent| && jobs.items == p.remaining;
      }
      assert whole == WaitRun(yielded, jobs.items, outcome, unremoved, sent, n);
      polls := n;
    }
  }
}
