/** The older `JobClient` of cook/__init__.py.  It takes keyword arguments,
    never raises for an HTTP status, and instead turns every response into a
    reply record whose `status` is OK, ERROR or UNKNOWN according to a table
    per operation. */
module Legacy {
  import opened Common
  import opened Values
  import opened Http
  import opened Batching
  import opened SchedulerPaths
  import opened Polling
  import opened Waiting

  // ---- Reply records ----

  datatype Status = OK | ERROR | UNKNOWN

  /** `{'status': ..., 'http_code': ..., 'reason': ..., 'data': ...}`; a key the
      source leaves out of the dict is `None` here. */
  datatype Reply<D> = Reply(status: Status, httpCode: int, reason: Option<string>, data: Option<D>)

  /** How `delete` classifies a response: 204 is success, a malformed (400) or
      forbidden (403) request is the caller's error, anything else is unknown. */
  function DeleteStatus(code: int): Status
  {
    if code == 204 then OK else if code == 400 || code == 403 then ERROR else UNKNOWN
  }

  /** How `query` classifies a response: 200, then 400, 403 and 404 as errors. */
  function QueryStatus(code: int): Status
  {
    if code == 200 then OK else if code == 400 || code == 403 || code == 404 then ERROR else UNKNOWN
  }

  /** How `submit` classifies a response: 201, then 400, 401 and 422 as errors. */
  function SubmitStatus(code: int): Status
  {
    if code == 201 then OK else if code == 400 || code == 401 || code == 422 then ERROR else UNKNOWN
  }

  /** The three tables agree with HTTP's classes and with the newer client's
      `raise_for_status`: OK is one particular 2xx code, every ERROR is a 4xx
      code (so the newer client raises for it), and a server error (5xx) or any
      other 2xx code is never classified. */
  lemma StatusClasses(code: int)
    ensures DeleteStatus(code) == OK <==> code == 204
    ensures QueryStatus(code) == OK <==> code == 200
    ensures SubmitStatus(code) == OK <==> code == 201
    ensures DeleteStatus(code) == ERROR || QueryStatus(code) == ERROR || SubmitStatus(code) == ERROR ==>
      400 <= code < 500 && RaisesForStatus(code)
    ensures DeleteStatus(code) == OK || QueryStatus(code) == OK || SubmitStatus(code) == OK ==>
      !RaisesForStatus(code)
    ensures 500 <= code < 600 ==>
      DeleteStatus(code) == UNKNOWN && QueryStatus(code) == UNKNOWN && SubmitStatus(code) == UNKNOWN
    ensures 200 <= code < 300 && code != 204 ==> DeleteStatus(code) == UNKNOWN
    ensures 200 <= code < 300 && code != 200 ==> QueryStatus(code) == UNKNOWN
    ensures 200 <= code < 300 && code != 201 ==> SubmitStatus(code) == UNKNOWN
  {
  }

  /** The reply `delete` builds for one response: the raw content is the
      reason exactly when the status is not OK; there is never data. */
  function DeleteReply(resp: Response): (r: Reply<()>)
    ensures r.status == DeleteStatus(resp.code) && r.httpCode == resp.code
    ensures r.reason.Some? <==> r.status != OK
    ensures r.reason.Some? ==> r.reason.value == resp.content
    ensures r.data.None?
  {
    if resp.code == 204 then Reply(OK, resp.code, None, None)
    else Reply(DeleteStatus(resp.code), resp.code, Some(resp.content), None)
  }

  /** The reply `query` builds for one response: the decoded body is the data
      exactly when the status is OK, the raw content the reason otherwise. */
  function QueryReply(resp: Response): (r: Reply<seq<JobInfo>>)
    ensures r.status == QueryStatus(resp.code) && r.httpCode == resp.code
    ensures r.data.Some? <==> r.status == OK
    ensures r.reason.Some? <==> r.status != OK
    ensures r.data.Some? ==> r.data.value == resp.json
    ensures r.reason.Some? ==> r.reason.value == resp.content
  {
    if resp.code == 200 then Reply(OK, resp.code, None, Some(resp.json))
    else Reply(QueryStatus(resp.code), resp.code, Some(resp.content), None)
  }

  /** The reply `submit` builds: on 201 the data is the list of ids sent. */
  function SubmitReply(resp: Response, ids: seq<Value>): (r: Reply<seq<Value>>)
    ensures r.status == SubmitStatus(resp.code) && r.httpCode == resp.code
    ensures r.data.Some? <==> r.status == OK
    ensures r.reason.Some? <==> r.status != OK
    ensures r.data.Some? ==> r.data.value == ids
    ensures r.reason.Some? ==> r.reason.value == resp.content
  {
    if resp.code == 201 then Reply(OK, resp.code, None, Some(ids))
    else Reply(SubmitStatus(resp.code), resp.code, Some(resp.content), None)
  }

  function DeleteReplies(rs: seq<Response>): seq<Reply<()>>
  {
    seq(|rs|, i requires 0 <= i < |rs| => DeleteReply(rs[i]))
  }

  function QueryReplies(rs: seq<Response>): seq<Reply<seq<JobInfo>>>
  {
    seq(|rs|, i requires 0 <= i < |rs| => QueryReply(rs[i]))
  }

  /** The job records `wait` looks at: the data of the OK replies, in order. */
  function OkRecords(replies: seq<Reply<seq<JobInfo>>>): seq<JobInfo>
  {
    if |replies| == 0 then []
    else
      var last := replies[|replies| - 1];
      OkRecords(replies[..|replies| - 1]) + (if last.status == OK && last.data.Some? then last.data.value else [])
  }

  /** The body of a response when it is a 200, nothing otherwise. */
  function OkBody(resp: Response): seq<JobInfo>
  {
    if resp.code == 200 then resp.json else []
  }

  /** The bodies of the 200 responses, one per response. */
  function OkBodies(rs: seq<Response>): seq<seq<JobInfo>>
  {
    seq(|rs|, i requires 0 <= i < |rs| => OkBody(rs[i]))
  }

  /** `wait` sees exactly the bodies of the 200 responses, in order: the
      records of a response with any other code are never yielded. */
  lemma {:induction false} OkRecordsAreOkBodies(rs: seq<Response>)
    ensures OkRecords(QueryReplies(rs)) == Concat(OkBodies(rs))
    decreases |rs|
  {
    if |rs| > 0 {
      var init := rs[..|rs| - 1];
      OkRecordsAreOkBodies(init);
      assert QueryReplies(rs)[..|rs| - 1] == QueryReplies(init);
      assert OkBodies(rs) == OkBodies(init) + [OkBody(rs[|rs| - 1])];
      ConcatAppend(OkBodies(init), OkBody(rs[|rs| - 1]));
    }
  }

  // ---- Construction ----

  /** The keyword arguments of `__init__`; `None` means the keyword is absent. */
  datatype LegacyArgs = LegacyArgs(
    url: Option<string>,
    auth: Option<string>,
    httpUser: Option<string>,
    httpPassword: Option<string>,
    batchRequestSize: Option<int>,
    statusUpdateIntervalSeconds: Option<int>,
    requestTimeoutSeconds: Option<int>)

  /** The stored credential: a basic-auth pair or a Kerberos negotiator. */
  datatype LegacyAuth = BasicPair(user: string, password: string) | KerberosNegotiator

  datatype LegacyConfig = LegacyConfig(
    url: string,
    auth: LegacyAuth,
    batchRequestSize: int,
    statusUpdateIntervalSeconds: int,
    requestTimeoutSeconds: int)

  function OrDefault(o: Option<int>, d: int): int
  {
    if o.Some? then o.value else d
  }

  /** The stored configuration once the credential is settled; each optional
      setting falls back to its default. */
  function Settle(args: LegacyArgs, auth: LegacyAuth): LegacyConfig
    requires args.url.Some?
  {
    LegacyConfig(args.url.value, auth, OrDefault(args.batchRequestSize, 32),
                 OrDefault(args.statusUpdateIntervalSeconds, 10), OrDefault(args.requestTimeoutSeconds, 60))
  }

  /** The checks shared by both readings of `__init__`: the required keywords,
      then the basic-auth keywords. */
  function InitBasic(args: LegacyArgs): Option<Result<LegacyConfig>>
  {
    if args.url.None? then Some(Failure(ValueError("url parameter is required")))
    else if args.auth.None? then Some(Failure(ValueError("auth parameter is required")))
    else if args.auth.value != "http_basic" then None
    else if args.httpUser.None? then Some(Failure(ValueError("HTTP user is required when authentication is HTTP basic")))
    else if args.httpPassword.None? then Some(Failure(ValueError("HTTP password is required when authentication is HTTP basic")))
    else Some(Success(Settle(args, BasicPair(args.httpUser.value, args.httpPassword.value))))
  }

  /** `__init__` as written: the Kerberos branch tests the unbound name `auth`
      rather than the attribute just set, so every auth kind other than basic
      auth raises `NameError`. */
  function InitAsWritten(args: LegacyArgs): (r: Result<LegacyConfig>)
    ensures r.Success? <==>
      args.url.Some? && args.auth == Some("http_basic") && args.httpUser.Some? && args.httpPassword.Some?
    ensures args.url.Some? && args.auth.Some? && args.auth.value != "http_basic" ==> r == Failure(NameError("auth"))
  {
    match InitBasic(args)
    case Some(outcome) => outcome
    case None => Failure(NameError("auth"))
  }

  /** `__init__` as intended: `kerberos` stores a negotiator and any other
      auth kind is refused with a `ValueError`. */
  function Init(args: LegacyArgs): (r: Result<LegacyConfig>)
    ensures r.Success? <==>
      && args.url.Some? && args.auth.Some?
      && ((args.auth.value == "http_basic" && args.httpUser.Some? && args.httpPassword.Some?)
          || args.auth.value == "kerberos")
    ensures r.Failure? ==> r.error.ValueError?
    ensures r.Success? ==>
      && r.value.url == args.url.value
      && r.value.auth == (if args.auth.value == "kerberos" then KerberosNegotiator
                          else BasicPair(args.httpUser.value, args.httpPassword.value))
    ensures r.Success? && args.batchRequestSize.None? ==> r.value.batchRequestSize == 32
    ensures r.Success? && args.batchRequestSize.Some? ==> r.value.batchRequestSize == args.batchRequestSize.value
    ensures r.Success? && args.statusUpdateIntervalSeconds.None? ==> r.value.statusUpdateIntervalSeconds == 10
    ensures r.Success? && args.statusUpdateIntervalSeconds.Some? ==>
      r.value.statusUpdateIntervalSeconds == args.statusUpdateIntervalSeconds.value
    ensures r.Success? && args.requestTimeoutSeconds.None? ==> r.value.requestTimeoutSeconds == 60
    ensures r.Success? && args.requestTimeoutSeconds.Some? ==> r.value.requestTimeoutSeconds == args.requestTimeoutSeconds.value
  {
    match InitBasic(args)
    case Some(outcome) => outcome
    case None =>
      if args.auth.value == "kerberos" then Success(Settle(args, KerberosNegotiator))
      else Failure(ValueError("Authentication type " + args.auth.value + " not supported"))
  }

  /** The two readings differ exactly on the auth kinds other than basic auth:
      Kerberos is unreachable as written, and an unsupported kind raises the
      wrong exception. */
  lemma InitDiscrepancy(args: LegacyArgs)
    ensures args.url.None? || args.auth.None? || args.auth.value == "http_basic" ==>
      InitAsWritten(args) == Init(args)
    ensures args.url.Some? && args.auth == Some("kerberos") ==>
      InitAsWritten(args) == Failure(NameError("auth")) && Init(args).Success?
      && Init(args).value.auth == KerberosNegotiator
    ensures args.url.Some? && args.auth.Some? && args.auth.value != "http_basic" && args.auth.value != "kerberos" ==>
      InitAsWritten(args).error.NameError? && Init(args).error.ValueError?
  {
  }

  /** The concrete input: a URL and `auth="kerberos"`. */
  lemma KerberosConstructionFailsAsWritten()
    ensures var args := LegacyArgs(Some("http://cook:12321"), Some("kerberos"), None, None, None, None, None);
      InitAsWritten(args) == Failure(NameError("auth"))
      && Init(args) == Success(LegacyConfig("http://cook:12321", KerberosNegotiator, 32, 10, 60))
  {
  }

  // ---- Submission ----

  /** Every job with a `uuid`; job `i` gets `freshId(i)` if it has none. */
  function FillUuids(jobs: seq<Job>, freshId: nat -> string): (r: seq<Job>)
    ensures |r| == |jobs|
    ensures forall i :: 0 <= i < |r| ==> r[i] == WithUuid(jobs[i], freshId(i))
    ensures forall i :: 0 <= i < |r| ==> "uuid" in r[i]
  {
    seq(|jobs|, i requires 0 <= i < |jobs| => WithUuid(jobs[i], freshId(i)))
  }

  /** The ids a successful submission reports: the job's own id where it had
      one, the generated one otherwise; no other field changes. */
  lemma FilledUuids(jobs: seq<Job>, freshId: nat -> string)
    ensures |UuidValues(FillUuids(jobs, freshId))| == |jobs|
    ensures forall i :: 0 <= i < |jobs| ==>
      && UuidValues(FillUuids(jobs, freshId))[i] == (if "uuid" in jobs[i] then jobs[i]["uuid"] else Str(freshId(i)))
      && FillUuids(jobs, freshId)[i].Keys == jobs[i].Keys + {"uuid"}
      && (forall k :: k in jobs[i] ==> FillUuids(jobs, freshId)[i][k] == jobs[i][k])
  {
  }

  // ---- The wait loop ----

  /** The exceptions building the query paths raises: `IndexError` exactly for
      an empty list, otherwise `range`'s `ValueError`. */
  lemma PathsErrors(ids: seq<string>, n: int)
    ensures PathsFor(ids, n).Failure? ==>
      (PathsFor(ids, n).error == IndexError <==> ids == []) && (ids != [] ==> PathsFor(ids, n).error == ValueError(RangeStepZero))
  {
  }

  /** One pass of the older `wait` loop: query the ids, then walk the records
      of the OK replies, yielding each completed job and then removing its id.
      Building the paths can raise; `list.remove` raising ends the pass with
      the job yielded and its id not removed. */
  function PollOf(config: LegacyConfig, respond: (nat, Request) -> Response, start: nat, items: seq<string>): PollStep
  {
    match PathsFor(items, config.batchRequestSize)
    case Failure(e) => PollStep([], items, Some(e), None, [])
    case Success(paths) =>
      var reqs := Requests(GET, config.url, paths);
      var y := Yield(items, OkRecords(QueryReplies(Replies(respond, start, reqs))));
      PollStep(y.yielded, y.remaining, if y.unremoved.Some? then Some(ValueError(RemoveMissing)) else None, y.unremoved, reqs)
  }

  /** The poll `wait` repeats, for the scheduler `respond`. */
  function PollWith(config: LegacyConfig, respond: (nat, Request) -> Response): (nat, seq<string>) -> PollStep
  {
    (start: nat, items: seq<string>) => PollOf(config, respond, start, items)
  }

  /** What one poll does to the list: the jobs yielded are completed, their
      ids leave the list in order and nothing else does, except the last one
      when `list.remove` raised; only `IndexError` (an empty list) or a
      `ValueError` ends `wait`. */
  lemma PollFacts(config: LegacyConfig, respond: (nat, Request) -> Response, start: nat, items: seq<string>)
    ensures var p := PollOf(config, respond, start, items);
      && AllCompleted(p.taken)
      && (p.unremoved.None? ==> p.remaining == RemoveUuids(items, p.taken))
      && multiset(p.remaining) + multiset(UuidsOf(p.taken)) == multiset(items) + Extra(p.unremoved)
      && (p.unremoved.Some? ==> p.unremoved.value !in p.remaining)
      && (p.unremoved.Some? <==> p.crash == Some(ValueError(RemoveMissing)))
      && (p.crash.Some? ==> p.crash.value == IndexError || p.crash.value.ValueError?)
      && (p.crash == Some(IndexError) <==> items == [])
  {
    PathsErrors(items, config.batchRequestSize);
    match PathsFor(items, config.batchRequestSize)
    case Failure(e) =>
    case Success(paths) =>
      var reqs := Requests(GET, config.url, paths);
      YieldFacts(items, OkRecords(QueryReplies(Replies(respond, start, reqs))));
  }

  /** What one poll yields from the answers: the completed records of the 200
      bodies, in order, when nothing raises; and when `list.remove` raises,
      those up to and including the first whose id is no longer in the list. */
  lemma PollAnswers(config: LegacyConfig, respond: (nat, Request) -> Response, start: nat, items: seq<string>)
    ensures var p := PollOf(config, respond, start, items);
      PathsFor(items, config.batchRequestSize).Success? ==>
        var rs := Replies(respond, start, Requests(GET, config.url, PathsFor(items, config.batchRequestSize).value));
        && p.sent == Requests(GET, config.url, PathsFor(items, config.batchRequestSize).value)
        && (p.crash.None? ==> p.taken == CompletedOf(Concat(OkBodies(rs))))
        && (p.unremoved.Some? ==> exists k :: StoppedAt(items, Concat(OkBodies(rs)), k, Yielded(p.taken, p.remaining, p.unremoved)))
  {
    match PathsFor(items, config.batchRequestSize)
    case Failure(e) =>
    case Success(paths) =>
      var rs := Replies(respond, start, Requests(GET, config.url, paths));
      OkRecordsAreOkBodies(rs);
      YieldFacts(items, Concat(OkBodies(rs)));
      YieldStop(items, Concat(OkBodies(rs)));
  }

  /** Every poll of the older client keeps the books the whole `wait` relies
      on. */
  lemma PollsKeep(config: LegacyConfig, respond: (nat, Request) -> Response)
    ensures PollsComplete(PollWith(config, respond))
    ensures PollsCount(PollWith(config, respond))
    ensures PollsInOrder(PollWith(config, respond))
    ensures PollsStop(PollWith(config, respond))
    ensures PollsStopOnlyUnremoved(PollWith(config, respond))
    ensures PollsCrashWith(PollWith(config, respond), IndexError)
  {
    var poll := PollWith(config, respond);
    forall start: nat, items: seq<string>
      ensures Polled(start, items) ==>
        && AllCompleted(Step(poll, start, items).taken)
        && multiset(Step(poll, start, items).remaining) + multiset(UuidsOf(Step(poll, start, items).taken))
           == multiset(items) + Extra(Step(poll, start, items).unremoved)
        && (Step(poll, start, items).unremoved.Some? ==> Step(poll, start, items).crash.Some?)
        && (Step(poll, start, items).unremoved.None? ==>
              Step(poll, start, items).remaining == RemoveUuids(items, Step(poll, start, items).taken))
        && (Step(poll, start, items).unremoved.Some? ==>
              && Step(poll, start, items).unremoved.value !in Step(poll, start, items).remaining
              && Step(poll, start, items).crash == Some(ValueError(RemoveMissing)))
        && (Step(poll, start, items).crash == Some(ValueError(RemoveMissing)) ==> Step(poll, start, items).unremoved.Some?)
        && (Step(poll, start, items).crash.Some? ==>
              Step(poll, start, items).crash.value == IndexError || Step(poll, start, items).crash.value.ValueError?)
        && (Step(poll, start, items).crash == Some(IndexError) <==> items == [])
    {
      assert Step(poll, start, items) == PollOf(config, respond, start, items);
      PollFacts(config, respond, start, items);
    }
  }

  /** What a whole `wait` of the older client does: every yielded job is
      completed; the ids leave the list in the order the jobs were yielded and
      nothing else does, except the last id when `list.remove` raised, which
      happens exactly when a job was yielded whose id was no longer in the
      list; only `IndexError` (exactly when the starting list is empty) or a
      `ValueError` ends it early. */
  lemma WaitFacts(config: LegacyConfig, respond: (nat, Request) -> Response, start: nat,
                  items: seq<string>, fuel: nat)
    ensures var w := WaitOf(PollWith(config, respond), start, items, fuel);
      && AllCompleted(w.yielded)
      && (w.unremoved.None? ==> w.remaining == RemoveUuids(items, w.yielded))
      && multiset(w.remaining) + multiset(UuidsOf(w.yielded)) == multiset(items) + Extra(w.unremoved)
      && (w.unremoved.Some? ==> w.unremoved.value !in w.remaining)
      && (w.unremoved.Some? <==> w.outcome == Crashed(ValueError(RemoveMissing)))
      && (w.outcome.Crashed? ==> w.outcome.error == IndexError || w.outcome.error.ValueError?)
      && (w.outcome == Crashed(IndexError) <==> items == [] && fuel > 0)
  {
    var poll := PollWith(config, respond);
    PollsKeep(config, respond);
    WaitComplete(poll, start, items, fuel);
    WaitCounts(poll, start, items, fuel);
    WaitInOrder(poll, start, items, fuel);
    WaitStop(poll, start, items, fuel);
    WaitStopsOnlyUnremoved(poll, start, items, fuel);
    WaitCrashes(poll, IndexError, start, items, fuel);
  }

  /** The message of the `ValueError` raised when the `jobs` keyword is missing. */
  const NoJobs: string := "No jobs given"

  class JobClient {
    const config: LegacyConfig
    const server: Server

    constructor (config: LegacyConfig, server: Server)
      ensures this.config == config && this.server == server
    {
      this.config := config;
      this.server := server;
    }

    /** `__api_get`, `__api_delete`: every request is issued, whatever the
        status of the earlier answers. */
    method ApiCall(reqs: seq<Request>) returns (rs: seq<Response>)
      modifies server
      ensures server.log == old(server.log) + reqs
      ensures rs == Replies(server.respond, |old(server.log)|, reqs)
    {
      ghost var start := |server.log|;
      rs := [];
      var i := 0;
      while i < |reqs|
        invariant 0 <= i <= |reqs|
        invariant |server.log| == start + i
        invariant rs == Replies(server.respond, start, reqs[..i])
        invariant server.log == old(server.log) + reqs[..i]
      {
        var resp := server.Send(reqs[i]);
        assert reqs[..i + 1] == reqs[..i] + [reqs[i]];
        rs := rs + [resp];
        i := i + 1;
      }
      assert reqs[..i] == reqs;
    }

    /** `delete` and `__delete`: one DELETE per path and one reply per response. */
    method Delete(jobs: Option<seq<string>>) returns (r: Result<seq<Reply<()>>>)
      modifies server
      ensures jobs.None? ==> r == Failure(ValueError(NoJobs)) && server.log == old(server.log)
      ensures jobs.Some? ==>
        match PathsFor(jobs.value, config.batchRequestSize)
        case Failure(e) => r == Failure(e) && server.log == old(server.log)
        case Success(paths) =>
          var reqs := Requests(DELETE, config.url, paths);
          && server.log == old(server.log) + reqs
          && r == Success(DeleteReplies(Replies(server.respond, |old(server.log)|, reqs)))
    {
      if jobs.None? {
        return Failure(ValueError(NoJobs));
      }
      var paths := RequestPaths(jobs.value, config.batchRequestSize);
      if paths.Failure? {
        return Failure(paths.error);
      }
      var rs := ApiCall(Requests(DELETE, config.url, paths.value));
      var ret: seq<Reply<()>> := [];
      var i := 0;
      while i < |rs|
        invariant 0 <= i <= |rs|
        invariant ret == DeleteReplies(rs[..i])
      {
        ret := ret + [DeleteReply(rs[i])];
        i := i + 1;
      }
      assert rs[..i] == rs;
      return Success(ret);
    }

    /** `query` and `__query`: one GET per path and one reply per response. */
    method Query(jobs: Option<seq<string>>) returns (r: Result<seq<Reply<seq<JobInfo>>>>)
      modifies server
      ensures jobs.None? ==> r == Failure(ValueError(NoJobs)) && server.log == old(server.log)
      ensures jobs.Some? ==>
        match PathsFor(jobs.value, config.batchRequestSize)
        case Failure(e) => r == Failure(e) && server.log == old(server.log)
        case Success(paths) =>
          var reqs := Requests(GET, config.url, paths);
          && server.log == old(server.log) + reqs
          && r == Success(QueryReplies(Replies(server.respond, |old(server.log)|, reqs)))
      ensures r.Failure? ==> r.error == ValueError(NoJobs) || r.error == IndexError || r.error == ValueError(RangeStepZero)
      ensures r.Failure? && jobs.Some? ==> (r.error == IndexError <==> jobs.value == [])
    {
      if jobs.None? {
        return Failure(ValueError(NoJobs));
      }
      var paths := RequestPaths(jobs.value, config.batchRequestSize);
      if paths.Failure? {
        return Failure(paths.error);
      }
      var rs := ApiCall(Requests(GET, config.url, paths.value));
      var ret: seq<Reply<seq<JobInfo>>> := [];
      var i := 0;
      while i < |rs|
        invariant 0 <= i <= |rs|
        invariant ret == QueryReplies(rs[..i])
      {
        ret := ret + [QueryReply(rs[i])];
        i := i + 1;
      }
      assert rs[..i] == rs;
      return Success(ret);
    }

    /** `submit` and `__submit`: fills in missing ids in place, issues one POST
        and classifies its response; there is no validation and no default. */
    method Submit(jobs: Option<array<Job>>, freshId: nat -> string) returns (r: Result<Reply<seq<Value>>>)
      modifies server, if jobs.Some? then {jobs.value} else {}
      ensures jobs.None? ==> r == Failure(ValueError(NoJobs)) && server.log == old(server.log)
      ensures jobs.Some? ==>
        var a := jobs.value;
        var req := Request(POST, config.url + SchedulerEndpoint, JobsBody(a[..]));
        && a[..] == FillUuids(old(a[..]), freshId)
        && server.log == old(server.log) + [req]
        && r == Success(SubmitReply(server.respond(|old(server.log)|, req), UuidValues(a[..])))
    {
      if jobs.None? {
        return Failure(ValueError(NoJobs));
      }
      var a := jobs.value;
      ghost var filled := FillUuids(a[..], freshId);
      var i := 0;
      while i < a.Length
        invariant 0 <= i <= a.Length
        invariant forall k :: 0 <= k < i ==> a[k] == filled[k]
        invariant forall k :: i <= k < a.Length ==> a[k] == old(a[k])
        invariant server.log == old(server.log)
      {
        a[i] := WithUuid(a[i], freshId(i));
        i := i + 1;
      }
      assert a[..] == filled;
      var req := Request(POST, config.url + SchedulerEndpoint, JobsBody(a[..]));
      var resp := server.Send(req);
      return Success(SubmitReply(resp, UuidValues(a[..])));
    }

    /** One pass of the `wait` loop: query the remaining ids, then yield the
        completed jobs of the OK replies, removing each id after its job.
        Every exception ends `wait` and is returned as `crash`; `unremoved`
        is the id of a job yielded whose id was no longer in the list. */
    method Poll(jobs: IdList) returns (taken: seq<JobInfo>, crash: Option<Error>, ghost unremoved: Option<string>)
      modifies jobs, server
      ensures var p := PollOf(config, server.respond, |old(server.log)|, old(jobs.items));
        && taken == p.taken && jobs.items == p.remaining && crash == p.crash && unremoved == p.unremoved
        && server.log == old(server.log) + p.sent
      ensures AllCompleted(taken)
      ensures unremoved.None? ==> jobs.items == RemoveUuids(old(jobs.items), taken)
      ensures multiset(jobs.items) + multiset(UuidsOf(taken)) == multiset(old(jobs.items)) + Extra(unremoved)
      ensures unremoved.Some? ==> unremoved.value !in jobs.items
      ensures unremoved.Some? <==> crash == Some(ValueError(RemoveMissing))
      ensures crash.Some? ==> crash.value == IndexError || crash.value.ValueError?
      ensures crash == Some(IndexError) <==> old(jobs.items) == []
    {
      ghost var start, items := |server.log|, jobs.items;
      PollFacts(config, server.respond, start, items);
      var found := Query(Some(jobs.items));
      if found.Failure? {
        return [], Some(found.error), None;
      }
      var missing;
      taken, missing := YieldCompleted(jobs, OkRecords(found.value));
      if missing.Some? {
        return taken, Some(ValueError(RemoveMissing)), missing;
      }
      return taken, None, None;
    }

    /** `Poll`, described through a poll that agrees with this client's. */
    method PollBy(jobs: IdList, ghost poll: (nat, seq<string>) -> PollStep)
      returns (taken: seq<JobInfo>, crash: Option<Error>, ghost unremoved: Option<string>)
      requires SamePolls(poll, PollWith(config, server.respond))
      modifies jobs, server
      ensures var p := Step(poll, |old(server.log)|, old(jobs.items));
        && taken == p.taken && jobs.items == p.remaining && crash == p.crash && unremoved == p.unremoved
        && server.log == old(server.log) + p.sent
    {
      SameAt(poll, PollWith(config, server.respond), |server.log|, jobs.items);
      assert Step(PollWith(config, server.respond), |server.log|, jobs.items)
        == PollOf(config, server.respond, |server.log|, jobs.items);
      taken, crash, unremoved := Poll(jobs);
    }

    /** `wait`: polls until every id has been removed from the caller's list,
        yielding each completed job before removing its id.  An exception ends
        the loop; `maxPolls` bounds the number of polls and `polls` is the
        number made. */
    method Wait(jobs: IdList, maxPolls: nat) returns (yielded: seq<JobInfo>, outcome: WaitOutcome,
                                                     ghost unremoved: Option<string>, ghost polls: nat)
      modifies jobs, server
      ensures var w := WaitOf(PollWith(config, server.respond), |old(server.log)|, old(jobs.items), maxPolls);
        && yielded == w.yielded && jobs.items == w.remaining && outcome == w.outcome
        && unremoved == w.unremoved && polls == w.polls && server.log == old(server.log) + w.sent
      ensures AllCompleted(yielded)
      ensures unremoved.None? ==> jobs.items == RemoveUuids(old(jobs.items), yielded)
      ensures multiset(jobs.items) + multiset(UuidsOf(yielded)) == multiset(old(jobs.items)) + Extra(unremoved)
      ensures unremoved.Some? ==> unremoved.value !in jobs.items
      ensures unremoved.Some? <==> outcome == Crashed(ValueError(RemoveMissing))
      ensures outcome == Done ==> jobs.items == []
      ensures outcome == PollsExhausted ==> polls == maxPolls && (maxPolls == 0 || jobs.items != [])
      ensures polls <= maxPolls && (maxPolls > 0 ==> polls >= 1)
      ensures outcome.Crashed? ==> outcome.error == IndexError || outcome.error.ValueError?
      ensures outcome == Crashed(IndexError) <==> old(jobs.items) == [] && maxPolls > 0
    {
      // The loop reasons about a poll known only by what it does at each list.
      assert SamePolls(PollWith(config, server.respond), PollWith(config, server.respond));
      ghost var poll: (nat, seq<string>) -> PollStep :| SamePolls(poll, PollWith(config, server.respond));
      ghost var start, items := |server.log|, jobs.items;
      yielded, outcome, unremoved, polls := WaitBy(jobs, maxPolls, poll);
      WaitOfSame(poll, PollWith(config, server.respond), start, items, maxPolls);
      WaitFacts(config, server.respond, start, items, maxPolls);
      WaitShape(poll, start, items, maxPolls);
    }

    /** The loop of `wait`, described through a poll that agrees with this client's. */
    method WaitBy(jobs: IdList, maxPolls: nat, ghost poll: (nat, seq<string>) -> PollStep)
      returns (yielded: seq<JobInfo>, outcome: WaitOutcome, ghost unremoved: Option<string>, ghost polls: nat)
      requires SamePolls(poll, PollWith(config, server.respond))
      modifies jobs, server
      ensures var w := WaitOf(poll, |old(server.log)|, old(jobs.items), maxPolls);
        && yielded == w.yielded && jobs.items == w.remaining && outcome == w.outcome
        && unremoved == w.unremoved && polls == w.polls && server.log == old(server.log) + w.sent
    {
      ghost var start, items := |server.log|, jobs.items;
      ghost var whole := WaitOf(poll, start, items, maxPolls);
      ghost var sent: seq<Request> := [];
      yielded := [];
      outcome := PollsExhausted;
      unremoved := None;
      var n := 0;
      while n < maxPolls
        invariant 0 <= n <= maxPolls
        invariant server.log == old(server.log) + sent
        invariant whole == After(yielded, sent, n, WaitOf(poll, |server.log|, jobs.items, maxPolls - n))
      {
        ghost var at, before := |server.log|, jobs.items;
        ghost var p := Step(poll, at, before);
        StepOn(poll, maxPolls, whole, yielded, sent, n, at, before);
        var taken, crash, lost := PollBy(jobs, poll);
        yielded := yielded + taken;
        AppendAssoc(old(server.log), sent, p.sent);
        sent := sent + p.sent;
        n := n + 1;
        if crash.Some? {
          outcome := Crashed(crash.value);
          unremoved := lost;
          assert whole == WaitRun(yielded, jobs.items, outcome, unremoved, sent, n);
          break;
        }
        if |jobs.items| == 0 {
          outcome := Done;
          assert whole == WaitRun(yielded, jobs.items, outcome, unremoved, sent, n);
          break;
        }
        // The pause between polls has no effect in the model.
        assert |server.log| == at + |p.sent| && jobs.items == p.remaining;
      }
      assert whole == WaitRun(yielded, jobs.items, outcome, unremoved, sent, n);
      polls := n;
    }
  }
}
