/** The transport, reduced to an oracle: every request the client issues is
    appended to a log, and the answer to the n-th request (counting from 0) is
    `respond(n, request)`.  Counting lets the same path get different answers
    over time, as a polling loop needs. */
module Http {
  import opened Common
  import opened Values

  datatype Verb = GET | POST | DELETE

  /** What a request carries: nothing, `{"jobs": [...]}` or `{}`. */
  datatype Body = NoBody | JobsBody(jobs: seq<Job>) | EmptyObject

  /** `url` is the client's base URL followed by the path and query string. */
  datatype Request = Request(verb: Verb, url: string, body: Body)

  /** An HTTP response: its status code, its decoded JSON body (a list of job
      records) and its raw content. */
  datatype Response = Response(code: int, json: seq<JobInfo>, content: string)

  /** One request per path, each to the base URL followed by the path. */
  function Requests(verb: Verb, url: string, paths: seq<string>): seq<Request>
  {
    seq(|paths|, i requires 0 <= i < |paths| => Request(verb, url + paths[i], NoBody))
  }

  /** `raise_for_status` raises for client (4xx) and server (5xx) errors. */
  predicate RaisesForStatus(code: int)
  {
    400 <= code < 600
  }

  /** The answers the oracle gives to `reqs` issued one after the other, the
      first of them after `start` earlier requests. */
  function Replies(respond: (nat, Request) -> Response, start: nat, reqs: seq<Request>): seq<Response>
  {
    seq(|reqs|, i requires 0 <= i < |reqs| => respond(start + i, reqs[i]))
  }

  /** The position of the first response whose `raise_for_status` raises, or
      `|rs|` when there is none. */
  function FirstRaising(rs: seq<Response>): (k: nat)
    ensures k <= |rs|
    ensures forall i :: 0 <= i < k ==> !RaisesForStatus(rs[i].code)
    ensures k < |rs| ==> RaisesForStatus(rs[k].code)
  {
    if |rs| == 0 then 0
    else if RaisesForStatus(rs[0].code) then 0
    else 1 + FirstRaising(rs[1..])
  }

  /** How many of the answered requests a checking loop issues: all of them, or
      up to and including the first one that raises. */
  function CheckedCount(rs: seq<Response>): nat
  {
    var k := FirstRaising(rs);
    if k < |rs| then k + 1 else k
  }

  /** What a checking loop returns: every response, or the error of the first
      one that raises. */
  function CheckedOutcome(rs: seq<Response>): Result<seq<Response>>
  {
    var k := FirstRaising(rs);
    if k < |rs| then Failure(JobClientError(rs[k].code)) else Success(rs)
  }

  /** A single checked request: it is always issued, and its answer either
      raises or is returned. */
  lemma SingleCall(respond: (nat, Request) -> Response, start: nat, req: Request)
    ensures Replies(respond, start, [req]) == [respond(start, req)]
    ensures CheckedCount(Replies(respond, start, [req])) == 1
    ensures CheckedOutcome(Replies(respond, start, [req])) ==
      if RaisesForStatus(respond(start, req).code) then Failure(JobClientError(respond(start, req).code))
      else Success([respond(start, req)])
  {
    var rs := Replies(respond, start, [req]);
    assert rs == [respond(start, req)];
    assert rs[1..] == [];
  }

  /** The scheduler as seen from the client. */
  class Server {
    var log: seq<Request>
    const respond: (nat, Request) -> Response

    constructor (respond: (nat, Request) -> Response)
      ensures log == [] && this.respond == respond
    {
      log := [];
      this.respond := respond;
    }

    method Send(req: Request) returns (resp: Response)
      modifies this
      ensures log == old(log) + [req]
      ensures resp == respond(|old(log)|, req)
    {
      resp := respond(|log|, req);
      log := log + [req];
    }
  }
}
