/** The request handling of RestServiceProvider/Middleware.cs: every request
    is answered as JSON; an unknown path gets 404; a known one gets its
    processor run on the query parameters and the body, and either the
    processor's text or, when it throws, status 500 and the request id. */
module Middleware {
  import opened Wrappers
  import opened Text
  import opened Dispatcher

  const JsonContentType: string := "application/json"

  /** A request as the middleware reads it: the path (with its leading
      "/"), the query as key and values pairs, and the body text. */
  datatype HttpRequest = HttpRequest(path: string, query: seq<(string, seq<string>)>, body: string)

  /** The text of a query value: its values joined with commas. */
  function QueryValue(values: seq<string>): string
  {
    Join(values, ",")
  }

  /** The keys of a query. */
  function QueryKeys(query: seq<(string, seq<string>)>): set<string>
  {
    set i | 0 <= i < |query| :: query[i].0
  }

  /** The parameter dictionary filled from `query`, pair by pair, a later
      pair overwriting an earlier one with the same key. */
  function Parameters(query: seq<(string, seq<string>)>): (r: map<string, string>)
    ensures r.Keys == QueryKeys(query)
  {
    if query == [] then map[]
    else
      var prev := query[..|query| - 1];
      var last := query[|query| - 1];
      assert QueryKeys(query) == QueryKeys(prev) + {last.0} by {
        assert forall i :: 0 <= i < |prev| ==> prev[i] == query[i];
      }
      Parameters(prev)[last.0 := QueryValue(last.1)]
  }

  predicate DistinctKeys(query: seq<(string, seq<string>)>)
  {
    forall i, j :: 0 <= i < j < |query| ==> query[i].0 != query[j].0
  }

  /** With distinct keys, as a query collection has them, each parameter
      holds its own key's value text. */
  lemma {:induction false} ParametersLookup(query: seq<(string, seq<string>)>, i: nat)
    requires DistinctKeys(query) && i < |query|
    ensures Parameters(query)[query[i].0] == QueryValue(query[i].1)
  {
    var n := |query| - 1;
    if i < n {
      var prev := query[..n];
      assert DistinctKeys(prev);
      assert prev[i] == query[i];
      ParametersLookup(prev, i);
    }
  }

  /** Fills the parameter dictionary in one pass over the query. */
  method FillParameters(query: seq<(string, seq<string>)>) returns (parameters: map<string, string>)
    ensures parameters == Parameters(query)
  {
    parameters := map[];
    var i := 0;
    assert query[..0] == [];
    while i < |query|
      invariant 0 <= i <= |query|
      invariant parameters == Parameters(query[..i])
    {
      var (key, values) := query[i];
      assert query[..i + 1][..i] == query[..i];
      parameters := parameters[key := QueryValue(values)];
      i := i + 1;
    }
    assert query[..i] == query;
  }

  /** What the middleware does to the response: the status code it leaves
      and the text it writes, if any. */
  datatype Reply = Reply(statusCode: int, written: Option<string>)

  /** The text written when the processor throws. */
  function FailureText(rid: string): string
  {
    "RID:" + rid
  }

  /** The reply to `request` given the route table, the request id and the
      status code the response had before. */
  function Respond(table: Table, request: HttpRequest, rid: string, status: int): Reply
  {
    if request.path !in table then Reply(404, None)
    else match Invoke(table, request.path, Parameters(request.query), request.body)
      case Ok(text) => Reply(status, Some(text))
      case Err(_) => Reply(500, Some(FailureText(rid)))
  }

  /** The three outcomes: an unknown path gets 404 and no text; a processor
      that throws gets 500 and the request id; any other result is written
      as it is, under the status the response already had. */
  lemma RespondOutcomes(table: Table, request: HttpRequest, rid: string, status: int)
    ensures var r := Respond(table, request, rid, status);
      && (r.written.None? <==> request.path !in table)
      && (request.path !in table ==> r.statusCode == 404)
      && (request.path in table ==>
            var outcome := table[request.path](Parameters(request.query), request.body);
            && (outcome.Err? ==> r == Reply(500, Some(FailureText(rid))))
            && (outcome.Ok? ==> r == Reply(status, Some(outcome.value))))
  {
  }

  /** A processor registered under a name answers requests to "/" followed
      by that name, with the query's parameters and the body. */
  lemma ServedAtStoredKey(m: Table, name: string, h: Handler, request: HttpRequest, rid: string, status: int)
    requires name !in m && request.path == StoredKey(name)
    ensures var outcome := h(Parameters(request.query), request.body);
      Respond(Register(m, name, h).value, request, rid, status) ==
        if outcome.Ok? then Reply(status, Some(outcome.value)) else Reply(500, Some(FailureText(rid)))
  {
  }

  /** A request to the bare name (no leading "/") is still not found after
      registering under that name. */
  lemma BareNameNotServed(m: Table, name: string, h: Handler, request: HttpRequest, rid: string, status: int)
    requires name !in m && request.path == name
    ensures Respond(Register(m, name, h).value, request, rid, status) == Reply(404, None)
  {
    RegisterHidesUrl(m, name, h);
  }

  /** The response under construction: content type, status code, and the
      text written to the body stream so far. */
  class HttpResponse {
    var ContentType: string
    var StatusCode: int
    var Body: string

    constructor()
      ensures ContentType == "" && StatusCode == 200 && Body == ""
    {
      ContentType := "";
      StatusCode := 200;
      Body := "";
    }
  }

  class RestServiceMiddleware {
    const Dispatcher: RequestDispatcher

    constructor(dispatcher: RequestDispatcher)
      ensures Dispatcher == dispatcher
    {
      Dispatcher := dispatcher;
    }

    /** Handles one request; `rid` is the request id drawn for it. The
        content type is always set to JSON; the rest is as Respond says. */
    method InvokeAsync(request: HttpRequest, rid: string, response: HttpResponse)
      modifies response
      ensures response.ContentType == JsonContentType
      ensures var r := Respond(Dispatcher.MethodMap, request, rid, old(response.StatusCode));
        && response.StatusCode == r.statusCode
        && response.Body == old(response.Body) + (if r.written.Some? then r.written.value else "")
    {
      response.ContentType := JsonContentType;
      var path := request.path;
      if !Dispatcher.IsMethodRegistered(path) {
        response.StatusCode := 404;
        return;
      }
      var parameters := FillParameters(request.query);
      var body := request.body;
      var rez := "";
      var outcome := Dispatcher.InvokeMethod(path, parameters, body);
      match outcome {
        case Ok(text) =>
          rez := text;
        case Err(_) =>
          response.StatusCode := 500;
          rez := FailureText(rid);
      }
      response.Body := response.Body + rez;
    }
  }
}
