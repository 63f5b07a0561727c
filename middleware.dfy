/** app/middleware/metrics_middleware.py: the HTTP middleware that counts
    every request in `http_requests_total` and observes its duration in
    `http_request_duration_seconds`, both labelled by method, route and
    status code, whether the handler returned or raised. */
module Middleware {
  import opened Python

  /** The status recorded for a request whose handler raised. */
  const FallbackStatus: nat := 500

  /** The parts of a Starlette request the middleware reads: the method, the
      ASGI scope's "path" entry when present, and the URL path. */
  datatype Request = Request(httpMethod: string, scopePath: Option<string>, urlPath: string)

  datatype Response = Response(status: nat)

  /** The label set of both HTTP metrics. */
  datatype Labels = Labels(httpMethod: string, route: string, statusCode: nat)

  /** `request.scope.get("path", request.url.path)`. */
  function Route(request: Request): string {
    request.scopePath.GetOr(request.urlPath)
  }

  /** `response.status_code if response else 500`. */
  function StatusCode(response: Option<Response>): nat {
    if response.Some? then response.value.status else FallbackStatus
  }

  /** The labels recorded for `request` when `call_next` ended with `answer`. */
  function LabelsOf(request: Request, answer: Outcome<Response>): Labels {
    Labels(request.httpMethod, Route(request), StatusCode(if answer.Ok? then Some(answer.value) else None))
  }

  /** What the middleware adds to `http_requests_total` over a sequence of
      requests, each with what its handler did. */
  function Observed(trace: seq<(Request, Outcome<Response>)>): multiset<Labels> {
    if trace == [] then multiset{}
    else Observed(trace[..|trace| - 1]) + multiset{LabelsOf(trace[|trace| - 1].0, trace[|trace| - 1].1)}
  }

  /** Exactly one increment per request. */
  lemma {:induction false} ObservedCountsEveryRequest(trace: seq<(Request, Outcome<Response>)>)
    ensures |Observed(trace)| == |trace|
  {
    if trace != [] {
      ObservedCountsEveryRequest(trace[..|trace| - 1]);
    }
  }

  /** The counts of consecutive stretches of traffic add up. */
  lemma {:induction false} ObservedAppend(t1: seq<(Request, Outcome<Response>)>, t2: seq<(Request, Outcome<Response>)>)
    ensures Observed(t1 + t2) == Observed(t1) + Observed(t2)
    decreases |t2|
  {
    if t2 == [] {
      assert t1 + t2 == t1;
    } else {
      var u := t2[..|t2| - 1];
      assert (t1 + t2)[..|t1 + t2| - 1] == t1 + u;
      ObservedAppend(t1, u);
    }
  }

  /** Every request is counted under its own method and route, with its
      response's status, or 500 when its handler raised; and nothing else
      is counted. */
  lemma {:induction false} ObservedLabels(trace: seq<(Request, Outcome<Response>)>)
    ensures forall i :: 0 <= i < |trace| ==> LabelsOf(trace[i].0, trace[i].1) in Observed(trace)
    ensures forall l :: l in Observed(trace) ==>
      exists i :: 0 <= i < |trace| && l == LabelsOf(trace[i].0, trace[i].1)
    ensures forall i :: 0 <= i < |trace| ==>
      var l := LabelsOf(trace[i].0, trace[i].1);
      && l.httpMethod == trace[i].0.httpMethod && l.route == Route(trace[i].0)
      && l.statusCode == (if trace[i].1.Ok? then trace[i].1.value.status else FallbackStatus)
  {
    if trace != [] {
      var init := trace[..|trace| - 1];
      ObservedLabels(init);
      forall i | 0 <= i < |init|
        ensures init[i] == trace[i]
      {
      }
    }
  }

  /** The middleware's metric series. */
  class MetricsMiddleware {
    /** `http_requests_total`: the value for labels `l` is `requestsTotal[l]`. */
    var requestsTotal: multiset<Labels>
    /** How many observations `http_request_duration_seconds` holds per label
        set (the durations themselves are left out). */
    var durationCount: multiset<Labels>
    /** The requests dispatched so far, each with what its handler did. */
    ghost var served: seq<(Request, Outcome<Response>)>

    constructor ()
      ensures requestsTotal == multiset{} && durationCount == multiset{} && served == []
      ensures Accounted()
    {
      requestsTotal := multiset{};
      durationCount := multiset{};
      served := [];
    }

    /** Both series hold exactly what `Observed` gives for the requests
        served, so the `Observed*` lemmas describe them. */
    ghost predicate Accounted()
      reads this
    {
      requestsTotal == Observed(served) && durationCount == Observed(served)
    }

    /** The histogram's `_count` equals the counter, label set by label set. */
    ghost predicate Consistent()
      reads this
    {
      requestsTotal == durationCount
    }

    /** `dispatch(request, call_next)`, where `downstream` is what
        `call_next(request)` did. The response is returned unchanged and an
        exception, a cancellation included, propagates; either way the
        `finally` block records the request once in each metric. */
    method Dispatch(request: Request, downstream: Outcome<Response>) returns (r: Outcome<Response>)
      modifies this
      ensures r == downstream
      ensures requestsTotal == old(requestsTotal) + multiset{LabelsOf(request, downstream)}
      ensures durationCount == old(durationCount) + multiset{LabelsOf(request, downstream)}
      ensures old(Consistent()) ==> Consistent()
      ensures served == old(served) + [(request, downstream)]
      ensures old(Accounted()) ==> Accounted()
    {
      var response: Option<Response> := None;
      if downstream.Ok? {
        response := Some(downstream.value);
      }
      var labels := Labels(request.httpMethod, Route(request), StatusCode(response));
      requestsTotal := requestsTotal + multiset{labels};
      durationCount := durationCount + multiset{labels};
      served := served + [(request, downstream)];
      r := downstream;
    }
  }
}
