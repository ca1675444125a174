/** collectors/http_collector.py: a GET of the metrics endpoint, mapped to
    `{"metrics": [...]}` or `{"metrics": [], "error": ...}`. The request
    itself is not modelled; its outcome is the input. */
module HttpCollector {
  import opened Wrappers
  import opened MetricDicts

  /** What the response body parses to. */
  datatype Body =
    | Unparseable(message: string)                 // the JSON decoder raised; `message` is str(e)
    | JsonObject(metrics: Option<seq<MetricDict>>) // a JSON object, with or without a "metrics" key
    | JsonOther(typeName: string)                  // valid JSON that is not an object (list, number, ...)

  /** How the request ended. */
  datatype Outcome =
    | ConnectError                                     // httpx.ConnectError
    | RequestError(message: string)                    // any other transport failure, e.g. a timeout
    | Response(status: int, statusError: string, body: Body)  // `statusError` is str() of the status exception

  /** `raise_for_status` lets only 2xx through. */
  predicate IsSuccess(status: int) { 200 <= status <= 299 }

  /** The outcome that `collect` turns into metrics: a 2xx JSON object. */
  predicate Delivered(o: Outcome) {
    o.Response? && IsSuccess(o.status) && o.body.JsonObject?
  }

  /** `HttpCollector.collect`. */
  function Collect(o: Outcome): (r: ResultDict)
    ensures r.error.Some? ==> r.metrics == []
    ensures r.error.None? <==> Delivered(o)
    ensures Delivered(o) ==> r.metrics == o.body.metrics.GetOr([])
    ensures o.ConnectError? ==> r.error == Some("Connection refused")
    ensures o.RequestError? ==> r.error == Some(o.message)
    ensures o.Response? && !IsSuccess(o.status) ==> r.error == Some(o.statusError)
    ensures o.Response? && IsSuccess(o.status) && o.body.Unparseable? ==> r.error == Some(o.body.message)
    ensures o.Response? && IsSuccess(o.status) && o.body.JsonOther? ==>
              r.error == Some("'" + o.body.typeName + "' object has no attribute 'get'")
  {
    match o
    case ConnectError => ResultDict([], Some("Connection refused"))
    case RequestError(msg) => ResultDict([], Some(msg))
    case Response(status, statusError, body) =>
      if !IsSuccess(status) then ResultDict([], Some(statusError))
      else
        match body
        case Unparseable(msg) => ResultDict([], Some(msg))
        case JsonOther(t) => ResultDict([], Some("'" + t + "' object has no attribute 'get'"))
        case JsonObject(ms) => ResultDict(ms.GetOr([]))
  }
}
