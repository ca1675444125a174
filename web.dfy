/** web.py: the web dashboard's shared state and what its handlers compute
    from it. The module-level `_state`, `_web_urls`, `_collectors`,
    `_start_time` and `_total_polls` are the fields of one `App` object;
    `_state`'s insertion order is kept beside it, because `/api/status` lists
    the values in that order. Clocks, the LAN address and the collectors'
    network work are inputs. */
module Web {
  import opened Wrappers
  import opened Base
  import opened MetricDicts
  import opened Config
  import Monitor

  /** One value of `_state`. */
  datatype StatusEntry = StatusEntry(
    name: string,
    url: string,
    webUrl: Option<string>,
    pollEvery: int,
    lastUpdated: real,
    metrics: seq<MetricDict>,
    error: Option<string>)

  /** What `await collector.collect()` did: returned a result, or raised. */
  datatype PollOutcome = Returned(result: ResultDict) | Raised(message: string)

  /** The `/api/status` reply. */
  datatype StatusReply = StatusReply(servers: seq<StatusEntry>, timestamp: real, lanIp: string)

  /** `_web_urls.get(name)` */
  function WebUrlOf(webUrls: map<string, string>, name: string): Option<string> {
    if name in webUrls then Some(webUrls[name]) else None
  }

  /** The entry one poll writes: an exception becomes empty metrics with its
      text as the error; a returned result is copied as it is. */
  function EntryOf(name: string, url: string, webUrl: Option<string>, pollEvery: int,
                   outcome: PollOutcome, now: real): (e: StatusEntry)
    ensures e.name == name && e.url == url && e.webUrl == webUrl && e.pollEvery == pollEvery && e.lastUpdated == now
    ensures outcome.Raised? ==> e.metrics == [] && e.error == Some(outcome.message)
    ensures outcome.Returned? ==> e.metrics == outcome.result.metrics && e.error == outcome.result.error
  {
    var result := match outcome
      case Returned(res) => res
      case Raised(msg) => ResultDict([], Some(msg));
    StatusEntry(name, url, webUrl, pollEvery, now, result.metrics, result.error)
  }

  // ---------------------------------------------------------------------
  // The web_url side table written by load_config
  // ---------------------------------------------------------------------

  /** What one entry writes: `web_url` under its name, when both are there
      and the URL is truthy. */
  function UrlWrite(e: ServerEntry): map<string, string> {
    if e.name.Some? && Truthy(e.webUrl) then map[e.name.value := e.webUrl.value] else map[]
  }

  /** Every write load_config makes, in order, up to and including the entry
      whose missing key stops it (the write comes before the type's lookups). */
  function WebUrlWrites(servers: seq<ServerEntry>): map<string, string>
    decreases |servers|
  {
    if servers == [] then map[]
    else
      var prefix := servers[..|servers| - 1];
      if Collectors(prefix).Err? then WebUrlWrites(prefix)
      else WebUrlWrites(prefix) + UrlWrite(servers[|servers| - 1])
  }

  lemma {:induction false} WritesPersist(servers: seq<ServerEntry>, k: nat)
    requires k <= |servers| && Collectors(servers[..k]).Err?
    ensures WebUrlWrites(servers) == WebUrlWrites(servers[..k])
    decreases |servers| - k
  {
    if k < |servers| {
      assert servers[..k + 1][..k] == servers[..k];
      WritesPersist(servers, k + 1);
    } else {
      assert servers[..k] == servers;
    }
  }

  /** Loading stops at entry `i` when it fails there: the result and the
      URL writes are those of the first `i + 1` entries. */
  lemma StopsAt(servers: seq<ServerEntry>, k: nat)
    requires k <= |servers| && Collectors(servers[..k]).Err?
    ensures Collectors(servers) == Collectors(servers[..k])
    ensures WebUrlWrites(servers) == WebUrlWrites(servers[..k])
  {
    ErrorPersists(servers, k);
    WritesPersist(servers, k);
  }

  lemma FailsAt(servers: seq<ServerEntry>, i: nat)
    requires i < |servers| && Collectors(servers[..i]).Ok? && BuildCollector(servers[i]).Err?
    ensures Collectors(servers[..i + 1]) == Err(BuildCollector(servers[i]).error)
  {
    var p := servers[..i + 1];
    assert p[..|p| - 1] == servers[..i] && p[|p| - 1] == servers[i];
  }

  lemma UrlStep(before: map<string, string>, servers: seq<ServerEntry>, i: nat)
    requires i < |servers| && Collectors(servers[..i]).Ok?
    ensures before + WebUrlWrites(servers[..i + 1]) == (before + WebUrlWrites(servers[..i])) + UrlWrite(servers[i])
  {
    assert servers[..i + 1][..i] == servers[..i];
  }

  /** `_web_urls[name] = srv["web_url"]` when the URL is truthy. */
  method RecordUrl(urls: map<string, string>, srv: ServerEntry) returns (u: map<string, string>)
    requires srv.name.Some?
    ensures u == urls + UrlWrite(srv)
  {
    u := urls;
    if Truthy(srv.webUrl) {
      u := u[srv.name.value := srv.webUrl.value];
    }
  }

  /** Only truthy web_urls are recorded, each under its own server's name. */
  lemma {:induction false} WebUrlWritesSound(servers: seq<ServerEntry>)
    ensures forall n :: n in WebUrlWrites(servers) ==>
              exists i :: 0 <= i < |servers| && servers[i].name == Some(n)
                          && servers[i].webUrl == Some(WebUrlWrites(servers)[n]) && Truthy(servers[i].webUrl)
    decreases |servers|
  {
    if servers != [] {
      var prefix, last := servers[..|servers| - 1], servers[|servers| - 1];
      WebUrlWritesSound(prefix);
      var w, wp := WebUrlWrites(servers), WebUrlWrites(prefix);
      if Collectors(prefix).Err? {
        assert w == wp;
        forall n | n in w
          ensures exists i :: 0 <= i < |servers| && servers[i].name == Some(n)
                              && servers[i].webUrl == Some(w[n]) && Truthy(servers[i].webUrl)
        {
          var i :| 0 <= i < |prefix| && prefix[i].name == Some(n)
                   && prefix[i].webUrl == Some(wp[n]) && Truthy(prefix[i].webUrl);
          assert servers[i] == prefix[i];
        }
      } else {
        assert w == wp + UrlWrite(last);
        forall n | n in w
          ensures exists i :: 0 <= i < |servers| && servers[i].name == Some(n)
                              && servers[i].webUrl == Some(w[n]) && Truthy(servers[i].webUrl)
        {
          if n in UrlWrite(last) {
            assert servers[|servers| - 1] == last;
          } else {
            var i :| 0 <= i < |prefix| && prefix[i].name == Some(n)
                     && prefix[i].webUrl == Some(wp[n]) && Truthy(prefix[i].webUrl);
            assert servers[i] == prefix[i];
          }
        }
      }
    }
  }

  /** After a complete load, every named server with a truthy web_url has one recorded. */
  lemma {:induction false} WebUrlWritesComplete(servers: seq<ServerEntry>)
    requires Collectors(servers).Ok?
    ensures forall i :: 0 <= i < |servers| && servers[i].name.Some? && Truthy(servers[i].webUrl) ==>
              servers[i].name.value in WebUrlWrites(servers)
    decreases |servers|
  {
    if servers != [] {
      var prefix, last := servers[..|servers| - 1], servers[|servers| - 1];
      assert Collectors(prefix).Ok?;
      WebUrlWritesComplete(prefix);
      assert WebUrlWrites(servers) == WebUrlWrites(prefix) + UrlWrite(last);
      forall i | 0 <= i < |servers| && servers[i].name.Some? && Truthy(servers[i].webUrl)
        ensures servers[i].name.value in WebUrlWrites(servers)
      {
        if i < |prefix| {
          assert servers[i] == prefix[i];
        }
      }
    }
  }

  // ---------------------------------------------------------------------
  // /metrics
  // ---------------------------------------------------------------------

  /** A server with metrics and no error. */
  predicate IsHealthy(s: StatusEntry) { s.metrics != [] && !Truthy(s.error) }

  /** A server with an error. */
  predicate IsErrored(s: StatusEntry) { Truthy(s.error) }

  function HealthyCount(ss: seq<StatusEntry>): nat
    decreases |ss|
  {
    if ss == [] then 0 else (if IsHealthy(ss[0]) then 1 else 0) + HealthyCount(ss[1..])
  }

  function ErroredCount(ss: seq<StatusEntry>): nat
    decreases |ss|
  {
    if ss == [] then 0 else (if IsErrored(ss[0]) then 1 else 0) + ErroredCount(ss[1..])
  }

  /** No server is both healthy and errored, so the two counts never exceed
      the number of servers; with no error anywhere, the healthy servers are
      exactly those with metrics. */
  lemma {:induction false} CountsBounded(ss: seq<StatusEntry>)
    ensures HealthyCount(ss) + ErroredCount(ss) <= |ss|
    ensures (forall i :: 0 <= i < |ss| ==> !IsErrored(ss[i])) ==>
              HealthyCount(ss) == |ss| - EmptyCount(ss) && ErroredCount(ss) == 0
    decreases |ss|
  {
    if ss != [] {
      CountsBounded(ss[1..]);
      assert forall i :: 1 <= i < |ss| ==> ss[i] == ss[1..][i - 1];
    }
  }

  /** Servers with no metrics. */
  function EmptyCount(ss: seq<StatusEntry>): nat
    decreases |ss|
  {
    if ss == [] then 0 else (if ss[0].metrics == [] then 1 else 0) + EmptyCount(ss[1..])
  }

  /** Python's `int()` of a float: truncation toward zero. */
  function Truncate(x: real): (r: int)
    ensures x >= 0.0 ==> r as real <= x < r as real + 1.0
    ensures x < 0.0 ==> r as real - 1.0 < x <= r as real
  {
    if x >= 0.0 then x.Floor else -((-x).Floor)
  }

  function Count(key: string, caption: string, value: int, unit: string): MetricDict {
    MetricDict(key := Some(key), labelText := Some(caption), value := Some(IntV(value)), unit := Some(unit))
  }

  /** The five self-monitoring metrics of `/metrics`, in order. */
  function MetricsReport(monitored: nat, healthy: nat, errored: nat, uptime: int, totalPolls: nat): (ms: seq<MetricDict>)
    ensures |ms| == 5
    ensures KeysOf(ms, DictKey) == [Some("servers_monitored"), Some("servers_healthy"), Some("servers_errored"),
                           Some("uptime"), Some("total_polls")]
    ensures ms[0].value == Some(IntV(monitored)) && ms[1].value == Some(IntV(healthy))
            && ms[2].value == Some(IntV(errored)) && ms[3].value == Some(IntV(uptime))
            && ms[4].value == Some(IntV(totalPolls))
    ensures ms[1].color == Some("green") && ms[2].warnAbove == Some(0.0)
  {
    [ Count("servers_monitored", "Servers Monitored", monitored, "count"),
      Count("servers_healthy", "Servers Healthy", healthy, "count").(color := Some("green")),
      Count("servers_errored", "Servers Errored", errored, "count").(warnAbove := Some(0.0)),
      Count("uptime", "Uptime", uptime, "s"),
      Count("total_polls", "Total Polls", totalPolls, "count") ]
  }

  // ---------------------------------------------------------------------
  // /api/status
  // ---------------------------------------------------------------------

  predicate Distinct(keys: seq<string>) {
    forall i, j :: 0 <= i < j < |keys| ==> keys[i] != keys[j]
  }

  /** `_state` and its insertion order describe the same keys, once each. */
  ghost predicate Ordered(order: seq<string>, state: map<string, StatusEntry>) {
    Distinct(order) && (forall k :: k in state <==> k in order)
  }

  /** `list(_state.values())` */
  function ValuesInOrder(order: seq<string>, state: map<string, StatusEntry>): (vs: seq<StatusEntry>)
    requires forall k :: k in order ==> k in state
    ensures |vs| == |order| && forall i :: 0 <= i < |order| ==> vs[i] == state[order[i]]
  {
    seq(|order|, i requires 0 <= i < |order| => state[order[i]])
  }

  /** The status list holds every entry of `_state` exactly once. */
  lemma ValuesCoverState(order: seq<string>, state: map<string, StatusEntry>)
    requires Ordered(order, state)
    ensures |ValuesInOrder(order, state)| == |state|
    ensures forall k :: k in state ==> exists i :: 0 <= i < |order| && order[i] == k
                                                 && ValuesInOrder(order, state)[i] == state[k]
  {
    DistinctCardinality(order);
    assert state.Keys == (set k | k in order);
  }

  lemma {:induction false} DistinctCardinality(keys: seq<string>)
    requires Distinct(keys)
    ensures |(set k | k in keys)| == |keys|
    decreases |keys|
  {
    if keys != [] {
      var rest, last := keys[..|keys| - 1], keys[|keys| - 1];
      DistinctCardinality(rest);
      assert (set k | k in keys) == (set k | k in rest) + {last};
      assert last !in (set k | k in rest);
    }
  }

  /** The loop of web.py's `load_config` over the server entries, starting
      from the `_web_urls` table `before`: the collectors (or the first
      missing key) and the table after the writes it made. */
  method LoadServers(entries: seq<ServerEntry>, before: map<string, string>)
    returns (r: Result<seq<CollectorConfig>, LoadError>, urls: map<string, string>)
    ensures r == Collectors(entries)
    ensures urls == before + WebUrlWrites(entries)
  {
    var loaded: seq<CollectorConfig> := [];
    urls := before;
    for i := 0 to |entries|
      invariant Collectors(entries[..i]) == Ok(loaded)
      invariant urls == before + WebUrlWrites(entries[..i])
    {
      var srv := entries[i];
      UrlStep(before, entries, i);
      if srv.name.None? {
        FailsAt(entries, i);
        StopsAt(entries, i + 1);
        assert urls + UrlWrite(srv) == urls;
        return Err(MissingKey("name")), urls;
      }
      urls := RecordUrl(urls, srv);
      var built := Monitor.LoadEntry(srv);
      if built.Err? {
        FailsAt(entries, i);
        StopsAt(entries, i + 1);
        return Err(built.error), urls;
      }
      if built.value.Some? {
        loaded := loaded + [built.value.value];
      }
      assert entries[..i + 1][..i] == entries[..i];
    }
    assert entries[..|entries|] == entries;
    r := Ok(loaded);
  }

  // ---------------------------------------------------------------------
  // The application state
  // ---------------------------------------------------------------------

  class App {
    var collectors: seq<CollectorConfig>
    var webUrls: map<string, string>
    var state: map<string, StatusEntry>
    var order: seq<string>
    var startTime: real
    var totalPolls: nat

    ghost predicate Valid()
      reads this
    {
      Ordered(order, state)
    }

    /** The module's import-time state; `startTime` is `time.time()` then. */
    constructor (startTime: real)
      ensures Valid()
      ensures collectors == [] && webUrls == map[] && state == map[] && order == []
      ensures this.startTime == startTime && totalPolls == 0
    {
      collectors := [];
      webUrls := map[];
      state := map[];
      order := [];
      this.startTime := startTime;
      totalPolls := 0;
    }

    /** web.py's `load_config`, followed by `main`'s assignment of its result
        to `_collectors`. Each processed entry's truthy `web_url` is recorded
        before its type is looked at, so the writes made before a missing key
        stay in `_web_urls`. */
    method LoadConfig(servers: Option<seq<ServerEntry>>) returns (r: Result<seq<CollectorConfig>, LoadError>)
      modifies this
      ensures r == Collectors(servers.GetOr([]))
      ensures webUrls == old(webUrls) + WebUrlWrites(servers.GetOr([]))
      ensures collectors == if r.Ok? then r.value else old(collectors)
      ensures state == old(state) && order == old(order) && totalPolls == old(totalPolls) && startTime == old(startTime)
    {
      var urls;
      r, urls := LoadServers(servers.GetOr([]), webUrls);
      webUrls := urls;
      if r.Ok? {
        collectors := r.value;
      }
    }

    /** One pass of `_poll_loop` for collector `c` (whose `url` attribute is
        the parameter `url`), at time `now`: the poll count goes up by one and
        only `_state[c.name]` is replaced; a new name joins the end of the order. */
    method PollStep(c: CollectorConfig, url: string, outcome: PollOutcome, now: real)
      requires Valid()
      modifies this
      ensures Valid()
      ensures totalPolls == old(totalPolls) + 1
      ensures state == old(state)[c.name := EntryOf(c.name, url, WebUrlOf(webUrls, c.name), c.pollEvery, outcome, now)]
      ensures order == if c.name in old(state) then old(order) else old(order) + [c.name]
      ensures collectors == old(collectors) && webUrls == old(webUrls) && startTime == old(startTime)
    {
      var result := match outcome
        case Returned(res) => res
        case Raised(msg) => ResultDict([], Some(msg));
      totalPolls := totalPolls + 1;
      if c.name !in state {
        order := order + [c.name];
      }
      state := state[c.name := StatusEntry(c.name, url, WebUrlOf(webUrls, c.name), c.pollEvery, now,
                                           result.metrics, result.error)];
    }

    /** The status list of `/api/status`, in `_state`'s order. */
    function Servers(): (ss: seq<StatusEntry>)
      reads this
      requires Valid()
      ensures |ss| == |state|
    {
      ValuesCoverState(order, state);
      ValuesInOrder(order, state)
    }

    /** `GET /api/status` at time `now`. */
    method ApiStatus(now: real, lanIp: string) returns (reply: StatusReply)
      requires Valid()
      ensures reply.servers == Servers() && reply.timestamp == now && reply.lanIp == lanIp
    {
      var servers := ValuesInOrder(order, state);
      reply := StatusReply(servers, now, lanIp);
    }

    /** `GET /metrics` at time `now`. */
    method Metrics(now: real) returns (ms: seq<MetricDict>)
      requires Valid()
      ensures ms == MetricsReport(|collectors|, HealthyCount(Servers()), ErroredCount(Servers()),
                                  Truncate(now - startTime), totalPolls)
    {
      var servers := ValuesInOrder(order, state);
      var healthy := HealthyCount(servers);
      var errored := ErroredCount(servers);
      var uptime := Truncate(now - startTime);
      ms := MetricsReport(|collectors|, healthy, errored, uptime, totalPolls);
    }
  }
}
