/** What `load_config` (monitor.py and web.py) makes of the `servers` list of
    servers.yaml: one collector description per server of a known type, in
    order, with the documented defaults; the first missing required key
    aborts the whole load. YAML parsing is not modelled: a server entry is a
    record whose absent keys are None. */
module Config {
  import opened Wrappers
  import PostgresCollector

  datatype QueryEntry = QueryEntry(
    labelText: Option<string> := None,
    sql: Option<string> := None,
    color: Option<string> := None,
    warnAbove: Option<real> := None,
    warnBelow: Option<real> := None,
    pollEvery: Option<int> := None)

  datatype ServerEntry = ServerEntry(
    name: Option<string> := None,
    serverType: Option<string> := None,
    pollEvery: Option<int> := None,
    webUrl: Option<string> := None,
    metricsEndpoint: Option<string> := None,
    host: Option<string> := None,
    port: Option<int> := None,
    dsn: Option<string> := None,
    systemStats: Option<bool> := None,
    queries: Option<seq<QueryEntry>> := None)

  /** The collector a server entry asks for, with every argument load_config passes. */
  datatype CollectorConfig =
    | Http(name: string, metricsEndpoint: string, pollEvery: int)
    | Redis(name: string, host: string, port: int, pollEvery: int)
    | Postgres(name: string, dsn: string, pollEvery: int, systemStats: bool,
               queries: seq<PostgresCollector.CustomQuery>)

  /** The KeyError that aborts loading: the key that was missing. */
  datatype LoadError = MissingKey(key: string)

  const DefaultType: string := "http"
  const DefaultPoll: int := 5
  const DefaultHost: string := "localhost"
  const DefaultPort: int := 6379

  function TypeOf(e: ServerEntry): string { e.serverType.GetOr(DefaultType) }
  function PollOf(e: ServerEntry): int { e.pollEvery.GetOr(DefaultPoll) }

  predicate KnownType(t: string) { t == "http" || t == "redis" || t == "postgres" }

  /** One custom query; `label` is looked up before `sql`, and the query's
      poll period defaults to its server's. */
  function LoadQuery(q: QueryEntry, poll: int): Result<PostgresCollector.CustomQuery, LoadError> {
    if q.labelText.None? then Err(MissingKey("label"))
    else if q.sql.None? then Err(MissingKey("sql"))
    else Ok(PostgresCollector.CustomQuery(q.labelText.value, q.sql.value, q.color, q.warnAbove, q.warnBelow,
                                          q.pollEvery.GetOr(poll)))
  }

  /** The list comprehension over `queries`: the first failing query's error, or all of them in order. */
  function LoadQueries(qs: seq<QueryEntry>, poll: int): (r: Result<seq<PostgresCollector.CustomQuery>, LoadError>)
    ensures r.Ok? ==> |r.value| == |qs|
    decreases |qs|
  {
    if qs == [] then Ok([])
    else
      match LoadQuery(qs[0], poll)
      case Err(e) => Err(e)
      case Ok(q) =>
        match LoadQueries(qs[1..], poll)
        case Err(e) => Err(e)
        case Ok(rest) => Ok([q] + rest)
  }

  /** One pass of the loop body: Ok(None) skips an unknown type. Lookups
      happen in the source's order: `name`, then the type's required keys
      (for postgres the queries before `dsn`). */
  function BuildCollector(e: ServerEntry): Result<Option<CollectorConfig>, LoadError> {
    if e.name.None? then Err(MissingKey("name"))
    else
      var name, t, poll := e.name.value, TypeOf(e), PollOf(e);
      if t == "http" then
        if e.metricsEndpoint.None? then Err(MissingKey("metrics_endpoint"))
        else Ok(Some(Http(name, e.metricsEndpoint.value, poll)))
      else if t == "redis" then
        Ok(Some(Redis(name, e.host.GetOr(DefaultHost), e.port.GetOr(DefaultPort), poll)))
      else if t == "postgres" then
        match LoadQueries(e.queries.GetOr([]), poll)
        case Err(err) => Err(err)
        case Ok(qs) =>
          if e.dsn.None? then Err(MissingKey("dsn"))
          else Ok(Some(Postgres(name, e.dsn.value, poll, e.systemStats.GetOr(true), qs)))
      else Ok(None)
  }

  /** `load_config`'s result: the collectors of the known-type servers in
      order, or the first KeyError raised. */
  function Collectors(servers: seq<ServerEntry>): Result<seq<CollectorConfig>, LoadError>
    decreases |servers|
  {
    if servers == [] then Ok([])
    else
      var prefix := servers[..|servers| - 1];
      match Collectors(prefix)
      case Err(err) => Err(err)
      case Ok(cs) =>
        match BuildCollector(servers[|servers| - 1])
        case Err(err) => Err(err)
        case Ok(None) => Ok(cs)
        case Ok(Some(c)) => Ok(cs + [c])
  }

  /** A missing key in a prefix stops the load: the rest is never looked at. */
  lemma {:induction false} ErrorPersists(servers: seq<ServerEntry>, k: nat)
    requires k <= |servers| && Collectors(servers[..k]).Err?
    ensures Collectors(servers) == Collectors(servers[..k])
    decreases |servers| - k
  {
    if k < |servers| {
      assert servers[..k + 1][..k] == servers[..k];
      ErrorPersists(servers, k + 1);
    } else {
      assert servers[..k] == servers;
    }
  }

  // ---------------------------------------------------------------------
  // Independent description: which entries load, and what they become
  // ---------------------------------------------------------------------

  predicate QueryWellFormed(q: QueryEntry) { q.labelText.Some? && q.sql.Some? }

  /** An entry carries every key load_config requires of it. */
  predicate WellFormed(e: ServerEntry) {
    && e.name.Some?
    && (TypeOf(e) == "http" ==> e.metricsEndpoint.Some?)
    && (TypeOf(e) == "postgres" ==>
          e.dsn.Some? && forall i :: 0 <= i < |e.queries.GetOr([])| ==> QueryWellFormed(e.queries.GetOr([])[i]))
  }

  function Names(cs: seq<CollectorConfig>): (ns: seq<string>)
    ensures |ns| == |cs| && forall i :: 0 <= i < |cs| ==> ns[i] == cs[i].name
  {
    seq(|cs|, i requires 0 <= i < |cs| => cs[i].name)
  }

  /** The names of the well-formed entries of a known type, in order. */
  function KnownNames(servers: seq<ServerEntry>): seq<string>
    requires forall i :: 0 <= i < |servers| ==> servers[i].name.Some?
    decreases |servers|
  {
    if servers == [] then []
    else
      var last := servers[|servers| - 1];
      KnownNames(servers[..|servers| - 1]) + (if KnownType(TypeOf(last)) then [last.name.value] else [])
  }

  lemma {:induction false} LoadQueriesOk(qs: seq<QueryEntry>, poll: int)
    ensures LoadQueries(qs, poll).Ok? <==> forall i :: 0 <= i < |qs| ==> QueryWellFormed(qs[i])
    ensures LoadQueries(qs, poll).Ok? ==>
              forall i :: 0 <= i < |qs| ==>
                var q := LoadQueries(qs, poll).value[i];
                q.labelText == qs[i].labelText.value && q.sql == qs[i].sql.value
                && q.pollEvery == qs[i].pollEvery.GetOr(poll)
    decreases |qs|
  {
    if qs != [] {
      LoadQueriesOk(qs[1..], poll);
      assert forall i :: 1 <= i < |qs| ==> qs[i] == qs[1..][i - 1];
    }
  }

  /** An entry loads exactly when it is well-formed; an unknown type loads as nothing. */
  lemma BuildCollectorOk(e: ServerEntry)
    ensures BuildCollector(e).Ok? <==> WellFormed(e)
    ensures BuildCollector(e).Ok? ==> (BuildCollector(e).value.Some? <==> KnownType(TypeOf(e)))
    ensures BuildCollector(e).Ok? && BuildCollector(e).value.Some? ==>
              BuildCollector(e).value.value.name == e.name.value
              && BuildCollector(e).value.value.pollEvery == PollOf(e)
  {
    LoadQueriesOk(e.queries.GetOr([]), PollOf(e));
  }

  /** Loading succeeds exactly when every entry is well-formed, and then
      yields one collector per known-type entry, in configuration order. */
  lemma {:induction false} CollectorsOk(servers: seq<ServerEntry>)
    ensures Collectors(servers).Ok? <==> forall i :: 0 <= i < |servers| ==> WellFormed(servers[i])
    ensures Collectors(servers).Ok? ==> Names(Collectors(servers).value) == KnownNames(servers)
    decreases |servers|
  {
    if servers != [] {
      var prefix, last := servers[..|servers| - 1], servers[|servers| - 1];
      CollectorsOk(prefix);
      BuildCollectorOk(last);
      assert forall i :: 0 <= i < |prefix| ==> prefix[i] == servers[i];
      if Collectors(servers).Ok? {
        var cs := Collectors(prefix).value;
        assert Names(Collectors(servers).value) == Names(cs) + (if KnownType(TypeOf(last)) then [last.name.value] else []);
      }
    }
  }

  /** A failed load reports the first ill-formed entry's own error. */
  lemma {:induction false} CollectorsFirstError(servers: seq<ServerEntry>)
    requires Collectors(servers).Err?
    ensures exists k :: 0 <= k < |servers| && !WellFormed(servers[k])
              && (forall j :: 0 <= j < k ==> WellFormed(servers[j]))
              && BuildCollector(servers[k]) == Err(Collectors(servers).error)
    decreases |servers|
  {
    var prefix, last := servers[..|servers| - 1], servers[|servers| - 1];
    assert forall i :: 0 <= i < |prefix| ==> prefix[i] == servers[i];
    BuildCollectorOk(last);
    if Collectors(prefix).Err? {
      CollectorsFirstError(prefix);
      var k :| 0 <= k < |prefix| && !WellFormed(prefix[k])
               && (forall j :: 0 <= j < k ==> WellFormed(prefix[j]))
               && BuildCollector(prefix[k]) == Err(Collectors(prefix).error);
      assert servers[k] == prefix[k];
    } else {
      CollectorsOk(prefix);
      var k := |servers| - 1;
      assert !WellFormed(servers[k]) && BuildCollector(servers[k]) == Err(Collectors(servers).error);
    }
  }

  /** The defaults: type "http", poll period 5, Redis at localhost:6379,
      `system_stats` true, and a query polled as often as its server. */
  lemma Defaults(name: string, endpoint: string, dsn: string, q: QueryEntry)
    requires QueryWellFormed(q) && q.pollEvery.None?
    ensures BuildCollector(ServerEntry(name := Some(name), metricsEndpoint := Some(endpoint)))
            == Ok(Some(Http(name, endpoint, 5)))
    ensures BuildCollector(ServerEntry(name := Some(name), serverType := Some("redis")))
            == Ok(Some(Redis(name, "localhost", 6379, 5)))
    ensures var e := ServerEntry(name := Some(name), serverType := Some("postgres"), pollEvery := Some(30),
                                 dsn := Some(dsn), queries := Some([q]));
            BuildCollector(e).Ok? && BuildCollector(e).value.Some?
            && BuildCollector(e).value.value.systemStats
            && BuildCollector(e).value.value.queries[0].pollEvery == 30
  {
    assert [q][1..] == [];
    assert LoadQueries([], 30) == Ok([]);
    assert [LoadQuery(q, 30).value] + [] == [LoadQuery(q, 30).value];
    assert LoadQueries([q], 30) == Ok([LoadQuery(q, 30).value]);
  }
}
