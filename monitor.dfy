/** monitor.py's `load_config`: walks the `servers` list appending one
    collector per known-type server. Reading the file, the YAML parser and the
    printed warning for an unknown type are not modelled. */
module Monitor {
  import opened Wrappers
  import opened Config

  /** The result of the loop over `config.get("servers", [])` (None: no such key). */
  method LoadConfig(servers: Option<seq<ServerEntry>>) returns (r: Result<seq<CollectorConfig>, LoadError>)
    ensures r == Collectors(servers.GetOr([]))
  {
    var entries := servers.GetOr([]);
    var collectors: seq<CollectorConfig> := [];
    for i := 0 to |entries|
      invariant Collectors(entries[..i]) == Ok(collectors)
    {
      var srv := entries[i];
      assert entries[..i + 1][..i] == entries[..i] && entries[..i + 1][i] == srv;
      var built := LoadEntry(srv);
      if built.Err? {
        ErrorPersists(entries, i + 1);
        return Err(built.error);
      }
      if built.value.Some? {
        collectors := collectors + [built.value.value];
      }
    }
    assert entries[..|entries|] == entries;
    return Ok(collectors);
  }

  /** The loop body for one server entry, lookups in the source's order: the
      statement form of `Config.BuildCollector`, which its contract equates it with. */
  method LoadEntry(srv: ServerEntry) returns (r: Result<Option<CollectorConfig>, LoadError>)
    ensures r == BuildCollector(srv)
  {
    if srv.name.None? {
      return Err(MissingKey("name"));
    }
    var name := srv.name.value;
    var stype := srv.serverType.GetOr("http");
    var poll := srv.pollEvery.GetOr(5);

    if stype == "http" {
      if srv.metricsEndpoint.None? {
        return Err(MissingKey("metrics_endpoint"));
      }
      r := Ok(Some(Http(name, srv.metricsEndpoint.value, poll)));
    } else if stype == "redis" {
      r := Ok(Some(Redis(name, srv.host.GetOr("localhost"), srv.port.GetOr(6379), poll)));
    } else if stype == "postgres" {
      var queries := LoadQueries(srv.queries.GetOr([]), poll);
      if queries.Err? {
        return Err(queries.error);
      }
      if srv.dsn.None? {
        return Err(MissingKey("dsn"));
      }
      r := Ok(Some(Postgres(name, srv.dsn.value, poll, srv.systemStats.GetOr(true), queries.value)));
    } else {
      r := Ok(None);
    }
  }
}
