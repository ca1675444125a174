/** collectors/postgres_collector.py: assembles system metrics from the
    pg_stat_database row and the database size, then runs each configured
    custom query with its own error isolation. The database is not modelled:
    every statement's outcome is an input. */
module PostgresCollector {
  import opened Wrappers
  import opened Base
  import Text

  datatype CustomQuery = CustomQuery(
    labelText: string,
    sql: string,
    color: Option<string> := None,
    warnAbove: Option<real> := None,
    warnBelow: Option<real> := None,
    pollEvery: int := 15)   // stored, never read by Collect

  datatype Collector = Collector(name: string, dsn: string, pollEvery: int := 15, queries: seq<CustomQuery> := [])

  /** A statement's outcome: its result, or str() of the exception it raised. */
  datatype Fetch<T> = Fetched(value: T) | Raised(message: string)

  /** The pg_stat_database columns that Collect reads. */
  datatype StatsRow = StatsRow(
    numbackends: int, xactCommit: int, xactRollback: int,
    blksRead: nat, blksHit: nat, deadlocks: int, tempFiles: int)

  /** A result row: its columns, named, in order. */
  datatype Row = Row(columns: seq<(string, Value)>)

  /** The answers of one open connection, statement by statement. `version`
      and `uptime` are the scalar queries (None is SQL NULL), `stats` the
      pg_stat_database row (None when there is none), `size` the database
      size, `run(i)` what the `i`-th custom query's `fetchrow` gave (each
      call has its own answer, even for the same SQL), `close` is closing. */
  datatype Session = Session(
    version: Fetch<Option<string>>,
    uptime: Fetch<Option<int>>,
    stats: Fetch<Option<StatsRow>>,
    size: Fetch<Option<nat>>,
    run: nat -> Fetch<Option<Row>>,
    close: Fetch<()>)

  datatype Connection = ConnectFailed(message: string) | Connected(session: Session)

  const BytesPerMB: real := 1048576.0

  // ---------------------------------------------------------------------
  // Metric key of a custom query
  // ---------------------------------------------------------------------

  function LowerChar(c: char): char {
    if 'A' <= c <= 'Z' then (c as int + 32) as char else c
  }

  /** `s.lower()` on ASCII letters. */
  function Lower(s: string): (r: string)
    ensures |r| == |s|
  {
    if s == [] then [] else [LowerChar(s[0])] + Lower(s[1..])
  }

  /** `s.replace(a, b)` for single characters. */
  function Replace(s: string, a: char, b: char): (r: string)
    ensures |r| == |s|
  {
    if s == [] then [] else [if s[0] == a then b else s[0]] + Replace(s[1..], a, b)
  }

  /** `s.replace(a, "")` */
  function Remove(s: string, a: char): (r: string)
    ensures |r| <= |s|
  {
    if s == [] then [] else (if s[0] == a then [] else [s[0]]) + Remove(s[1..], a)
  }

  /** The metric key of a custom query:
      `caption.lower().replace(" ", "_").replace("(", "").replace(")", "")`. */
  function Slug(caption: string): string {
    Remove(Remove(Replace(Lower(caption), ' ', '_'), '('), ')')
  }

  /** What one caption character becomes in the key. */
  function SlugChar(c: char): string {
    if c == '(' || c == ')' then [] else if c == ' ' then "_" else [LowerChar(c)]
  }

  /** The key character by character. */
  function SlugByChar(s: string): string {
    if s == [] then [] else SlugChar(s[0]) + SlugByChar(s[1..])
  }

  lemma {:induction false} SlugIsByChar(s: string)
    ensures Slug(s) == SlugByChar(s)
    decreases |s|
  {
    if s != [] {
      SlugIsByChar(s[1..]);
      var l := Lower(s);
      assert l == [LowerChar(s[0])] + Lower(s[1..]);
      var p := Replace(l, ' ', '_');
      assert p[0] == (if LowerChar(s[0]) == ' ' then '_' else LowerChar(s[0]));
      assert l[1..] == Lower(s[1..]);
      assert p[1..] == Replace(Lower(s[1..]), ' ', '_');
      var q := Remove(p, '(');
      assert q == (if p[0] == '(' then [] else [p[0]]) + Remove(p[1..], '(');
      var tq := Remove(p[1..], '(');
      if p[0] == '(' {
        assert q == tq;
      } else {
        assert q[0] == p[0] && q[1..] == tq;
      }
    }
  }

  lemma {:induction false} SlugByCharAppend(a: string, b: string)
    ensures SlugByChar(a + b) == SlugByChar(a) + SlugByChar(b)
    decreases |a|
  {
    if a == [] {
      assert a + b == b;
    } else {
      assert (a + b)[0] == a[0] && (a + b)[1..] == a[1..] + b;
      SlugByCharAppend(a[1..], b);
    }
  }

  /** A key holds no space, no parenthesis and no upper-case ASCII letter. */
  lemma {:induction false} SlugClean(caption: string)
    ensures var k := Slug(caption);
      forall i :: 0 <= i < |k| ==> k[i] != ' ' && k[i] != '(' && k[i] != ')' && !('A' <= k[i] <= 'Z')
    decreases |caption|
  {
    SlugIsByChar(caption);
    if caption != [] {
      SlugClean(caption[1..]);
      SlugIsByChar(caption[1..]);
    }
  }

  /** Slugging a key again changes nothing. */
  lemma {:induction false} SlugIdempotent(caption: string)
    ensures Slug(Slug(caption)) == Slug(caption)
  {
    SlugIsByChar(caption);
    SlugIsByChar(Slug(caption));
    SlugByCharTwice(caption);
  }

  lemma {:induction false} SlugByCharTwice(s: string)
    ensures SlugByChar(SlugByChar(s)) == SlugByChar(s)
    decreases |s|
  {
    if s != [] {
      SlugByCharAppend(SlugChar(s[0]), SlugByChar(s[1..]));
      SlugByCharTwice(s[1..]);
      var c := s[0];
      if c != '(' && c != ')' && c != ' ' {
        assert SlugByChar([LowerChar(c)]) == [LowerChar(c)] by {
          assert [LowerChar(c)][1..] == [];
        }
      } else if c == ' ' {
        assert SlugByChar("_") == "_" by {
          assert "_"[1..] == [];
        }
      }
    }
  }

  // ---------------------------------------------------------------------
  // The metrics of one successful poll
  // ---------------------------------------------------------------------

  /** The value of the first column called `name`, if there is one. */
  function Column(cols: seq<(string, Value)>, name: string): (v: Option<Value>)
    ensures v.Some? <==> exists i :: 0 <= i < |cols| && cols[i].0 == name
    ensures v.Some? ==> exists i :: 0 <= i < |cols| && cols[i] == (name, v.value)
                                    && forall j :: 0 <= j < i ==> cols[j].0 != name
  {
    if cols == [] then None
    else if cols[0].0 == name then Some(cols[0].1)
    else
      var v := Column(cols[1..], name);
      if v.Some? then
        ghost var i :| 0 <= i < |cols| - 1 && cols[1..][i] == (name, v.value)
                       && forall j :: 0 <= j < i ==> cols[1..][j].0 != name;
        assert cols[i + 1] == (name, v.value);
        assert forall j :: 0 <= j < i + 1 ==> cols[j].0 != name by {
          forall j | 0 <= j < i + 1 ensures cols[j].0 != name {
            if j > 0 { assert cols[j] == cols[1..][j - 1]; }
          }
        }
        v
      else
        assert forall i :: 0 < i < |cols| ==> cols[i] == cols[1..][i - 1];
        v
  }

  /** `row.get("value", row[0])`: the "value" column when there is one, else
      the first column. */
  function RowValue(row: Row): Value
    requires |row.columns| > 0
  {
    Column(row.columns, "value").GetOr(row.columns[0].1)
  }

  /** `round(blks_hit / total * 100, 2)` */
  function CacheHitRate(st: StatsRow): real
    requires st.blksHit + st.blksRead > 0
  {
    Text.Round(st.blksHit as real / (st.blksHit + st.blksRead) as real * 100.0, 2)
  }

  /** `round(db_size / 1_048_576, 1)` */
  function SizeInMB(size: nat): real {
    Text.Round(size as real / BytesPerMB, 1)
  }

  /** The metrics drawn from the pg_stat_database row. */
  function StatsMetrics(stats: Option<StatsRow>): seq<MetricItem> {
    if stats.None? then []
    else
      var st := stats.value;
      [ MetricItem("active_connections", "Active Connections", IntV(st.numbackends), "conns", warnAbove := Some(50.0)),
        MetricItem("transactions_committed", "Txn Committed", IntV(st.xactCommit), "count"),
        MetricItem("transactions_rolled_back", "Txn Rolled Back", IntV(st.xactRollback), "count", warnAbove := Some(100.0)) ]
      + (if st.blksHit + st.blksRead > 0
         then [MetricItem("cache_hit_rate", "Cache Hit Rate", RealV(CacheHitRate(st)), "%", warnBelow := Some(99.0))]
         else [])
      + [ MetricItem("deadlocks", "Deadlocks", IntV(st.deadlocks), "count", warnAbove := Some(0.0)),
          MetricItem("temp_files", "Temp Files", IntV(st.tempFiles), "count", warnAbove := Some(100.0)) ]
  }

  /** The database-size metric, present only for a non-zero size. */
  function SizeMetrics(size: Option<nat>): seq<MetricItem> {
    if size.Some? && size.value != 0
    then [MetricItem("db_size_mb", "Database Size", RealV(SizeInMB(size.value)), "MB")]
    else []
  }

  /** What one custom query adds: its metric, an error metric, or nothing
      when it returns no row (or an empty one). */
  function QueryMetric(q: CustomQuery, outcome: Fetch<Option<Row>>): seq<MetricItem> {
    match outcome
    case Raised(e) => [MetricItem("query_error_" + q.labelText, q.labelText + " (error)", StrV(e))]
    case Fetched(row) =>
      if row.Some? && |row.value.columns| > 0
      then [MetricItem(Slug(q.labelText), q.labelText, RowValue(row.value), "count", q.color, q.warnAbove, q.warnBelow)]
      else []
  }

  /** The custom-query metrics, query by query in configured order; query
      `i` gets the answer `run(i)`. */
  function QueryMetrics(qs: seq<CustomQuery>, run: nat -> Fetch<Option<Row>>): seq<MetricItem>
    decreases |qs|
  {
    if qs == [] then []
    else QueryMetrics(qs[..|qs| - 1], run) + QueryMetric(qs[|qs| - 1], run(|qs| - 1))
  }

  /** The answers from the `n`-th custom query on, counted from 0. */
  function Shift(run: nat -> Fetch<Option<Row>>, n: nat): nat -> Fetch<Option<Row>> {
    (i: nat) => run(n + i)
  }

  /** The first statement outside the custom queries that raised, if any. */
  function FirstFailure(s: Session): Option<string> {
    if s.version.Raised? then Some(s.version.message)
    else if s.uptime.Raised? then Some(s.uptime.message)
    else if s.stats.Raised? then Some(s.stats.message)
    else if s.size.Raised? then Some(s.size.message)
    else if s.close.Raised? then Some(s.close.message)
    else None
  }

  /** `str(version_row) if version_row else ""` */
  function VersionText(v: Option<string>): string { v.GetOr("") }

  /** `int(uptime_row) if uptime_row else 0` */
  function UptimeValue(u: Option<int>): int { u.GetOr(0) }

  // ---------------------------------------------------------------------
  // collect
  // ---------------------------------------------------------------------

  /** `PostgresCollector.collect`. A failed connect gives "Connect failed: "
      and the reason; any later failure outside a custom query gives its text;
      both with no metrics and `reachable` false. Otherwise the system
      metrics, the size metric and the custom-query metrics, in that order,
      with no error. */
  method Collect(c: Collector, conn: Connection) returns (r: CollectorResult)
    ensures conn.ConnectFailed? ==>
              r == CollectorResult(ServerInfo(c.name), [], Some("Connect failed: " + conn.message), false)
    ensures conn.Connected? && FirstFailure(conn.session).Some? ==>
              r == CollectorResult(ServerInfo(c.name), [], FirstFailure(conn.session), false)
    ensures conn.Connected? && FirstFailure(conn.session).None? ==>
              var s := conn.session;
              r == CollectorResult(
                     ServerInfo(c.name, VersionText(s.version.value), UptimeValue(s.uptime.value)),
                     StatsMetrics(s.stats.value) + SizeMetrics(s.size.value) + QueryMetrics(c.queries, s.run))
  {
    if conn.ConnectFailed? {
      return CollectorResult(ServerInfo(c.name), [], Some("Connect failed: " + conn.message), false);
    }
    var s := conn.session;

    if s.version.Raised? {
      assert FirstFailure(s) == Some(s.version.message);
      return CollectorResult(ServerInfo(c.name), [], Some(s.version.message), false);
    }
    var version := if s.version.value.Some? then s.version.value.value else "";

    if s.uptime.Raised? {
      assert FirstFailure(s) == Some(s.uptime.message);
      return CollectorResult(ServerInfo(c.name), [], Some(s.uptime.message), false);
    }
    var uptime := if s.uptime.value.Some? then s.uptime.value.value else 0;

    if s.stats.Raised? {
      assert FirstFailure(s) == Some(s.stats.message);
      return CollectorResult(ServerInfo(c.name), [], Some(s.stats.message), false);
    }
    var metrics := AppendStats([], s.stats.value);
    ghost var stats := StatsMetrics(s.stats.value);
    assert metrics == stats;

    if s.size.Raised? {
      assert FirstFailure(s) == Some(s.size.message);
      return CollectorResult(ServerInfo(c.name), [], Some(s.size.message), false);
    }
    metrics := AppendSize(metrics, s.size.value);
    ghost var size := SizeMetrics(s.size.value);
    assert metrics == stats + size;

    metrics := AppendQueries(metrics, c.queries, s.run);
    assert metrics == stats + size + QueryMetrics(c.queries, s.run);

    if s.close.Raised? {
      assert FirstFailure(s) == Some(s.close.message);
      return CollectorResult(ServerInfo(c.name), [], Some(s.close.message), false);
    }
    return CollectorResult(ServerInfo(c.name, version, uptime), metrics);
  }

  /** Appends the metrics of the pg_stat_database row, if there is one, in the source's order. */
  method AppendStats(metrics: seq<MetricItem>, stats: Option<StatsRow>) returns (ms: seq<MetricItem>)
    ensures ms == metrics + StatsMetrics(stats)
  {
    ms := metrics;
    if stats.None? {
      return;
    }
    var st := stats.value;
    ms := ms + [MetricItem("active_connections", "Active Connections", IntV(st.numbackends), "conns", warnAbove := Some(50.0))];
    ms := ms + [MetricItem("transactions_committed", "Txn Committed", IntV(st.xactCommit), "count")];
    ms := ms + [MetricItem("transactions_rolled_back", "Txn Rolled Back", IntV(st.xactRollback), "count", warnAbove := Some(100.0))];
    var total := st.blksHit + st.blksRead;
    if total > 0 {
      var hitRate := Text.Round(st.blksHit as real / total as real * 100.0, 2);
      ms := ms + [MetricItem("cache_hit_rate", "Cache Hit Rate", RealV(hitRate), "%", warnBelow := Some(99.0))];
    }
    ms := ms + [MetricItem("deadlocks", "Deadlocks", IntV(st.deadlocks), "count", warnAbove := Some(0.0))];
    ms := ms + [MetricItem("temp_files", "Temp Files", IntV(st.tempFiles), "count", warnAbove := Some(100.0))];
  }

  /** Appends the database size in MB when the size query returned a non-zero size. */
  method AppendSize(metrics: seq<MetricItem>, size: Option<nat>) returns (ms: seq<MetricItem>)
    ensures ms == metrics + SizeMetrics(size)
  {
    ms := metrics;
    if size.Some? && size.value != 0 {
      ms := ms + [MetricItem("db_size_mb", "Database Size", RealV(SizeInMB(size.value)), "MB")];
    }
  }

  /** Runs the custom queries in order, each in its own error scope: a query
      that raises adds an error metric and the next one still runs. */
  method AppendQueries(metrics: seq<MetricItem>, queries: seq<CustomQuery>, run: nat -> Fetch<Option<Row>>)
    returns (ms: seq<MetricItem>)
    ensures ms == metrics + QueryMetrics(queries, run)
  {
    ms := metrics;
    for i := 0 to |queries|
      invariant ms == metrics + QueryMetrics(queries[..i], run)
    {
      var q := queries[i];
      QueryMetricsSnoc(queries, run, i);
      ghost var before := ms;
      match run(i) {
        case Raised(e) =>
          ms := ms + [MetricItem("query_error_" + q.labelText, q.labelText + " (error)", StrV(e))];
        case Fetched(row) =>
          if row.Some? && |row.value.columns| > 0 {
            var val := RowValue(row.value);
            ms := ms + [MetricItem(Slug(q.labelText), q.labelText, val, "count", q.color, q.warnAbove, q.warnBelow)];
          }
      }
      assert ms == before + QueryMetric(q, run(i));
    }
    assert queries[..|queries|] == queries;
  }

  lemma QueryMetricsSnoc(qs: seq<CustomQuery>, run: nat -> Fetch<Option<Row>>, i: nat)
    requires i < |qs|
    ensures QueryMetrics(qs[..i + 1], run) == QueryMetrics(qs[..i], run) + QueryMetric(qs[i], run(i))
  {
    assert qs[..i + 1][..i] == qs[..i];
  }

  // ---------------------------------------------------------------------
  // Properties of the metric lists
  // ---------------------------------------------------------------------

  /** The system metrics appear in a fixed order; the cache hit rate only
      when some block was read or hit. */
  lemma StatsMetricKeys(st: StatsRow)
    ensures KeysOf(StatsMetrics(Some(st)), ItemKey) ==
      ["active_connections", "transactions_committed", "transactions_rolled_back"]
      + (if st.blksHit + st.blksRead > 0 then ["cache_hit_rate"] else [])
      + ["deadlocks", "temp_files"]
  {
  }

  /** The cache hit rate is a percentage and warns below 99. */
  lemma CacheHitRateBounds(st: StatsRow)
    requires st.blksHit + st.blksRead > 0
    ensures var m := StatsMetrics(Some(st))[3];
      m.key == "cache_hit_rate" && m.warnBelow == Some(99.0)
      && m.value.RealV? && 0.0 <= m.value.r <= 100.0
  {
    var total := st.blksHit + st.blksRead;
    assert st.blksHit as real / total as real <= 1.0;
    Text.RoundAtMost(st.blksHit as real / total as real * 100.0, 2, 100);
  }

  /** Queries are isolated: the metrics of two batches of queries are the
      metrics of each batch, one after the other, the second batch getting
      the answers after the first's. */
  lemma {:induction false} QueryMetricsAppend(a: seq<CustomQuery>, b: seq<CustomQuery>, run: nat -> Fetch<Option<Row>>)
    ensures QueryMetrics(a + b, run) == QueryMetrics(a, run) + QueryMetrics(b, Shift(run, |a|))
    decreases |b|
  {
    if b == [] {
      assert a + b == a;
    } else {
      var b' := b[..|b| - 1];
      assert (a + b)[..|a + b| - 1] == a + b';
      assert (a + b)[|a + b| - 1] == b[|b| - 1];
      assert Shift(run, |a|)(|b| - 1) == run(|a + b| - 1);
      QueryMetricsAppend(a, b', run);
    }
  }

  /** Each query adds at most one metric, and a failing one adds exactly its
      error metric: key "query_error_<caption>", caption "<caption> (error)". */
  lemma QueryMetricShape(q: CustomQuery, outcome: Fetch<Option<Row>>)
    ensures |QueryMetric(q, outcome)| <= 1
    ensures outcome.Raised? ==>
              QueryMetric(q, outcome) == [MetricItem("query_error_" + q.labelText, q.labelText + " (error)", StrV(outcome.message))]
    ensures outcome.Fetched? && (outcome.value.None? || outcome.value.value.columns == []) ==> QueryMetric(q, outcome) == []
    ensures outcome.Fetched? && outcome.value.Some? && outcome.value.value.columns != [] ==>
              var m := QueryMetric(q, outcome)[0];
              m.key == Slug(q.labelText) && m.labelText == q.labelText && m.unit == "count"
              && m.color == q.color && m.warnAbove == q.warnAbove && m.warnBelow == q.warnBelow
  {
  }

  /** Whether an answer adds a metric: it raised or returned a non-empty row. */
  predicate Counts(o: Fetch<Option<Row>>) {
    o.Raised? || (o.value.Some? && o.value.value.columns != [])
  }

  /** The number of the first `n` answers that add a metric. */
  function Answered(run: nat -> Fetch<Option<Row>>, n: nat): nat {
    if n == 0 then 0 else Answered(run, n - 1) + (if Counts(run(n - 1)) then 1 else 0)
  }

  /** One custom-query metric per query that raised or returned a non-empty row. */
  lemma {:induction false} QueryMetricsCount(qs: seq<CustomQuery>, run: nat -> Fetch<Option<Row>>)
    ensures |QueryMetrics(qs, run)| == Answered(run, |qs|)
    decreases |qs|
  {
    if qs != [] {
      QueryMetricShape(qs[|qs| - 1], run(|qs| - 1));
      QueryMetricsCount(qs[..|qs| - 1], run);
    }
  }

  /** A failing query adds only its error metric: the queries before it and
      after it keep their own metrics, each with its own answer. */
  lemma FailingQueryIsIsolated(qs: seq<CustomQuery>, run: nat -> Fetch<Option<Row>>, k: nat)
    requires k < |qs| && run(k).Raised?
    ensures QueryMetrics(qs, run) ==
              QueryMetrics(qs[..k], run)
              + [MetricItem("query_error_" + qs[k].labelText, qs[k].labelText + " (error)", StrV(run(k).message))]
              + QueryMetrics(qs[k + 1..], Shift(run, k + 1))
  {
    var pre, post := qs[..k + 1], qs[k + 1..];
    assert pre + post == qs;
    QueryMetricsAppend(pre, post, run);
    QueryMetricsSnoc(qs, run, k);
    QueryMetricShape(qs[k], run(k));
  }
}
