# server-monitor, modelled in Dafny

server-monitor polls heterogeneous servers and shows what it finds. The servers are
HTTP services exposing `GET /metrics`, Redis and PostgreSQL. It has two front ends: a
terminal dashboard (`monitor.py`) and a web dashboard (`web.py`). This project models
the deterministic core between the raw answers of those servers and what the dashboards
show:

- the metric records and their two colour rules (`display_color`, `compute_color`);
- value formatting: comma-grouped integers, `,.1f` floats and Python's `round()`;
- the sparkline and the one-line metric row;
- the server card's three views;
- the three collectors, each mapping an I/O outcome to a metric list;
- the two `load_config`s, which turn the `servers` list of servers.yaml into collector
  descriptions;
- the web dashboard's shared state: one poll step, `/api/status` and `/metrics`.

Every network, database and clock access is an input. The collectors take an outcome
datatype: an HTTP outcome, a Redis INFO reply or failure, and a PostgreSQL session whose
statements each either answer or raise. Each custom query's call has its own answer, by
position, so two queries with the same SQL may answer differently. Python dictionaries with optional keys are
records of `Option` fields. Python's `int | float | str` metric values are the
`Value` datatype.

Modules, one per source file plus two helpers:

| file | module | models |
|---|---|---|
| wrappers.dfy | `Wrappers` | `Option` and `Result` |
| text.dfy | `Text` | `f"{n:,}"`, `f"{x:,.1f}"`, `round(x, n)`, `f"{s:<w}"`, `"\n".join`, each with a reading-back function or a bound |
| base.dfy | `Base` | collectors/base.py |
| metric_dicts.dfy | `MetricDicts` | the metric and result dictionaries exchanged as JSON |
| metric_row.dfy | `MetricRow` | ui/widgets/metric_row.py |
| server_card.dfy | `ServerCard` | ui/widgets/server_card.py |
| http_collector.dfy | `HttpCollector` | collectors/http_collector.py |
| redis_collector.dfy | `RedisCollector` | collectors/redis_collector.py |
| postgres_collector.dfy | `PostgresCollector` | collectors/postgres_collector.py |
| config.dfy | `Config` | what both `load_config`s compute, as functions |
| monitor.dfy | `Monitor` | monitor.py's `load_config` loop |
| web.dfy | `Web` | web.py |

Python's float formatting and `round()` are correctly rounded, with ties to even. Both
are modelled on the exact real value: `Text.RoundHalfEven` and `Text.Round`.

## Model

| member | source | states |
|---|---|---|
| Base.Defaults | collectors/base.py:9-53 | a metric's unit is "", its colour and thresholds are absent and its sparkline empty; a result has no error and is reachable; server info has version "" and uptime 0 |
| Base.DisplayColor | collectors/base.py:20-30 | a truthy explicit colour is returned as is; otherwise a numeric value strictly above `warn_above` or strictly below `warn_below` is red; a value on a threshold, or a string value, is green |
| Base.DisplayValue | collectors/base.py:32-38 | a string shows as itself; an int reads back to the same int with commas removed; a float reads back to a number within 0.05 of it |
| Text.GroupedReadsBack | collectors/base.py:37 | a comma-grouped natural starts with a digit and reads back to itself |
| Text.FormatIntRoundTrip | collectors/base.py:36-37 | `f"{i:,}"` parses back to `i`: a sign for negatives, then digit groups of three separated by commas |
| Text.GroupedShape | ui/widgets/metric_row.py:46-47 | the digits of `f"{n:,}"` have a comma exactly every fourth position from the right |
| Text.DecimalRoundTrip | ui/widgets/metric_row.py:46-47 | the decimal digits of `n` denote `n` |
| Text.FormatFixed1Denotes | ui/widgets/metric_row.py:44-45 | `f"{x:,.1f}"` denotes a multiple of 0.1 within 0.05 of `x` |
| Text.RoundHalfEven | ui/widgets/metric_row.py:44-45 | the nearest integer, within 0.5, and even on a tie |
| Text.RoundedUnits | collectors/redis_collector.py:79 | `round(x, n)` counted in units of 10^-n is within half a unit of `x` |
| Text.Round | collectors/postgres_collector.py:109 | `round(x, n)` is non-negative for non-negative `x` and is a whole number of units of 10^-n |
| Text.RoundAtMost | collectors/postgres_collector.py:109 | rounding a value in [0, hi] for a whole `hi` keeps it at most `hi` |
| Text.PadRight | ui/widgets/metric_row.py:67 | `f"{s:<w}"` is `s` followed by spaces, of length max(\|s\|, w) |
| Text.SplitJoinLines | ui/widgets/server_card.py:35 | splitting `"\n".join(parts)` at newlines gives back `parts` when no part holds a newline |
| MetricRow.ComputeColor | ui/widgets/metric_row.py:25-39 | the colour is always in VALID_COLORS; a valid explicit colour wins; otherwise red or green, and green for a non-numeric value |
| MetricRow.ComputeColorThresholds | ui/widgets/metric_row.py:31-39 | with no valid explicit colour and a numeric value: red if and only if a threshold is strictly crossed |
| MetricRow.ColorVariantsAgree | ui/widgets/metric_row.py:27-29 | the two colour rules agree except on a truthy explicit colour outside VALID_COLORS, which `compute_color` ignores |
| MetricRow.LastWindow | ui/widgets/metric_row.py:15 | `values[-20:]` has min(\|values\|, 20) elements and is a suffix of `values` |
| MetricRow.Min | ui/widgets/metric_row.py:16 | the minimum is at most every value and is one of them |
| MetricRow.Max | ui/widgets/metric_row.py:17 | the maximum is at least every value and is one of them |
| MetricRow.GlyphIndex | ui/widgets/metric_row.py:20 | the clamped glyph index is in 0..7 |
| MetricRow.GlyphIndexIsTruncation | ui/widgets/metric_row.py:20 | the glyph index is `min(int((v - lo) / span * 7), 7)`, truncation being the floor for the non-negative scaled value |
| MetricRow.LevelIsFloor | ui/widgets/metric_row.py:20 | counting up whole steps below a non-negative `x` gives `min(floor(x), 7)` |
| MetricRow.Sparkline | ui/widgets/metric_row.py:11-22 | one bar per value of the last twenty; "" exactly for no values |
| MetricRow.SparklineGlyphs | ui/widgets/metric_row.py:11-22 | every bar lies between U+2581 and U+2588 |
| MetricRow.SparklineUsesLastTwenty | ui/widgets/metric_row.py:15 | only the last twenty values decide the sparkline |
| MetricRow.SparklineOrdered | ui/widgets/metric_row.py:16-21 | a smaller value never gets a higher bar |
| MetricRow.SparklineMinimumIsLowest | ui/widgets/metric_row.py:16-21 | the minimum of the shown values gets the lowest bar |
| MetricRow.SparklineFlat | ui/widgets/metric_row.py:18-21 | when all values are equal, every bar is the lowest |
| MetricRow.SparklineMaximumIsHighest | ui/widgets/metric_row.py:17-21 | when some shown value differs from the largest one, the largest gets the full bar |
| MetricRow.FormatValueReadsBack | ui/widgets/metric_row.py:42-48 | a string shows as itself; an int reads back to itself; a float reads back to within 0.05 |
| MetricRow.RowLabel | ui/widgets/metric_row.py:57 | the label falls back to the key, then to "?" |
| MetricRow.RenderMetricRowLayout | ui/widgets/metric_row.py:51-67 | a row starts with the padded label, colour tag and value; the unit follows after a space only when non-empty; the sparkline part is present only for a non-empty history; the row's length follows from these parts |
| ServerCard.UrlLines | ui/widgets/server_card.py:33-34 | the URL line is present if and only if the URL is non-empty |
| ServerCard.Render | ui/widgets/server_card.py:27-58 | no result: the waiting line and the optional URL line; an error with no metrics: the red header and URL line only; otherwise a green header carrying any error in yellow, the URL line, then exactly one row per metric in order (`ServerCard.Rows`); the text is the lines joined by newlines |
| ServerCard.AppendEach | ui/widgets/server_card.py:55-56 | the loop appends, in order, the rendered row of each metric after the lines already there |
| ServerCard.RowsAt | ui/widgets/server_card.py:55-56 | there is one row per metric, and row `k` is metric `k` rendered |
| HttpCollector.Collect | collectors/http_collector.py:15-29 | a connect error gives "Connection refused"; any other failure (transport, non-2xx status, bad JSON, a JSON non-object) gives its message; every error comes with no metrics; there is no error exactly when a 2xx JSON object arrived, whose `metrics` are passed on unchanged (or [] when absent) |
| RedisCollector.FixedMetrics | collectors/redis_collector.py:24-69 | the seven metrics every successful poll starts with |
| RedisCollector.PollKeys | collectors/redis_collector.py:24-90 | a successful poll has 9 metric keys with a hit rate and 8 without, all distinct |
| RedisCollector.Collect | collectors/redis_collector.py:16-90 | a failure gives no metrics and its message; otherwise no error, the keys are exactly `PollKeys`: the seven fixed metrics in order (missing fields read as 0), then exactly when there were lookups the hit-rate metric (`round(hits / (hits + misses) * 100, 1)`, label "Hit Rate", unit "%", warn_below 90), then the role metric (label "Role", value the role or "unknown", no unit) last |
| RedisCollector.HitRateBounds | collectors/redis_collector.py:74-83 | the hit rate lies in [0, 100] and warns below 90 |
| RedisCollector.HitRateAtMostHundred | collectors/redis_collector.py:79 | hits over lookups times 100 is at most 100 |
| PostgresCollector.Collect | collectors/postgres_collector.py:34-196 | a failed connect gives "Connect failed: " plus the reason; any later failure outside a custom query gives its message; both with no metrics and not reachable; otherwise version and uptime (defaults "" and 0), then the stats metrics, the size metric and the custom-query metrics in that order, with no error |
| PostgresCollector.AppendStats | collectors/postgres_collector.py:76-137 | appends the pg_stat_database metrics, or nothing when no row came back |
| PostgresCollector.AppendSize | collectors/postgres_collector.py:139-151 | appends `db_size_mb` only when the size query returned a non-zero size |
| PostgresCollector.AppendQueries | collectors/postgres_collector.py:154-177 | runs every custom query in order, the `i`-th query getting the `i`-th call's answer, each in its own error scope |
| PostgresCollector.StatsMetricKeys | collectors/postgres_collector.py:76-137 | stats metrics come in the order active_connections, transactions_committed, transactions_rolled_back, [cache_hit_rate when blocks were read or hit], deadlocks, temp_files |
| PostgresCollector.CacheHitRateBounds | collectors/postgres_collector.py:104-118 | the cache hit rate lies in [0, 100] and warns below 99 |
| PostgresCollector.Column | collectors/postgres_collector.py:158 | a column named "value" is found if and only if one exists, and the first one is taken |
| PostgresCollector.SlugIsByChar | collectors/postgres_collector.py:161 | the metric key maps each label character on its own: parentheses vanish, a space becomes "_", letters are lowered |
| PostgresCollector.SlugClean | collectors/postgres_collector.py:161 | a key holds no space, parenthesis or upper-case ASCII letter |
| PostgresCollector.SlugIdempotent | collectors/postgres_collector.py:161 | making a key of a key changes nothing |
| PostgresCollector.QueryMetricShape | collectors/postgres_collector.py:155-177 | a query adds at most one metric: the error metric `query_error_<label>` / `<label> (error)` when it raises, nothing for no row, else its value metric under the slug key with unit "count" and the query's colour and thresholds |
| PostgresCollector.QueryMetricsAppend | collectors/postgres_collector.py:154-177 | queries are independent: the metrics of two batches are those of each batch in turn, each query keeping its own answer |
| PostgresCollector.QueryMetricsCount | collectors/postgres_collector.py:154-177 | one metric per query whose call raised or returned a row |
| PostgresCollector.FailingQueryIsIsolated | collectors/postgres_collector.py:170-177 | a failing query contributes only its error metric; the queries before and after it keep theirs |
| Config.LoadQueries | web.py:66-76 | every query loads when they all do |
| Config.LoadQueriesOk | web.py:66-76 | the queries load if and only if each has a label and sql; a query's poll period defaults to its server's |
| Config.BuildCollectorOk | web.py:41-87 | an entry loads if and only if it has a name and its type's required keys; it yields a collector if and only if its type is known, with its name and poll period (default 5) |
| Config.CollectorsOk | web.py:40-89 | loading succeeds if and only if every entry is well-formed, and then yields one collector per known-type entry, in configuration order |
| Config.CollectorsFirstError | web.py:40-89 | a failed load reports the error of the first ill-formed entry |
| Config.ErrorPersists | web.py:40-41 | once an entry fails, later entries change nothing |
| Config.Defaults | monitor.py:31-70 | type "http", poll period 5, Redis at localhost:6379, system_stats true, and a query polled as often as its server |
| Monitor.LoadConfig | monitor.py:23-77 | the loop's result is `Config.Collectors` of the servers (none when the key is absent) |
| Monitor.LoadEntry | monitor.py:30-75 | one pass of the loop body is `Config.BuildCollector` |
| Web.EntryOf | web.py:122-136 | an exception from collect becomes empty metrics with its text as the error; a returned result's metrics and error are copied |
| Web.WritesPersist | web.py:40-46 | once an entry fails, no further web_url is written |
| Web.WebUrlWritesSound | web.py:45-46 | only truthy web_urls are recorded, each under its server's name |
| Web.WebUrlWritesComplete | web.py:45-46 | after a complete load every named server with a truthy web_url has one recorded |
| Web.RecordUrl | web.py:45-46 | the web_url is written only when truthy |
| Web.LoadServers | web.py:34-89 | the loop yields `Config.Collectors` and the web_url table after the writes made up to the first failing entry |
| Web.App.LoadConfig | web.py:34-89 | the load's result, the web_url writes, and `_collectors` set on success; the poll state is untouched |
| Web.App.constructor | web.py:96-101 | empty state, no web_urls, no collectors, zero polls |
| Web.App.PollStep | web.py:119-137 | the poll count rises by one; only `_state[c.name]` is replaced; a new name joins the end of the order; the table stays consistent |
| Web.CountsBounded | web.py:167-169 | healthy plus errored is at most the number of servers; with no errors, healthy is the number of servers with metrics |
| Web.Truncate | web.py:170 | `int()` of a float truncates toward zero |
| Web.MetricsReport | web.py:172-207 | the five self-monitoring metrics in order, with their values, the green colour of servers_healthy and warn_above 0 of servers_errored |
| Web.ValuesInOrder | web.py:160 | `list(_state.values())` lists each key's entry in insertion order |
| Web.ValuesCoverState | web.py:160-161 | the status list has one entry per server in `_state` and holds every one of them |
| Web.App.Servers | web.py:160 | the status list is as long as `_state` |
| Web.App.ApiStatus | web.py:157-161 | the reply lists `_state`'s values in order, with the given timestamp and LAN address |
| Web.App.Metrics | web.py:164-207 | the report counts the monitored collectors, healthy and errored servers, the truncated uptime and the polls |

## Left out

- Network and database access (httpx, redis.asyncio, asyncpg) is not modelled. Each collector takes the outcome of that access as an input.
- asyncio is not modelled: task creation and cancellation, `asyncio.sleep` between polls, and the lifespan hook. A poll is one `Web.App.PollStep`, and interleavings are not modelled.
- The Textual and Rich machinery is not modelled: the reactive attribute, `watch_result` and refresh. ui/app.py is not part of this model. `rich.markup.escape` is a function parameter of `ServerCard.Render`.
- Command-line entry points are not modelled: argparse, file existence checks, uvicorn, static files and the optional advice app. These are I/O with no logic to prove.
- The printed warning for an unknown server type is not modelled. The entry is skipped, as in the source.
- `time.time()` is a parameter. So are the LAN address (`_get_lan_ip` uses a socket) and each collector's `url` attribute, which web.py reads but nothing sets.
- YAML parsing is not modelled. A key that is absent and a key whose value is null are both `None`. Values of the wrong type (a string `poll_every`, say) are not modelled. A configuration file that is empty, whose `config.get` would raise, is not modelled either.
- The collector constructors are not called. The configuration records keep every argument that `load_config` passes. That includes `system_stats`, which `PostgresCollector.__init__` does not accept. `RedisCollector.__init__` also passes a `url` argument that `BaseCollector.__init__` does not accept. The model does not reproduce the TypeErrors these would raise.
- `Web.App.PollStep` takes a collector's answer as a result dictionary or an exception text. The PostgreSQL collector returns a `CollectorResult`, and web.py's `.get` on it would raise. That is not modelled.
- The HTTP collector passes the body's `metrics` value on unchanged. The model assumes that value is a list of metric objects.
- Floating-point arithmetic is not modelled: quotients such as hits over lookups or bytes over 1 048 576 are exact reals. `round()` and `,.1f` are modelled exactly on those reals. NaN and infinities are not modelled.
- Python's `bool` is a subclass of `int`, so a `True` value would count as numeric. Metric values are int, float or str only.
- `str.lower` is modelled on ASCII letters only. Unicode case mapping is not modelled.
- A result row with several columns named "value": `row.get("value", ...)` takes whichever column the database driver's record maps that name to, which is outside this model; the model takes the first.
- A metric dictionary's `None` is an absent key. A key present with JSON `null` is not modelled. In the source, `{"value": null}` renders as "None" (`format_value(None)`), where `MetricRow.RowHead` renders ""; and `{"label": null}` raises TypeError in the `:<18` format, where `MetricRow.RowLabel` falls back to the key or "?".
- `Web.App.LoadConfig` collects the web_url writes in a local table and stores it once, on success or at the failing entry. Each write therefore lands in `_web_urls` later than in the source. Nothing reads that table during the load, so the difference is not observable.
- `MetricRow.RenderMetricRow` has no contract of its own. Its contract is `MetricRow.RenderMetricRowLayout`.
- `MetricRow.FormatValue` has no contract of its own. Its contract is `MetricRow.FormatValueReadsBack`.
- `MetricRow.Sparkline` states only its length. The glyph range is `MetricRow.SparklineGlyphs` and the bar order is `MetricRow.SparklineOrdered`.
- `MetricRow.RenderMetricRowLayout` states the row's layout, not the exact sparkline text. That text is `MetricRow.Sparkline`, with its own lemmas.
- `CustomQuery.poll_every` is stored and never read, so it has no behaviour to model. There is no sticky warning flag, per-query cache or sparkline accumulation in the source.
