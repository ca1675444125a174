/** collectors/redis_collector.py: turns the reply to Redis's INFO command into
    a fixed, ordered list of metric dictionaries. Connecting and issuing INFO
    are not modelled; their outcome is the input. */
module RedisCollector {
  import opened Wrappers
  import opened Base
  import opened MetricDicts
  import Text

  /** The parsed INFO reply: numeric fields by name, and the `role` field. */
  datatype Info = Info(fields: map<string, nat>, role: Option<string>)

  datatype Outcome =
    | Failed(message: string)   // connecting, INFO or closing raised; `message` is str(e)
    | Answered(info: Info)

  /** `info.get(name, 0)` */
  function Field(info: Info, name: string): nat {
    if name in info.fields then info.fields[name] else 0
  }

  const BytesPerMB: real := 1048576.0

  function Gauge(key: string, caption: string, value: Value, unit: string, warnAbove: Option<real>): MetricDict {
    MetricDict(key := Some(key), labelText := Some(caption), value := Some(value), unit := Some(unit), warnAbove := warnAbove)
  }

  /** The seven metrics every successful poll starts with. */
  function FixedMetrics(info: Info): (ms: seq<MetricDict>)
    ensures |ms| == 7
  {
    [ Gauge("connected_clients", "Connected Clients", IntV(Field(info, "connected_clients")), "clients", Some(100.0)),
      Gauge("used_memory_mb", "Memory Used", RealV(Text.Round(Field(info, "used_memory") as real / BytesPerMB, 1)), "MB", Some(512.0)),
      Gauge("used_memory_peak_mb", "Memory Peak", RealV(Text.Round(Field(info, "used_memory_peak") as real / BytesPerMB, 1)), "MB", None),
      Gauge("ops_per_sec", "Ops/sec", IntV(Field(info, "instantaneous_ops_per_sec")), "ops/s", None),
      Gauge("total_connections", "Total Connections", IntV(Field(info, "total_connections_received")), "count", None),
      Gauge("keyspace_hits", "Keyspace Hits", IntV(Field(info, "keyspace_hits")), "count", None),
      Gauge("keyspace_misses", "Keyspace Misses", IntV(Field(info, "keyspace_misses")), "count", None) ]
  }

  /** Keyspace lookups: hits plus misses. */
  function Lookups(info: Info): nat {
    Field(info, "keyspace_hits") + Field(info, "keyspace_misses")
  }

  /** The hit-rate metric: `round(hits / (hits + misses) * 100, 1)` percent,
      warning below 90. */
  function HitRateMetric(info: Info): MetricDict
    requires Lookups(info) > 0
  {
    MetricDict(key := Some("hit_rate"), labelText := Some("Hit Rate"),
               value := Some(RealV(Text.Round(Field(info, "keyspace_hits") as real / Lookups(info) as real * 100.0, 1))),
               unit := Some("%"), warnBelow := Some(90.0))
  }

  /** The role metric, "unknown" when INFO has no role; it has no unit. */
  function RoleMetric(info: Info): MetricDict {
    MetricDict(key := Some("role"), labelText := Some("Role"), value := Some(StrV(info.role.GetOr("unknown"))))
  }

  /** The hit rate is a percentage: it lies in [0, 100]. */
  lemma HitRateBounds(info: Info)
    requires Lookups(info) > 0
    ensures var m := HitRateMetric(info);
      m.value.Some? && m.value.value.RealV? && 0.0 <= m.value.value.r <= 100.0 && m.warnBelow == Some(90.0)
  {
    var hits, total := Field(info, "keyspace_hits"), Lookups(info);
    HitRateAtMostHundred(hits, total);
    Text.RoundAtMost(hits as real / total as real * 100.0, 1, 100);
  }

  /** The keys of a successful poll's metrics, in order: the seven fixed ones,
      `hit_rate` when there were lookups, and `role`. */
  function PollKeys(withRate: bool): (ks: seq<Option<string>>)
    ensures |ks| == if withRate then 9 else 8
    ensures forall i, j :: 0 <= i < j < |ks| ==> ks[i] != ks[j]
  {
    [Some("connected_clients"), Some("used_memory_mb"), Some("used_memory_peak_mb"), Some("ops_per_sec"),
     Some("total_connections"), Some("keyspace_hits"), Some("keyspace_misses")]
    + (if withRate then [Some("hit_rate")] else [])
    + [Some("role")]
  }

  /** `RedisCollector.collect`. A failure gives no metrics and the error text.
      Otherwise: the seven fixed metrics in order (missing INFO fields read as
      0), then the hit rate exactly when there were lookups, then the role
      last; no error. */
  method Collect(o: Outcome) returns (r: ResultDict)
    ensures o.Failed? ==> r == ResultDict([], Some(o.message))
    ensures o.Answered? ==>
              var info, ms := o.info, r.metrics;
              && r.error.None?
              && KeysOf(ms, DictKey) == PollKeys(Lookups(info) > 0)
              && ms[..7] == FixedMetrics(info)
              && (Lookups(info) > 0 ==> ms[7] == HitRateMetric(info))
              && ms[|ms| - 1] == RoleMetric(info)
  {
    if o.Failed? {
      return ResultDict([], Some(o.message));
    }
    var info := o.info;
    var metrics := FixedMetrics(info);

    var hits := Field(info, "keyspace_hits");
    var misses := Field(info, "keyspace_misses");
    var total := hits + misses;
    if total > 0 {
      var rate := Text.Round(hits as real / total as real * 100.0, 1);
      metrics := metrics + [MetricDict(key := Some("hit_rate"), labelText := Some("Hit Rate"), value := Some(RealV(rate)),
                                       unit := Some("%"), warnBelow := Some(90.0))];
    }

    metrics := metrics + [MetricDict(key := Some("role"), labelText := Some("Role"), value := Some(StrV(info.role.GetOr("unknown"))))];
    r := ResultDict(metrics);
  }

  lemma HitRateAtMostHundred(hits: nat, total: nat)
    requires 0 < total && hits <= total
    ensures hits as real / total as real * 100.0 <= 100.0
  {
    assert hits as real / total as real <= 1.0;
  }
}
