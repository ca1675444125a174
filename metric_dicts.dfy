/** The dictionary shapes of the metrics contract: a metric as a JSON object
    (`{"key", "label", "value", "unit"?, "color"?, "warn_above"?, "warn_below"?,
    "sparkline_history"?}`) and a collector's `{"metrics": [...], "error"?: ...}`.
    `None` stands for a key that is absent. */
module MetricDicts {
  import opened Wrappers
  import opened Base

  datatype MetricDict = MetricDict(
    key: Option<string> := None,
    labelText: Option<string> := None,
    value: Option<Value> := None,
    unit: Option<string> := None,
    color: Option<string> := None,
    warnAbove: Option<real> := None,
    warnBelow: Option<real> := None,
    sparklineHistory: Option<seq<real>> := None)

  datatype ResultDict = ResultDict(metrics: seq<MetricDict>, error: Option<string> := None)

  /** A metric dictionary's "key" entry. */
  function DictKey(m: MetricDict): Option<string> { m.key }
}
