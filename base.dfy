/** collectors/base.py: the records every collector shares (MetricItem,
    ServerInfo, CollectorResult, with the source's defaults) and the colour
    and text a MetricItem displays. */
module Base {
  import opened Wrappers
  import Text

  /** A metric value, Python's `float | int | str`; a float is its exact real value. */
  datatype Value = IntV(i: int) | RealV(r: real) | StrV(s: string) {
    /** `isinstance(value, (int, float))` */
    predicate IsNumeric() { IntV? || RealV? }

    /** The numeric value; Python compares ints and floats exactly. */
    function Num(): real
      requires IsNumeric()
    {
      if IntV? then i as real else r
    }
  }

  /** Python truthiness of an optional string: present and non-empty. */
  predicate Truthy(s: Option<string>) { s.Some? && s.value != "" }

  datatype MetricItem = MetricItem(
    key: string,
    labelText: string,
    value: Value,
    unit: string := "",
    color: Option<string> := None,
    warnAbove: Option<real> := None,
    warnBelow: Option<real> := None,
    sparkline: seq<real> := [])

  datatype ServerInfo = ServerInfo(name: string, version: string := "", uptimeSeconds: int := 0)

  datatype CollectorResult = CollectorResult(
    server: ServerInfo,
    metrics: seq<MetricItem>,
    error: Option<string> := None,
    reachable: bool := true)

  /** The fields a record gets when the caller does not give them. */
  lemma Defaults(key: string, labelText: string, value: Value, server: ServerInfo, metrics: seq<MetricItem>, name: string)
    ensures var m := MetricItem(key, labelText, value);
      m.unit == "" && m.color == None && m.warnAbove == None && m.warnBelow == None && m.sparkline == []
    ensures var r := CollectorResult(server, metrics);
      r.error == None && r.reachable
    ensures var s := ServerInfo(name);
      s.version == "" && s.uptimeSeconds == 0
  {
  }

  /** A metric item's key. */
  function ItemKey(m: MetricItem): string { m.key }

  /** The keys of a metric list, in order; `key` reads one metric's key. */
  function KeysOf<M, K>(ms: seq<M>, key: M -> K): (ks: seq<K>)
    ensures |ks| == |ms| && forall i :: 0 <= i < |ms| ==> ks[i] == key(ms[i])
  {
    seq(|ms|, i requires 0 <= i < |ms| => key(ms[i]))
  }

  /** `MetricItem.display_color`: a truthy explicit colour wins; otherwise a
      numeric value strictly above `warn_above` or strictly below `warn_below`
      is red, and everything else is green. */
  function DisplayColor(m: MetricItem): (c: string)
    ensures Truthy(m.color) ==> c == m.color.value
    ensures !Truthy(m.color) ==> c == "red" || c == "green"
    ensures !Truthy(m.color) && !m.value.IsNumeric() ==> c == "green"
    ensures !Truthy(m.color) && m.value.IsNumeric() && m.warnAbove.Some? && m.value.Num() > m.warnAbove.value ==> c == "red"
    ensures !Truthy(m.color) && m.value.IsNumeric() && m.warnBelow.Some? && m.value.Num() < m.warnBelow.value ==> c == "red"
    ensures (&& !Truthy(m.color) && m.value.IsNumeric()
             && (m.warnAbove.None? || m.value.Num() <= m.warnAbove.value)
             && (m.warnBelow.None? || m.value.Num() >= m.warnBelow.value)) ==> c == "green"
  {
    if Truthy(m.color) then m.color.value
    else if m.value.IsNumeric() && m.warnAbove.Some? && m.value.Num() > m.warnAbove.value then "red"
    else if m.value.IsNumeric() && m.warnBelow.Some? && m.value.Num() < m.warnBelow.value then "red"
    else "green"
  }

  /** `MetricItem.display_value`: a string shows as itself, an int with comma
      thousands separators, a float with separators and one rounded decimal. */
  function DisplayValue(m: MetricItem): (r: string)
    ensures m.value.StrV? ==> r == m.value.s
    ensures m.value.IntV? ==> Text.ParseInt(r) == Some(m.value.i)
    ensures m.value.RealV? ==>
              Text.ParseFixed1(r).Some? && -0.05 <= Text.ParseFixed1(r).value - m.value.r <= 0.05
  {
    match m.value
    case RealV(x) => Text.FormatFixed1Denotes(x); Text.FormatFixed1(x)
    case IntV(i) => Text.FormatIntRoundTrip(i); Text.FormatInt(i)
    case StrV(s) => s
  }
}
