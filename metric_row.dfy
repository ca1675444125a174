/** ui/widgets/metric_row.py: the colour, sparkline and one-line rendering of a
    metric given as a dictionary. */
module MetricRow {
  import opened Wrappers
  import opened Base
  import opened MetricDicts
  import Text

  /** Eight bar glyphs, U+2581 (lowest) to U+2588 (full block). */
  const SparklineChars: string := "\U{2581}\U{2582}\U{2583}\U{2584}\U{2585}\U{2586}\U{2587}\U{2588}"
  const LowestGlyph: char := '\U{2581}'
  const HighestGlyph: char := '\U{2588}'

  /** How many trailing values a sparkline shows. */
  const Window: nat := 20

  const ValidColors: set<string> := {"red", "green", "yellow", "cyan", "magenta", "blue", "white"}

  // ---------------------------------------------------------------------
  // compute_color
  // ---------------------------------------------------------------------

  /** `compute_color`: an explicit colour counts only when it is one of
      VALID_COLORS; otherwise the strict threshold rules apply to a numeric value. */
  function ComputeColor(m: MetricDict): (c: string)
    ensures c in ValidColors
    ensures m.color.Some? && m.color.value in ValidColors ==> c == m.color.value
    ensures !(m.color.Some? && m.color.value in ValidColors) ==> c == "red" || c == "green"
    ensures !(m.color.Some? && m.color.value in ValidColors) && !(m.value.Some? && m.value.value.IsNumeric()) ==> c == "green"
  {
    if Truthy(m.color) && m.color.value in ValidColors then m.color.value
    else if m.value.Some? && m.value.value.IsNumeric() then
      var v := m.value.value.Num();
      if m.warnAbove.Some? && v > m.warnAbove.value then "red"
      else if m.warnBelow.Some? && v < m.warnBelow.value then "red"
      else "green"
    else "green"
  }

  /** The two colour rules agree except on an explicit colour outside
      VALID_COLORS, which `display_color` returns and `compute_color` ignores. */
  lemma ColorVariantsAgree(d: MetricDict, item: MetricItem)
    requires d.value == Some(item.value) && d.color == item.color
    requires d.warnAbove == item.warnAbove && d.warnBelow == item.warnBelow
    ensures !Truthy(item.color) || item.color.value in ValidColors ==> ComputeColor(d) == DisplayColor(item)
    ensures Truthy(item.color) && item.color.value !in ValidColors ==>
              ComputeColor(d) == DisplayColor(item.(color := None)) && DisplayColor(item) == item.color.value
  {
  }

  /** Threshold rules of `compute_color` for a numeric value with no valid
      explicit colour: red exactly when a threshold is strictly crossed. */
  lemma ComputeColorThresholds(m: MetricDict)
    requires !(m.color.Some? && m.color.value in ValidColors)
    requires m.value.Some? && m.value.value.IsNumeric()
    ensures var v := m.value.value.Num();
      ComputeColor(m) == "red" <==>
        (m.warnAbove.Some? && v > m.warnAbove.value) || (m.warnBelow.Some? && v < m.warnBelow.value)
  {
  }

  // ---------------------------------------------------------------------
  // sparkline
  // ---------------------------------------------------------------------

  /** `values[-20:]` */
  function LastWindow(values: seq<real>): (w: seq<real>)
    ensures |w| == if |values| < Window then |values| else Window
    ensures w == values[|values| - |w|..]
  {
    if |values| <= Window then values else values[|values| - Window..]
  }

  function Min(s: seq<real>): (m: real)
    requires |s| > 0
    ensures forall i :: 0 <= i < |s| ==> m <= s[i]
    ensures exists i :: 0 <= i < |s| && s[i] == m
    decreases |s|
  {
    if |s| == 1 then s[0]
    else
      var t := Min(s[1..]);
      if s[0] <= t then s[0] else t
  }

  function Max(s: seq<real>): (m: real)
    requires |s| > 0
    ensures forall i :: 0 <= i < |s| ==> s[i] <= m
    ensures exists i :: 0 <= i < |s| && s[i] == m
    decreases |s|
  {
    if |s| == 1 then s[0]
    else
      var t := Max(s[1..]);
      if s[0] >= t then s[0] else t
  }

  /** `min(int((v - lo) / span * 7), 7)`, counted up from 0 (see GlyphIndexIsTruncation). */
  function GlyphIndex(v: real, lo: real, span: real): (k: nat)
    requires lo <= v && span > 0.0
    ensures k < |SparklineChars|
  {
    Level((v - lo) / span * 7.0, 0)
  }

  /** The glyph index is `min(int((v - lo) / span * 7), 7)`: the scaled value
      is never negative, so `int` truncation is the floor. */
  lemma GlyphIndexIsTruncation(v: real, lo: real, span: real)
    requires lo <= v && span > 0.0
    ensures var x := (v - lo) / span * 7.0;
      GlyphIndex(v, lo, span) == if x.Floor < 7 then x.Floor else 7
  {
    var q := (v - lo) / span;
    assert q * span == v - lo;
    assert q >= 0.0;
    LevelIsFloor(q * 7.0, 0);
  }

  /** The largest whole number from `k` up to 7 that is at most `x`. */
  function Level(x: real, k: nat): (r: nat)
    requires k <= 7
    ensures k <= r <= 7
    decreases 7 - k
  {
    if k < 7 && (k + 1) as real <= x then Level(x, k + 1) else k
  }

  /** Level is `min(int(x), 7)` for a non-negative `x`: Python's `int`
      truncation is the floor there. */
  lemma {:induction false} LevelIsFloor(x: real, k: nat)
    requires k <= 7 && k as real <= x
    ensures Level(x, k) == if x.Floor < 7 then x.Floor else 7
    decreases 7 - k
  {
    if k < 7 && (k + 1) as real <= x {
      LevelIsFloor(x, k + 1);
    }
  }

  lemma {:induction false} LevelMonotone(x: real, y: real, k: nat)
    requires k <= 7 && x <= y
    ensures Level(x, k) <= Level(y, k)
    decreases 7 - k
  {
    if k < 7 && (k + 1) as real <= x {
      LevelMonotone(x, y, k + 1);
    }
  }

  /** `sparkline(values)`: one bar per value of the last twenty, scaled
      between their minimum and maximum. */
  function Sparkline(values: seq<real>): (r: string)
    ensures |r| == |LastWindow(values)|
    ensures r == "" <==> values == []
  {
    if values == [] then "" else Bars(LastWindow(values))
  }

  /** The bars of the shown values `nums`. */
  function Bars(nums: seq<real>): (r: string)
    requires |nums| > 0
    ensures |r| == |nums|
  {
    var lo, hi := Min(nums), Max(nums);
    seq(|nums|, i requires 0 <= i < |nums| => GlyphAt(nums[i], lo, Span(lo, hi)))
  }

  /** `hi - lo if hi != lo else 1.0` */
  function Span(lo: real, hi: real): (s: real)
    requires lo <= hi
    ensures s > 0.0
  {
    if hi != lo then hi - lo else 1.0
  }

  function GlyphAt(v: real, lo: real, span: real): (c: char)
    requires lo <= v && span > 0.0
    ensures c as int == LowestGlyph as int + GlyphIndex(v, lo, span)
  {
    var k := GlyphIndex(v, lo, span);
    GlyphCode(k);
    SparklineChars[k]
  }

  lemma GlyphCode(k: nat)
    requires k < 8
    ensures SparklineChars[k] as int == LowestGlyph as int + k
  {
    if k == 0 {} else if k == 1 {} else if k == 2 {} else if k == 3 {}
    else if k == 4 {} else if k == 5 {} else if k == 6 {} else {}
  }

  lemma GlyphIndexMonotone(v: real, w: real, lo: real, span: real)
    requires lo <= v <= w && span > 0.0
    ensures GlyphIndex(v, lo, span) <= GlyphIndex(w, lo, span)
  {
    var a, b := (v - lo) / span, (w - lo) / span;
    assert a * span == v - lo && b * span == w - lo;
    assert a <= b;
    assert a * 7.0 <= b * 7.0;
    LevelMonotone(a * 7.0, b * 7.0, 0);
  }

  /** Only the last twenty values matter. */
  lemma SparklineUsesLastTwenty(values: seq<real>)
    requires |values| > Window
    ensures Sparkline(values) == Sparkline(values[|values| - Window..])
  {
    var tail := values[|values| - Window..];
    assert LastWindow(tail) == tail == LastWindow(values);
  }

  /** Bars are ordered like the values they stand for. */
  lemma SparklineOrdered(values: seq<real>, i: nat, j: nat)
    requires i < |Sparkline(values)| && j < |Sparkline(values)|
    requires LastWindow(values)[i] <= LastWindow(values)[j]
    ensures Sparkline(values)[i] <= Sparkline(values)[j]
  {
    var nums := LastWindow(values);
    var lo, hi := Min(nums), Max(nums);
    GlyphIndexMonotone(nums[i], nums[j], lo, Span(lo, hi));
  }

  /** The bar at position `i` of a sparkline. */
  lemma SparklineAt(values: seq<real>, i: nat)
    requires i < |Sparkline(values)|
    ensures var nums := LastWindow(values);
      |nums| > 0 && i < |nums| && Min(nums) <= nums[i] && Min(nums) <= Max(nums)
      && Sparkline(values)[i] == GlyphAt(nums[i], Min(nums), Span(Min(nums), Max(nums)))
  {
    var nums := LastWindow(values);
    assert Sparkline(values) == Bars(nums);
  }

  /** Every bar is one of the eight glyphs. */
  lemma SparklineGlyphs(values: seq<real>)
    ensures forall i :: 0 <= i < |Sparkline(values)| ==> LowestGlyph <= Sparkline(values)[i] <= HighestGlyph
  {
    forall i | 0 <= i < |Sparkline(values)|
      ensures LowestGlyph <= Sparkline(values)[i] <= HighestGlyph
    {
      SparklineAt(values, i);
    }
  }

  lemma BottomGlyph(lo: real, span: real)
    requires span > 0.0
    ensures GlyphAt(lo, lo, span) == LowestGlyph
  {
    assert (lo - lo) / span * 7.0 == 0.0;
    assert GlyphIndex(lo, lo, span) == 0;
  }

  /** The smallest of the shown values gets the lowest bar. */
  lemma SparklineMinimumIsLowest(values: seq<real>, i: nat)
    requires i < |Sparkline(values)|
    requires forall j :: 0 <= j < |LastWindow(values)| ==> LastWindow(values)[i] <= LastWindow(values)[j]
    ensures Sparkline(values)[i] == LowestGlyph
  {
    SparklineAt(values, i);
    var nums := LastWindow(values);
    assert nums[i] == Min(nums);
    BottomGlyph(Min(nums), Span(Min(nums), Max(nums)));
  }

  /** When all values are equal, every bar is the lowest. */
  lemma SparklineFlat(values: seq<real>)
    requires forall i, j :: 0 <= i < j < |values| ==> values[i] == values[j]
    ensures forall i :: 0 <= i < |Sparkline(values)| ==> Sparkline(values)[i] == LowestGlyph
  {
    WindowFlat(values);
    forall i | 0 <= i < |Sparkline(values)|
      ensures Sparkline(values)[i] == LowestGlyph
    {
      SparklineMinimumIsLowest(values, i);
    }
  }

  /** The window of equal values holds equal values. */
  lemma WindowFlat(values: seq<real>)
    requires forall i, j :: 0 <= i < j < |values| ==> values[i] == values[j]
    ensures var nums := LastWindow(values);
      forall i, j :: 0 <= i < |nums| && 0 <= j < |nums| ==> nums[i] <= nums[j]
  {
    var nums := LastWindow(values);
    var off := |values| - |nums|;
    forall i, j | 0 <= i < |nums| && 0 <= j < |nums|
      ensures nums[i] <= nums[j]
    {
      assert nums[i] == values[off + i] && nums[j] == values[off + j];
      if i < j {
        assert values[off + i] == values[off + j];
      } else if j < i {
        assert values[off + j] == values[off + i];
      }
    }
  }

  lemma GlyphIndexOfTop(lo: real, hi: real)
    requires lo < hi
    ensures GlyphIndex(hi, lo, hi - lo) == 7
  {
    assert (hi - lo) / (hi - lo) == 1.0;
    assert (hi - lo) / (hi - lo) * 7.0 == 7.0;
  }

  lemma TopGlyph(lo: real, hi: real)
    requires lo < hi
    ensures GlyphAt(hi, lo, Span(lo, hi)) == HighestGlyph
  {
    GlyphIndexOfTop(lo, hi);
    assert Span(lo, hi) == hi - lo;
    var c := GlyphAt(hi, lo, hi - lo);
    assert c as int == HighestGlyph as int;
  }

  /** When the shown values are not all equal, their largest gets the full bar. */
  lemma SparklineMaximumIsHighest(values: seq<real>, i: nat, j: nat)
    requires i < |LastWindow(values)| && j < |LastWindow(values)|
    requires forall k :: 0 <= k < |LastWindow(values)| ==> LastWindow(values)[k] <= LastWindow(values)[i]
    requires LastWindow(values)[j] != LastWindow(values)[i]
    ensures Sparkline(values)[i] == HighestGlyph
  {
    SparklineAt(values, i);
    WindowTop(LastWindow(values), i, j);
  }

  /** The bar of the largest of values that are not all equal is the full one. */
  lemma WindowTop(nums: seq<real>, i: nat, j: nat)
    requires i < |nums| && j < |nums| && nums[j] != nums[i]
    requires forall k :: 0 <= k < |nums| ==> nums[k] <= nums[i]
    ensures GlyphAt(nums[i], Min(nums), Span(Min(nums), Max(nums))) == HighestGlyph
  {
    var lo, hi := Min(nums), Max(nums);
    var k :| 0 <= k < |nums| && nums[k] == hi;
    assert nums[i] == hi;
    assert lo <= nums[j] < hi;
    TopGlyph(lo, hi);
  }

  // ---------------------------------------------------------------------
  // format_value and render_metric_row
  // ---------------------------------------------------------------------

  /** `format_value`: a string is itself, an int is comma-grouped, a float
      comma-grouped with one rounded decimal. */
  function FormatValue(v: Value): string {
    match v
    case RealV(x) => Text.FormatFixed1(x)
    case IntV(i) => Text.FormatInt(i)
    case StrV(s) => s
  }

  /** What `format_value` shows reads back as the value: exactly for a
      string or an int, to within 0.05 for a float. */
  lemma FormatValueReadsBack(v: Value)
    ensures v.StrV? ==> FormatValue(v) == v.s
    ensures v.IntV? ==> Text.ParseInt(FormatValue(v)) == Some(v.i)
    ensures v.RealV? ==>
              Text.ParseFixed1(FormatValue(v)).Some? && -0.05 <= Text.ParseFixed1(FormatValue(v)).value - v.r <= 0.05
  {
    match v
    case RealV(x) => Text.FormatFixed1Denotes(x);
    case IntV(i) => Text.FormatIntRoundTrip(i);
    case StrV(s) =>
  }

  /** `metric.get("label", metric.get("key", "?"))` */
  function RowLabel(m: MetricDict): (l: string)
    ensures m.labelText.Some? ==> l == m.labelText.value
    ensures m.labelText.None? && m.key.Some? ==> l == m.key.value
    ensures m.labelText.None? && m.key.None? ==> l == "?"
  {
    m.labelText.GetOr(m.key.GetOr("?"))
  }

  /** The part of a row up to the value: the label padded to 18 columns, the
      colour tag, and the formatted value (an absent value shows as ""). */
  function RowHead(m: MetricDict): string {
    "  [dim]" + Text.PadRight(RowLabel(m), 18) + "[/] [" + ComputeColor(m) + "]" + FormatValue(m.value.GetOr(StrV("")))
  }

  /** The unit after the value: a space and the unit, or nothing for no unit. */
  function UnitPart(unit: string): string {
    if unit != "" then " " + unit else ""
  }

  /** The dimmed sparkline after the row, or nothing for no history. */
  function SparkPart(hist: seq<real>): (p: string)
    ensures |p| == if hist != [] then 9 + |LastWindow(hist)| else 0
  {
    if hist != [] then " [dim]" + Sparkline(hist) + "[/]" else ""
  }

  /** `render_metric_row`. */
  function RenderMetricRow(m: MetricDict): string {
    RowHead(m) + UnitPart(m.unit.GetOr("")) + "[/]" + SparkPart(m.sparklineHistory.GetOr([]))
  }

  /** A row starts with the padded label, colour tag and value; the unit
      follows the value only when it is non-empty; the sparkline (of at most
      twenty bars) follows only when there is history. */
  lemma RenderMetricRowLayout(m: MetricDict)
    ensures var r, head, unit, hist := RenderMetricRow(m), RowHead(m), m.unit.GetOr(""), m.sparklineHistory.GetOr([]);
      && |r| == |head| + (if unit != "" then |unit| + 1 else 0) + 3
                + (if hist != [] then 9 + |LastWindow(hist)| else 0)
      && r[..|head|] == head
      && (r[|head|] == ' ' <==> unit != "")
      && (unit != "" ==> r[|head| + 1..|head| + 1 + |unit|] == unit)
  {
    RowShape(RowHead(m), m.unit.GetOr(""), SparkPart(m.sparklineHistory.GetOr([])));
  }

  lemma RowShape(head: string, unit: string, tail: string)
    ensures var r := head + UnitPart(unit) + "[/]" + tail;
      && |r| == |head| + |UnitPart(unit)| + 3 + |tail|
      && r[..|head|] == head
      && (r[|head|] == ' ' <==> unit != "")
      && (unit != "" ==> r[|head| + 1..|head| + 1 + |unit|] == unit)
  {
    var r := head + UnitPart(unit) + "[/]" + tail;
    if unit != "" {
      assert r[|head|] == ' ';
      assert r[|head| + 1..|head| + 1 + |unit|] == unit;
    } else {
      assert UnitPart(unit) == "";
      assert r == head + ("[/]" + tail);
      assert r[|head|] == '[';
    }
  }
}
