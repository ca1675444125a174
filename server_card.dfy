/** ui/widgets/server_card.py: the lines a server card shows for a server's
    name, its URL and the latest collector result (absent until the first
    poll). `escape` is Rich's markup escaping, taken as given. */
module ServerCard {
  import opened Wrappers
  import opened Base
  import opened MetricDicts
  import MetricRow
  import Text

  /** U+25CF, the status dot. */
  const Dot: string := "\U{25cf}"

  function WaitingHeader(name: string): string {
    "[bold cyan]" + name + "[/]  [dim]waiting...[/]"
  }

  function ErrorHeader(name: string, error: string): string {
    "[bold red]" + Dot + "[/] [bold]" + name + "[/]  [red]" + error + "[/]"
  }

  function HealthyHeader(name: string): string {
    "[bold green]" + Dot + "[/] [bold]" + name + "[/]"
  }

  function ErrorNote(error: string): string {
    "  [yellow]" + error + "[/]"
  }

  function UrlLine(url: string, escape: string -> string): string {
    "  [dim]" + escape(url) + "[/]"
  }

  /** The URL line, present only for a non-empty URL. */
  function UrlLines(url: string, escape: string -> string): (u: seq<string>)
    ensures |u| == if url != "" then 1 else 0
  {
    if url != "" then [UrlLine(url, escape)] else []
  }

  /** Which of the three views a result selects. */
  datatype View = Waiting | ErrorOnly | WithMetrics

  function ViewOf(result: Option<ResultDict>): View {
    if result.None? then Waiting
    else if Truthy(result.value.error) && result.value.metrics == [] then ErrorOnly
    else WithMetrics
  }

  /** `ServerCard.render`: `parts` are the lines, `text` their newline join.
      Waiting: header and URL line. Error with no metrics: red header with the
      error and URL line, no rows. Otherwise a green header (carrying the error
      in yellow when there is one), the URL line, then one row per metric in
      order. */
  method Render(serverName: string, serverUrl: string, result: Option<ResultDict>, escape: string -> string)
    returns (parts: seq<string>, text: string)
    ensures text == Text.JoinLines(parts)
    ensures ViewOf(result) == Waiting ==>
              parts == [WaitingHeader(serverName)] + UrlLines(serverUrl, escape)
    ensures ViewOf(result) == ErrorOnly ==>
              parts == [ErrorHeader(serverName, result.value.error.value)] + UrlLines(serverUrl, escape)
    ensures ViewOf(result) == WithMetrics ==>
              var u, ms, err := UrlLines(serverUrl, escape), result.value.metrics, result.value.error;
              && |parts| == 1 + |u| + |ms|
              && parts[0] == HealthyHeader(serverName) + (if Truthy(err) then ErrorNote(err.value) else "")
              && parts[1..1 + |u|] == u
              && parts[1 + |u|..] == Rows(ms)
  {
    if result.None? {
      parts := [WaitingHeader(serverName)];
      if serverUrl != "" {
        parts := parts + [UrlLine(serverUrl, escape)];
      }
      text := Text.JoinLines(parts);
      return;
    }

    var error := result.value.error;
    var metrics := result.value.metrics;

    if Truthy(error) && metrics == [] {
      parts := [ErrorHeader(serverName, error.value)];
      if serverUrl != "" {
        parts := parts + [UrlLine(serverUrl, escape)];
      }
      text := Text.JoinLines(parts);
      return;
    }

    ghost var u := UrlLines(serverUrl, escape);
    parts := [HealthyHeader(serverName)];
    if serverUrl != "" {
      parts := parts + [UrlLine(serverUrl, escape)];
    }
    if Truthy(error) {
      parts := parts[0 := parts[0] + ErrorNote(error.value)];
    }
    ghost var header := parts;
    assert |header| == 1 + |u| && header[1..] == u;
    parts := AppendEach(parts, metrics, MetricRow.RenderMetricRow);
    assert parts[1..1 + |u|] == header[1..];
    assert parts[1 + |u|..] == Rows(metrics);
    text := Text.JoinLines(parts);
  }

  /** `f` applied to every element of `xs`, in order. */
  function Map<A, B>(xs: seq<A>, f: A -> B): (ys: seq<B>)
    ensures |ys| == |xs|
    decreases |xs|
  {
    if xs == [] then [] else Map(xs[..|xs| - 1], f) + [f(xs[|xs| - 1])]
  }

  lemma {:induction false} MapAt<A, B>(xs: seq<A>, f: A -> B, k: nat)
    requires k < |xs|
    ensures Map(xs, f)[k] == f(xs[k])
    decreases |xs|
  {
    var init := xs[..|xs| - 1];
    if k < |init| {
      MapAt(init, f, k);
      assert init[k] == xs[k];
    }
  }

  lemma MapSnoc<A, B>(xs: seq<A>, f: A -> B, i: nat)
    requires i < |xs|
    ensures Map(xs[..i + 1], f) == Map(xs[..i], f) + [f(xs[i])]
  {
    assert xs[..i + 1][..i] == xs[..i];
  }

  /** The rendered rows of `metrics`, one per metric, in order. */
  function Rows(metrics: seq<MetricDict>): seq<string> {
    Map(metrics, MetricRow.RenderMetricRow)
  }

  /** Row `k` renders metric `k`, and there is one row per metric. */
  lemma RowsAt(metrics: seq<MetricDict>, k: nat)
    requires k < |metrics|
    ensures |Rows(metrics)| == |metrics|
    ensures Rows(metrics)[k] == MetricRow.RenderMetricRow(metrics[k])
  {
    MapAt(metrics, MetricRow.RenderMetricRow, k);
  }

  /** Appends `f` of each element of `xs` to `header`, in order: the loop
      that appends one rendered row per metric. */
  method AppendEach<A, B>(header: seq<B>, xs: seq<A>, f: A -> B) returns (parts: seq<B>)
    ensures parts == header + Map(xs, f)
  {
    parts := header;
    for i := 0 to |xs|
      invariant parts == header + Map(xs[..i], f)
    {
      MapSnoc(xs, f, i);
      parts := parts + [f(xs[i])];
    }
    assert xs[..|xs|] == xs;
  }
}
