/**
 * One run of the import: the date argument is checked, the report text is
 * split into lines, its metrics, sections and table rows are read, and the
 * NAV window for the chart is chosen.  Fetching the report and the feed and
 * writing the page are outside the model: the report text, the feed entries
 * and the report day arrive as parameters.
 */
module Report {
  import opened Maybe
  import opened Text
  import M = Metrics
  import S = Sections
  import R = Rows
  import T = Render
  import H = History
  import D = Dates

  /** What the page is made of. */
  datatype Page = Page(
    slug: string,
    title: string,
    url: string,
    chartId: string,
    metrics: map<string, string>,
    sections: S.Sections,
    assets: seq<R.AssetRow>,
    operations: seq<R.Operation>,
    assetTable: string,
    operationTable: string,
    window: seq<H.Point>)

  /** `sections.assets.map(parseAssetLine)`. */
  function ParseAssets(lines: seq<string>): (rows: seq<R.AssetRow>)
    ensures |rows| == |lines|
    ensures forall k :: 0 <= k < |rows| ==> rows[k] == R.ParseAssetLine(lines[k])
  {
    if lines == [] then [] else [R.ParseAssetLine(lines[0])] + ParseAssets(lines[1..])
  }

  /** `sections.operations.map(parseOperationLine)`. */
  function ParseOperations(lines: seq<string>): (ops: seq<R.Operation>)
    ensures |ops| == |lines|
    ensures forall k :: 0 <= k < |ops| ==> ops[k] == R.ParseOperationLine(lines[k])
  {
    if lines == [] then [] else [R.ParseOperationLine(lines[0])] + ParseOperations(lines[1..])
  }

  /** `metrics.get(key) ?? '-'`: what the page shows for a metric. */
  function Shown(metrics: map<string, string>, key: string): (v: string)
    ensures key in metrics ==> v == metrics[key]
    ensures key !in metrics ==> v == R.Sentinel
  {
    if key in metrics then metrics[key] else R.Sentinel
  }

  /** A header line `- key: value` that no later header line overrides is what the page shows for that key. */
  lemma ShownOfLine(lines: seq<string>, i: nat, k: string, parts: seq<string>)
    requires i < M.HeaderEnd(lines)
    requires ':' !in k && Trimmed(k)
    requires |parts| >= 1 && forall j :: 0 <= j < |parts| ==> ':' !in parts[j] && Trimmed(parts[j])
    requires var v := Join(parts, ":"); v != [] && Trimmed(v)
    requires lines[i] == "- " + k + ": " + Join(parts, ":")
    requires forall j :: i < j < M.HeaderEnd(lines) ==> !M.Defines(lines[j], k)
    ensures Shown(M.Metrics(lines), k) == Join(parts, ":")
  {
    M.MetricOfLine(lines, i, k, parts);
  }

  /** A key that no header line records shows as the sentinel. */
  lemma ShownMissing(lines: seq<string>, k: string)
    requires forall j :: 0 <= j < M.HeaderEnd(lines) ==> !M.Defines(lines[j], k)
    ensures Shown(M.Metrics(lines), k) == R.Sentinel
  {
    M.MetricsKeys(lines, k);
  }

  /** Every line of a block parses to a trade or to some text: no operation row shows `undefined`. */
  lemma OperationsHaveText(lines: seq<string>)
    requires forall k :: 0 <= k < |lines| ==> lines[k] != "" && Trimmed(lines[k])
    ensures forall k :: 0 <= k < |lines| ==>
              var op := ParseOperations(lines)[k]; op.Raw? ==> op.raw != ""
  {
    forall k | 0 <= k < |lines| ensures var op := ParseOperations(lines)[k]; op.Raw? ==> op.raw != "" {
      R.RawNonEmpty(lines[k]);
    }
  }

  /** The lines of a block are trimmed and not empty. */
  lemma BlockLinesTrimmed(lines: seq<string>, start: int, end: int)
    requires -1 <= start
    ensures var b := S.Block(lines, start, end);
            forall k :: 0 <= k < |b| ==> b[k] != "" && Trimmed(b[k])
  {
  }

  /**
   * The import: `None` when the date argument is refused, otherwise the page
   * read from the report text `raw`, the address template, the NAV feed and
   * the report's day number: the one `new Date` gives for the slug, `None` on
   * an Invalid Date (a parameter here, not tied to the slug).
   */
  method Import(arg: Option<string>, template: string, raw: string, feed: seq<H.Entry>, reportDay: Option<int>)
    returns (page: Option<Page>)
    ensures page.None? <==> D.CheckDateArg(arg).None?
    ensures page.Some? ==>
              var p := page.value;
              var lines := Lines(raw);
              && p.slug == D.SlugDate(arg.value)
              && p.url == D.ReportUrl(template, arg.value)
              && p.chartId == "nav-" + arg.value
              && p.title == D.TitleDate(lines, p.slug)
              && p.metrics == M.Metrics(lines)
              && p.sections == S.SectionsOf(lines)
              && |p.assets| == |p.sections.assets|
              && (forall k :: 0 <= k < |p.assets| ==> p.assets[k] == R.ParseAssetLine(p.sections.assets[k]))
              && |p.operations| == |p.sections.operations|
              && (forall k :: 0 <= k < |p.operations| ==> p.operations[k] == R.ParseOperationLine(p.sections.operations[k]))
              && (forall k :: 0 <= k < |p.operations| ==> p.operations[k].Raw? ==> p.operations[k].raw != "")
              && p.assetTable == T.AssetTable(p.assets)
              && p.operationTable == T.OperationTable(p.operations)
              && p.window == H.NavWindow(feed, reportDay)
  {
    var checked := D.CheckDateArg(arg);
    if checked.None? {
      return None;
    }
    var dateArg := checked.value;
    var url := D.ReportUrl(template, dateArg);
    var slug := D.SlugDate(dateArg);
    var lines := Lines(raw);
    var title := D.TitleDate(lines, slug);
    var metrics := M.ExtractMetrics(lines);
    var sections := S.SplitSections(lines);
    var assets := ParseAssets(sections.assets);
    var operations := ParseOperations(sections.operations);
    var m := S.FindMarkers(lines);
    BlockLinesTrimmed(lines, m.operations, S.OperationsEnd(m));
    OperationsHaveText(sections.operations);
    var window := H.NavWindow(feed, reportDay);
    D.ChartIdOf(dateArg);
    page := Some(Page(slug, title, url, D.ChartId(slug), metrics, sections, assets, operations,
                      T.AssetTable(assets), T.OperationTable(operations), window));
  }
}
