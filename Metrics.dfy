/**
 * Metric extraction: the `- key: value` lines of the report's leading block,
 * collected into a map until the first line that trims to empty.
 */
module Metrics {
  import opened Maybe
  import opened Text

  /** The first index at or after `k` whose line trims to empty, or the number of lines. */
  function BlankFrom(lines: seq<string>, k: nat): (n: nat)
    requires k <= |lines|
    ensures k <= n <= |lines|
    ensures forall i :: k <= i < n ==> Trim(lines[i]) != ""
    ensures n < |lines| ==> Trim(lines[n]) == ""
    decreases |lines| - k
  {
    if k == |lines| || Trim(lines[k]) == "" then k else BlankFrom(lines, k + 1)
  }

  /** Where the metric scan stops: the first blank line, or the end of the text. */
  function HeaderEnd(lines: seq<string>): (n: nat)
    ensures n <= |lines|
    ensures forall i :: 0 <= i < n ==> Trim(lines[i]) != ""
    ensures n < |lines| ==> Trim(lines[n]) == ""
  {
    BlankFrom(lines, 0)
  }

  /** A trimmed line that the scan records: it starts with `- ` and holds a colon. */
  predicate IsMetricLine(t: string) {
    StartsWith(t, "- ") && ':' in t
  }

  /** `line.slice(2).split(':').map(trim)`: at least two pieces on a metric line. */
  function Pieces(t: string): (parts: seq<string>)
    requires IsMetricLine(t)
    ensures |parts| >= 2
  {
    assert t == t[..2] + t[2..];
    assert ':' in t[2..];
    TrimAll(Split(t[2..], ':'))
  }

  /** The key of a metric line: its first colon-separated piece. */
  function Key(t: string): string
    requires IsMetricLine(t)
  {
    Pieces(t)[0]
  }

  /** The value of a metric line: the remaining pieces re-joined with `:`. */
  function Value(t: string): string
    requires IsMetricLine(t)
  {
    Join(Pieces(t)[1..], ":")
  }

  /** What one line of the header contributes: its key and value when, trimmed, it is a metric line. */
  function Entry(line: string): (e: Option<(string, string)>)
    ensures e.Some? <==> IsMetricLine(Trim(line))
    ensures e.Some? ==> Trimmed(e.value.0) && ':' !in e.value.0
  {
    var t := Trim(line);
    if IsMetricLine(t) then
      TrimKeepsOut(Split(t[2..], ':')[0], ':');
      Some((Key(t), Value(t)))
    else None
  }

  /** Entry `e` assigns key `k`. */
  predicate Assigns(e: Option<(string, string)>, k: string) {
    e.Some? && e.value.0 == k
  }

  /** Line `line` (before trimming) records key `k`. */
  predicate Defines(line: string, k: string) {
    Assigns(Entry(line), k)
  }

  /** The entries of the lines, one per line. */
  function Entries(lines: seq<string>): (es: seq<Option<(string, string)>>)
    ensures |es| == |lines| && forall i :: 0 <= i < |lines| ==> es[i] == Entry(lines[i])
  {
    seq(|lines|, i requires 0 <= i < |lines| => Entry(lines[i]))
  }

  /** Recording entries left to right into a map, a later key overwriting an earlier one. */
  function Record(es: seq<Option<(string, string)>>): (r: map<string, string>)
    ensures forall k :: k in r ==> exists i :: 0 <= i < |es| && Assigns(es[i], k)
  {
    if es == [] then map[]
    else
      var init := es[..|es| - 1];
      var m := Record(init);
      assert forall i :: 0 <= i < |init| ==> init[i] == es[i];
      match es[|es| - 1]
      case None => m
      case Some(e) => m[e.0 := e.1]
  }

  /** The metrics of a report: what the lines before the first blank line record; every key is trimmed and colon-free. */
  function Metrics(lines: seq<string>): (m: map<string, string>)
    ensures forall k :: k in m ==> Trimmed(k) && ':' !in k
  {
    var es := Entries(lines[..HeaderEnd(lines)]);
    assert forall i :: 0 <= i < |es| && es[i].Some? ==> Trimmed(es[i].value.0) && ':' !in es[i].value.0;
    Record(es)
  }

  /** The metric loop of the import script. */
  method ExtractMetrics(lines: seq<string>) returns (metrics: map<string, string>)
    ensures metrics == Metrics(lines)
  {
    metrics := map[];
    var cursor := 0;
    while cursor < |lines|
      invariant cursor <= HeaderEnd(lines)
      invariant metrics == Record(Entries(lines[..cursor]))
    {
      var line := Trim(lines[cursor]);
      RecordStep(lines, cursor);
      if StartsWith(line, "- ") && ':' in line {
        var value := Pieces(line);
        if |value| >= 2 {
          metrics := metrics[value[0] := Join(value[1..], ":")];
        }
      } else if line == "" {
        break;
      }
      assert cursor < HeaderEnd(lines);
      cursor := cursor + 1;
    }
    assert cursor == HeaderEnd(lines);
  }

  /** One more line scanned: its entry, if any, is recorded over what came before. */
  lemma RecordStep(lines: seq<string>, n: nat)
    requires n < |lines|
    ensures var m := Record(Entries(lines[..n]));
            Record(Entries(lines[..n + 1])) == match Entry(lines[n]) case None => m case Some(e) => m[e.0 := e.1]
  {
    var es := Entries(lines[..n + 1]);
    assert es[..n] == Entries(lines[..n]);
  }

  /** A key is recorded exactly when some entry assigns it. */
  lemma {:induction false} RecordKeys(es: seq<Option<(string, string)>>, k: string)
    ensures k in Record(es) <==> exists i :: 0 <= i < |es| && Assigns(es[i], k)
  {
    if es != [] {
      var n := |es| - 1;
      var init := es[..n];
      RecordKeys(init, k);
      assert forall i :: 0 <= i < n ==> init[i] == es[i];
    }
  }

  /** The recorded value of a key is the one of the last entry assigning it. */
  lemma {:induction false} RecordLastWins(es: seq<Option<(string, string)>>, i: nat, k: string)
    requires i < |es| && Assigns(es[i], k)
    requires forall j :: i < j < |es| ==> !Assigns(es[j], k)
    ensures k in Record(es) && Record(es)[k] == es[i].value.1
  {
    var n := |es| - 1;
    var init := es[..n];
    if i < n {
      assert forall j :: 0 <= j < n ==> init[j] == es[j];
      RecordLastWins(init, i, k);
    }
  }

  /** The entries of the header, read line by line. */
  lemma HeaderEntries(lines: seq<string>, k: string)
    ensures var es := Entries(lines[..HeaderEnd(lines)]);
            forall i :: 0 <= i < HeaderEnd(lines) ==> (Assigns(es[i], k) <==> Defines(lines[i], k))
  {
  }

  /** A key is in the metrics exactly when some metric line before the first blank line records it. */
  lemma MetricsKeys(lines: seq<string>, k: string)
    ensures k in Metrics(lines) <==> exists i :: 0 <= i < HeaderEnd(lines) && Defines(lines[i], k)
  {
    RecordKeys(Entries(lines[..HeaderEnd(lines)]), k);
    HeaderEntries(lines, k);
  }

  /** Of several lines recording the same key, the last one before the first blank line wins. */
  lemma MetricsLastWins(lines: seq<string>, i: nat, k: string)
    requires i < HeaderEnd(lines) && Defines(lines[i], k)
    requires forall j :: i < j < HeaderEnd(lines) ==> !Defines(lines[j], k)
    ensures k in Metrics(lines) && Metrics(lines)[k] == Entry(lines[i]).value.1
  {
    var es := Entries(lines[..HeaderEnd(lines)]);
    HeaderEntries(lines, k);
    RecordLastWins(es, i, k);
  }

  /** Nothing at or after the first blank line contributes: the rest of the text may be anything. */
  lemma MetricsIgnoreTail(lines: seq<string>, tail: seq<string>)
    requires HeaderEnd(lines) < |lines|
    ensures Metrics(lines[..HeaderEnd(lines) + 1] + tail) == Metrics(lines)
  {
    var n := HeaderEnd(lines);
    var other := lines[..n + 1] + tail;
    assert forall i :: 0 <= i <= n ==> other[i] == lines[i];
    var h := HeaderEnd(other);
    assert h == n;
    assert other[..h] == lines[..n];
  }

  /** Putting a space in front of the first of colon-free parts keeps them colon-free. */
  lemma SpacedColonFree(parts: seq<string>)
    requires |parts| >= 1 && forall i :: 0 <= i < |parts| ==> ':' !in parts[i]
    ensures var spaced := [" " + parts[0]] + parts[1..]; forall i :: 0 <= i < |spaced| ==> ':' !in spaced[i]
  {
    var spaced := [" " + parts[0]] + parts[1..];
    forall i | 0 <= i < |spaced|
      ensures ':' !in spaced[i]
    {
      if i == 0 {
        assert forall j :: 0 <= j < |spaced[0]| ==> spaced[0][j] == if j == 0 then ' ' else parts[0][j - 1];
      } else {
        assert spaced[i] == parts[i];
      }
    }
  }

  /** The pieces after `- ` of a line `- key: v1:v2:...` are the key, then the value parts with the space before the first. */
  lemma SplitOfEntry(k: string, parts: seq<string>)
    requires ':' !in k
    requires |parts| >= 1 && forall i :: 0 <= i < |parts| ==> ':' !in parts[i]
    ensures Split((k + ": " + Join(parts, ":")), ':') == [k, " " + parts[0]] + parts[1..]
  {
    var rest := " " + Join(parts, ":");
    var spaced := [" " + parts[0]] + parts[1..];
    assert k + ": " + Join(parts, ":") == k + [':'] + rest;
    SplitAfterFirst(k, ':', rest);
    JoinPrepend(" ", parts, ":");
    SpacedColonFree(parts);
    SplitOfJoin(spaced, ':');
  }

  /** The line `- key: value` with a trimmed, non-empty value is already trimmed and is a metric line. */
  lemma MetricLineShape(k: string, v: string)
    requires v != [] && Trimmed(v)
    ensures var t := "- " + k + ": " + v; Trimmed(t) && IsMetricLine(t) && t[2..] == k + ": " + v
  {
    var body := k + ": " + v;
    var t := "- " + body;
    assert t == "- " + k + ": " + v;
    assert t[|t| - 1] == v[|v| - 1];
    assert t[2..] == body;
    assert body[|k|] == ':';
    assert t[2 + |k|] == ':';
  }

  /** Trimming already trimmed pieces changes none of them. */
  lemma {:induction false} TrimAllTrimmed(parts: seq<string>)
    requires forall i :: 0 <= i < |parts| ==> Trimmed(parts[i])
    ensures TrimAll(parts) == parts
  {
    if parts != [] {
      TrimAllTrimmed(parts[1..]);
      assert parts == [parts[0]] + parts[1..];
    }
  }

  lemma TrimAllCons(x: string, xs: seq<string>)
    ensures TrimAll([x] + xs) == [Trim(x)] + TrimAll(xs)
  {
    assert ([x] + xs)[1..] == xs;
  }

  /** Trimming the pieces of `key: v1:v2:...` with trimmed parts gives back the key and the parts. */
  lemma TrimAllEntry(k: string, parts: seq<string>)
    requires Trimmed(k)
    requires |parts| >= 1 && forall i :: 0 <= i < |parts| ==> Trimmed(parts[i])
    ensures TrimAll([k, " " + parts[0]] + parts[1..]) == [k] + parts
  {
    var p := parts[0];
    var rest := parts[1..];
    assert [k, " " + p] + rest == [k] + ([" " + p] + rest);
    TrimAllCons(k, [" " + p] + rest);
    TrimAllCons(" " + p, rest);
    TrimOf(" ", p);
    TrimAllTrimmed(rest);
    assert parts == [p] + rest;
  }

  /** The pieces of a line `- key: v1:v2:...` with trimmed, colon-free parts. */
  lemma PiecesOf(k: string, parts: seq<string>)
    requires ':' !in k && Trimmed(k)
    requires |parts| >= 1 && forall i :: 0 <= i < |parts| ==> ':' !in parts[i] && Trimmed(parts[i])
    requires var v := Join(parts, ":"); v != [] && Trimmed(v)
    ensures var t := "- " + k + ": " + Join(parts, ":"); IsMetricLine(t) && Pieces(t) == [k] + parts
  {
    var t := "- " + k + ": " + Join(parts, ":");
    MetricLineShape(k, Join(parts, ":"));
    SplitOfEntry(k, parts);
    TrimAllEntry(k, parts);
  }

  /** A line `- key: v1:v2:...` with trimmed, colon-free parts records exactly that key and value. */
  lemma EntryOf(k: string, parts: seq<string>)
    requires ':' !in k && Trimmed(k)
    requires |parts| >= 1 && forall i :: 0 <= i < |parts| ==> ':' !in parts[i] && Trimmed(parts[i])
    requires var v := Join(parts, ":"); v != [] && Trimmed(v)
    ensures Entry("- " + k + ": " + Join(parts, ":")) == Some((k, Join(parts, ":")))
  {
    var t := "- " + k + ": " + Join(parts, ":");
    MetricLineShape(k, Join(parts, ":"));
    assert Trim(t) == t;
    PiecesOf(k, parts);
    assert Pieces(t)[1..] == parts;
  }

  /** A `- key: value` line before the first blank line, not overridden later, puts that pair in the metrics. */
  lemma MetricOfLine(lines: seq<string>, i: nat, k: string, parts: seq<string>)
    requires i < HeaderEnd(lines)
    requires ':' !in k && Trimmed(k)
    requires |parts| >= 1 && forall j :: 0 <= j < |parts| ==> ':' !in parts[j] && Trimmed(parts[j])
    requires var v := Join(parts, ":"); v != [] && Trimmed(v)
    requires lines[i] == "- " + k + ": " + Join(parts, ":")
    requires forall j :: i < j < HeaderEnd(lines) ==> !Defines(lines[j], k)
    ensures k in Metrics(lines) && Metrics(lines)[k] == Join(parts, ":")
  {
    EntryOf(k, parts);
    MetricsLastWins(lines, i, k);
  }
}
