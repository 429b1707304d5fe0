/**
 * The day a report is for: the `--date YYYYMMDD` argument, the `YYYY-MM-DD`
 * slug made from it, the report address built from a template, and the date
 * shown in the page title, which the report's own header line may override.
 */
module Dates {
  import opened Maybe
  import opened Text
  import opened Scan

  const Placeholder := "{YYYYMMDD}"
  const ReportHost := "https://logs.gleaftex.com"
  const ReportDir := "/runs/fa888/martingale/reports"
  /** The default report address: `https://logs.gleaftex.com/runs/fa888/martingale/reports/report_{YYYYMMDD}.txt`. */
  const DefaultTemplate := ReportHost + ReportDir + "/report_" + Placeholder + ".txt"
  /** The marker of the report's header line. */
  const HeaderMarker := "【每日收益快照】"

  /** `/^\d{8}$/`: exactly eight ASCII digits. */
  predicate IsDateArg(arg: string) {
    |arg| == 8 && forall i :: 0 <= i < 8 ==> IsDigit(arg[i])
  }

  /** The argument check: a date argument that is missing, empty or not eight digits stops the import. */
  function CheckDateArg(arg: Option<string>): (r: Option<string>)
    ensures r.Some? <==> arg.Some? && IsDateArg(arg.value)
    ensures r.Some? ==> r == arg && |r.value| == 8
  {
    match arg
    case None => None
    case Some(a) => if a != "" && IsDateArg(a) then Some(a) else None
  }

  /** `YYYY-MM-DD` from `YYYYMMDD`. */
  function SlugDate(arg: string): (slug: string)
    requires IsDateArg(arg)
    ensures IsIsoDate(slug)
  {
    arg[0..4] + "-" + arg[4..6] + "-" + arg[6..8]
  }

  /** Removing the dashes from the slug gives the argument back (the chart's identifier depends on it). */
  lemma SlugRoundTrip(arg: string)
    requires IsDateArg(arg)
    ensures Without(SlugDate(arg), '-') == arg
  {
    var a, b, c := arg[0..4], arg[4..6], arg[6..8];
    assert '-' !in a && '-' !in b && '-' !in c;
    assert Without("-", '-') == [];
    Without3(a, b, c, "-", '-');
    assert a + b == arg[..6];
    assert arg[..6] + c == arg;
  }

  /** Three pieces without `x`, joined by separators made only of `x`, lose exactly the separators. */
  lemma Without3(a: string, b: string, c: string, d: string, x: char)
    requires x !in a && x !in b && x !in c && Without(d, x) == []
    ensures Without(a + d + b + d + c, x) == a + b + c
  {
    WithoutFree(a, x);
    WithoutFree(b, x);
    WithoutFree(c, x);
    var t4 := d + c;
    var t3 := b + t4;
    var t2 := d + t3;
    WithoutAppend(d, c, x);
    assert Without(t4, x) == c;
    WithoutAppend(b, t4, x);
    assert Without(t3, x) == b + c;
    WithoutAppend(d, t3, x);
    assert Without(t2, x) == b + c;
    WithoutAppend(a, t2, x);
    Regroup(a + d + b, d, c);
    Regroup(a + d, b, t4);
    Regroup(a, d, t3);
    Regroup(a, b, c);
  }

  lemma {:induction false} WithoutFree(s: string, c: char)
    requires c !in s
    ensures Without(s, c) == s
  {
    if s != [] {
      WithoutFree(s[1..], c);
      assert s == [s[0]] + s[1..];
    }
  }

  lemma {:induction false} WithoutAppend(s: string, t: string, c: char)
    ensures Without(s + t, c) == Without(s, c) + Without(t, c)
  {
    if s != [] {
      assert (s + t)[1..] == s[1..] + t;
      WithoutAppend(s[1..], t, c);
    } else {
      assert s + t == t;
    }
  }

  /** `nav-` and the slug without its dashes. */
  function ChartId(slug: string): (id: string)
    ensures StartsWith(id, "nav-") && '-' !in id[4..]
  {
    var id := "nav-" + Without(slug, '-');
    assert id[4..] == Without(slug, '-');
    id
  }

  lemma ChartIdOf(arg: string)
    requires IsDateArg(arg)
    ensures ChartId(SlugDate(arg)) == "nav-" + arg
  {
    SlugRoundTrip(arg);
  }

  /**
   * `urlTemplate.replace('{YYYYMMDD}', dateArg)`: only the first placeholder is
   * filled, and a template without one is used as it is.
   */
  function ReportUrl(template: string, arg: string): (url: string)
    ensures Find(template, Placeholder) == -1 ==> url == template
    ensures var i := Find(template, Placeholder);
            0 <= i ==> StartsWith(url, template[..i] + arg) && EndsWith(url, template[i + |Placeholder|..])
  {
    ReplaceFirst(template, Placeholder, arg)
  }

  /** A template whose text before a placeholder does not hold one gets the argument in that placeholder's place. */
  lemma ReportUrlOf(pre: string, post: string, arg: string)
    requires Find(pre, Placeholder) == -1
    ensures ReportUrl(pre + Placeholder + post, arg) == pre + arg + post
  {
    var s := pre + Placeholder + post;
    PlaceholderAfter(pre, post);
    assert s[..|pre|] == pre;
    assert s[|pre| + |Placeholder|..] == post;
  }

  /** Only the first character of the placeholder is `{`, so no occurrence can straddle the end of `pre`. */
  lemma PlaceholderAfter(pre: string, post: string)
    requires Find(pre, Placeholder) == -1
    ensures Find(pre + Placeholder + post, Placeholder) == |pre|
  {
    assert Placeholder[0] !in Placeholder[1..];
    FindBefore(pre, Placeholder, post);
  }

  /** A template that holds no `{` at all is used as it is. */
  lemma ReportUrlFixed(template: string, arg: string)
    requires '{' !in template
    ensures ReportUrl(template, arg) == template
  {
    FindAbsent(template, Placeholder);
  }

  /** The default address ends in `report_<argument>.txt`. */
  lemma DefaultUrl(arg: string)
    ensures ReportUrl(DefaultTemplate, arg) == ReportHost + ReportDir + "/report_" + arg + ".txt"
  {
    var pre := ReportHost + ReportDir + "/report_";
    HostFree();
    DirFree();
    assert '{' !in "/report_";
    FindAbsent(pre, Placeholder);
    ReportUrlOf(pre, ".txt", arg);
  }

  lemma HostFree()
    ensures '{' !in ReportHost
  {
  }

  lemma DirFree()
    ensures '{' !in ReportDir
  {
  }

  // ---------------------------------------------------------------- title date

  /** The first line at or after `k` that starts with the header marker (untrimmed), or -1. */
  function HeaderFrom(lines: seq<string>, k: nat): (r: int)
    requires k <= |lines|
    ensures r == -1 || k <= r < |lines|
    ensures r == -1 <==> forall i :: k <= i < |lines| ==> !StartsWith(lines[i], HeaderMarker)
    ensures 0 <= r ==> StartsWith(lines[r], HeaderMarker)
    ensures 0 <= r ==> forall i :: k <= i < r ==> !StartsWith(lines[i], HeaderMarker)
    decreases |lines| - k
  {
    if k == |lines| then -1
    else if StartsWith(lines[k], HeaderMarker) then k
    else HeaderFrom(lines, k + 1)
  }

  /** Line `i` is the first line that starts with the header marker. */
  predicate FirstMarked(lines: seq<string>, i: int) {
    0 <= i < |lines| && StartsWith(lines[i], HeaderMarker) &&
    forall j :: 0 <= j < i ==> !StartsWith(lines[j], HeaderMarker)
  }

  /** `lines.find((line) => line.startsWith('【每日收益快照】')) ?? ''`. */
  function HeaderLine(lines: seq<string>): (h: string)
    ensures h == "" || StartsWith(h, HeaderMarker)
    ensures h == "" <==> forall i :: 0 <= i < |lines| ==> !StartsWith(lines[i], HeaderMarker)
    ensures forall i :: FirstMarked(lines, i) ==> h == lines[i]
  {
    var i := HeaderFrom(lines, 0);
    if i == -1 then ""
    else
      assert FirstMarked(lines, i);
      assert forall k :: FirstMarked(lines, k) ==> k == i;
      lines[i]
  }

  /** `\d{4}-\d{2}-\d{2}` matches at index `i` of `s`. */
  predicate DateAt(s: string, i: nat) {
    i + 10 <= |s| && IsIsoDate(s[i..i + 10])
  }

  function DateFrom(s: string, k: nat): (r: int)
    ensures r == -1 || k <= r
    ensures r == -1 ==> forall i :: k <= i ==> !DateAt(s, i)
    ensures 0 <= r ==> DateAt(s, r) && forall i :: k <= i < r ==> !DateAt(s, i)
    decreases |s| - k
  {
    if k + 10 > |s| then -1
    else if DateAt(s, k) then k
    else DateFrom(s, k + 1)
  }

  /** `s.match(/(\d{4}-\d{2}-\d{2})/)?.[1]`: the leftmost date in `s`. */
  function FirstDate(s: string): (r: Option<string>)
    ensures r.None? <==> forall i :: 0 <= i ==> !DateAt(s, i)
    ensures r.Some? ==> IsIsoDate(r.value)
    ensures r.Some? ==> exists i: nat :: DateAt(s, i) && r.value == s[i..i + 10] && forall j :: 0 <= j < i ==> !DateAt(s, j)
  {
    var i := DateFrom(s, 0);
    if i == -1 then None else Some(s[i..i + 10])
  }

  /** The date of the page title: the header line's first date, or the slug. */
  function TitleDate(lines: seq<string>, slug: string): (t: string)
    ensures IsIsoDate(slug) ==> IsIsoDate(t)
    ensures FirstDate(HeaderLine(lines)).None? ==> t == slug
    ensures FirstDate(HeaderLine(lines)).Some? ==> t == FirstDate(HeaderLine(lines)).value
    ensures t != slug ==> exists i :: FirstMarked(lines, i) && FirstDate(lines[i]) == Some(t)
  {
    var i := HeaderFrom(lines, 0);
    assert i != -1 ==> FirstMarked(lines, i);
    FirstDate(HeaderLine(lines)).GetOr(slug)
  }

  /** A report without a header line is titled with the slug. */
  lemma TitleWithoutHeader(lines: seq<string>, slug: string)
    requires forall i :: 0 <= i < |lines| ==> !StartsWith(lines[i], HeaderMarker)
    ensures TitleDate(lines, slug) == slug
  {
    assert FirstDate("").None?;
  }

  /** The leftmost date of a text whose prefix holds no digit is the date right after that prefix. */
  lemma FirstDateAfter(pre: string, date: string, post: string)
    requires IsIsoDate(date)
    requires forall i :: 0 <= i < |pre| ==> !IsDigit(pre[i])
    ensures FirstDate(pre + date + post) == Some(date)
  {
    var s := pre + date + post;
    assert s[|pre|..|pre| + 10] == date;
    forall j | 0 <= j < |pre| ensures !DateAt(s, j) {
      assert s[j] == pre[j];
      NoDateAt(s, j);
    }
    var r := DateFrom(s, 0);
    assert DateAt(s, |pre|);
    assert r == |pre|;
  }

  /** No date starts at a character that is not a digit. */
  lemma NoDateAt(s: string, j: nat)
    requires j < |s| && !IsDigit(s[j])
    ensures !DateAt(s, j)
  {
    if j + 10 <= |s| {
      assert s[j..j + 10][0] == s[j];
    }
  }

  /**
   * The first header line, when its first digit opens a date, titles the page
   * with that date, wherever the line stands in the report.
   */
  lemma TitleFromHeader(lines: seq<string>, i: nat, pre: string, date: string, post: string, slug: string)
    requires IsIsoDate(date)
    requires forall k :: 0 <= k < |pre| ==> !IsDigit(pre[k])
    requires i < |lines| && lines[i] == HeaderMarker + pre + date + post
    requires forall j :: 0 <= j < i ==> !StartsWith(lines[j], HeaderMarker)
    ensures TitleDate(lines, slug) == date
  {
    var line := lines[i];
    assert line == (HeaderMarker + pre) + date + post;
    assert line[..|HeaderMarker|] == HeaderMarker;
    assert FirstMarked(lines, i);
    HeaderPrefix();
    forall k | 0 <= k < |HeaderMarker + pre|
      ensures !IsDigit((HeaderMarker + pre)[k])
    {
      if k >= |HeaderMarker| {
        assert (HeaderMarker + pre)[k] == pre[k - |HeaderMarker|];
      }
    }
    FirstDateAfter(HeaderMarker + pre, date, post);
  }

  lemma HeaderPrefix()
    ensures forall i :: 0 <= i < |HeaderMarker| ==> !IsDigit(HeaderMarker[i])
  {
  }
}
