/**
 * Section discovery and block collection: the report's marker lines are
 * found by a first-occurrence scan, and the lines under each marker are
 * gathered up to the next marker, the end of the text, or the first blank
 * line.  The basis block is the exception: it runs to the end of the text
 * and only skips blank lines.
 */
module Sections {
  import opened Maybe
  import opened Text

  const AssetsLabel := "币种表现"
  const OperationsLabel := "当日操作"
  const FieldsLabel := "字段说明"
  const BasisLabel := "口径"
  /** The labelled separator after which the basis marker line may carry a first basis line. */
  const BasisSeparator := "口径："

  /** The line, trimmed, starts with `marker`. */
  predicate Labelled(line: string, marker: string) {
    StartsWith(Trim(line), marker)
  }

  function IndexFrom(lines: seq<string>, marker: string, k: nat): (r: int)
    requires k <= |lines|
    ensures r == -1 || (k <= r < |lines| && Labelled(lines[r], marker))
    ensures forall i :: k <= i < |lines| && (r == -1 || i < r) ==> !Labelled(lines[i], marker)
    decreases |lines| - k
  {
    if k == |lines| then -1
    else if Labelled(lines[k], marker) then k
    else IndexFrom(lines, marker, k + 1)
  }

  /** `findIndex(marker)`: the first line whose trimmed text starts with `marker`, or -1. */
  function FindIndex(lines: seq<string>, marker: string): (r: int)
    ensures -1 <= r < |lines|
    ensures r == -1 <==> forall i :: 0 <= i < |lines| ==> !Labelled(lines[i], marker)
    ensures 0 <= r ==> Labelled(lines[r], marker)
    ensures 0 <= r ==> forall i :: 0 <= i < r ==> !Labelled(lines[i], marker)
  {
    IndexFrom(lines, marker, 0)
  }

  /** The index a block may not reach: `end`, or the end of the text when `end` is -1. */
  function Limit(lines: seq<string>, end: int): (n: nat)
    ensures n <= |lines|
    ensures end == -1 ==> n == |lines|
    ensures 0 <= end <= |lines| ==> n == end
  {
    if end == -1 then |lines| else if end < 0 then 0 else if end < |lines| then end else |lines|
  }

  /** A line that trims to empty. */
  predicate Blank(line: string) {
    Trim(line) == ""
  }

  /** The first index from `i` on that is at `limit` or holds a blank line. */
  function StopFrom(lines: seq<string>, limit: nat, i: nat): (n: nat)
    requires limit <= |lines|
    ensures i <= n
    ensures i < n ==> n <= limit
    ensures forall j :: i <= j < n ==> !Blank(lines[j])
    ensures n < limit ==> Blank(lines[n])
    decreases limit - i
  {
    if limit <= i || Blank(lines[i]) then i else StopFrom(lines, limit, i + 1)
  }

  /**
   * The lines a block is made of, before trimming: those strictly after
   * `start`, below `end` (or to the end of the text when `end` is -1), up to
   * the first blank line; nothing when `start` is -1.
   */
  function Span(lines: seq<string>, start: int, end: int): (span: seq<string>)
    requires -1 <= start
    ensures start == -1 ==> span == []
    ensures span != [] ==> start + 1 + |span| <= Limit(lines, end)
    ensures forall k :: 0 <= k < |span| ==> start + 1 + k < |lines| && span[k] == lines[start + 1 + k] && !Blank(span[k])
    ensures start != -1 && start + 1 + |span| < Limit(lines, end) ==> Blank(lines[start + 1 + |span|])
  {
    if start == -1 then []
    else
      var first := start + 1;
      var n := StopFrom(lines, Limit(lines, end), first);
      if n == first then [] else lines[first..n]
  }

  /** `collectBlock(start, end)`: the lines of the span, trimmed; none of them is empty. */
  function Block(lines: seq<string>, start: int, end: int): (block: seq<string>)
    requires -1 <= start
    ensures |block| == |Span(lines, start, end)|
    ensures forall k :: 0 <= k < |block| ==> block[k] == Trim(Span(lines, start, end)[k]) && block[k] != ""
  {
    TrimAll(Span(lines, start, end))
  }

  /** The block loop of the import script. */
  method CollectBlock(lines: seq<string>, start: int, end: int) returns (block: seq<string>)
    requires -1 <= start
    ensures block == Block(lines, start, end)
  {
    if start == -1 {
      return [];
    }
    ghost var span := Span(lines, start, end);
    block := [];
    var i := start + 1;
    while i < |lines| && (end == -1 || i < end)
      invariant start + 1 <= i <= start + 1 + |span|
      invariant |block| == i - (start + 1)
      invariant forall k :: 0 <= k < |block| ==> block[k] == Trim(span[k])
    {
      var line := Trim(lines[i]);
      SpanAt(lines, start, end, i);
      if line == "" {
        break;
      }
      block := block + [line];
      i := i + 1;
    }
    SpanExit(lines, start, end, i);
  }

  /** Below the limit, the span goes on exactly as long as the lines are not blank. */
  lemma SpanAt(lines: seq<string>, start: int, end: int, i: int)
    requires -1 < start && start + 1 <= i <= start + 1 + |Span(lines, start, end)|
    requires i < |lines| && (end == -1 || i < end)
    ensures var span := Span(lines, start, end);
            && (i < start + 1 + |span| <==> !Blank(lines[i]))
            && (i < start + 1 + |span| ==> span[i - (start + 1)] == lines[i])
  {
    assert i < Limit(lines, end);
  }

  /** At the limit, the span is over. */
  lemma SpanExit(lines: seq<string>, start: int, end: int, i: int)
    requires -1 < start && start + 1 <= i <= start + 1 + |Span(lines, start, end)|
    requires !(i < |lines| && (end == -1 || i < end)) || Blank(lines[i])
    ensures i == start + 1 + |Span(lines, start, end)|
  {
    assert i < |lines| && (end == -1 || i < end) ==> i < Limit(lines, end);
  }

  /** A blank line ends a block even when the next marker lies further on: what follows it is lost. */
  lemma BlankEndsBlock(lines: seq<string>, start: int, end: int, j: nat)
    requires -1 <= start < j < Limit(lines, end)
    requires Blank(lines[j])
    ensures |Block(lines, start, end)| <= j - (start + 1)
  {
    var span := Span(lines, start, end);
  }

  /** Without blank lines the block is every line between its two markers. */
  lemma BlockBetweenMarkers(lines: seq<string>, start: int, end: int)
    requires -1 < start < end <= |lines|
    requires forall j :: start < j < end ==> !Blank(lines[j])
    ensures |Block(lines, start, end)| == end - (start + 1)
  {
    var span := Span(lines, start, end);
  }

  /** The four markers, each the first line labelled with it, or -1. */
  datatype Markers = Markers(assets: int, operations: int, fields: int, basis: int)

  function FindMarkers(lines: seq<string>): (m: Markers)
    ensures m.assets == FindIndex(lines, AssetsLabel) && m.operations == FindIndex(lines, OperationsLabel)
    ensures m.fields == FindIndex(lines, FieldsLabel) && m.basis == FindIndex(lines, BasisLabel)
  {
    Markers(FindIndex(lines, AssetsLabel), FindIndex(lines, OperationsLabel),
            FindIndex(lines, FieldsLabel), FindIndex(lines, BasisLabel))
  }

  /** The assets block stops at the operations marker, or at the fields marker when there is none. */
  function AssetsEnd(m: Markers): (r: int)
    ensures r == m.operations || r == m.fields
    ensures m.operations != -1 ==> r == m.operations
    ensures r == -1 <==> m.operations == -1 && m.fields == -1
  {
    if m.operations == -1 then m.fields else m.operations
  }

  /** The operations block stops at the fields marker, or at the basis marker when there is none. */
  function OperationsEnd(m: Markers): (r: int)
    ensures r == m.fields || r == m.basis
    ensures m.fields != -1 ==> r == m.fields
    ensures r == -1 <==> m.fields == -1 && m.basis == -1
  {
    if m.fields == -1 then m.basis else m.fields
  }

  /** `basisLine.split('口径：')[1]?.trim()`: the trimmed text between the first two separators, if any. */
  function Inline(line: string): (r: Option<string>)
    ensures r.None? <==> Find(line, BasisSeparator) == -1
    ensures r.Some? ==> Trimmed(r.value)
  {
    match SplitSecond(line, BasisSeparator)
    case None => None
    case Some(piece) => Some(Trim(piece))
  }

  /** The inline segment of the basis marker line, kept when it is not empty. */
  function InlineBasis(line: string): (r: seq<string>)
    ensures |r| <= 1 && forall k :: 0 <= k < |r| ==> r[k] != ""
    ensures Find(line, BasisSeparator) == -1 ==> r == []
  {
    match Inline(line)
    case Some(t) => if t != "" then [t] else []
    case None => []
  }

  /** The trimmed non-blank lines, in order: blank lines are skipped, not terminating. */
  function NonBlank(ls: seq<string>): (r: seq<string>)
    ensures |r| <= |ls|
    ensures forall k :: 0 <= k < |r| ==> r[k] != ""
  {
    if ls == [] then []
    else
      var last := ls[|ls| - 1];
      NonBlank(ls[..|ls| - 1]) + (if Blank(last) then [] else [Trim(last)])
  }

  /** The non-blank lines of two stretches of text are those of the first, then those of the second. */
  lemma {:induction false} NonBlankAppend(a: seq<string>, b: seq<string>)
    ensures NonBlank(a + b) == NonBlank(a) + NonBlank(b)
    decreases |b|
  {
    if b == [] {
      assert a + b == a;
    } else {
      var n := |b| - 1;
      assert (a + b)[..|a + b| - 1] == a + b[..n];
      NonBlankAppend(a, b[..n]);
    }
  }

  /** One more line read: it is kept, trimmed, unless it is blank. */
  lemma NonBlankStep(lines: seq<string>, from: nat, i: nat)
    requires from <= i < |lines|
    ensures var line := Trim(lines[i]); NonBlank(lines[from..i + 1]) == NonBlank(lines[from..i]) + (if line == "" then [] else [line])
  {
    var seen := lines[from..i + 1];
    assert seen[..|seen| - 1] == lines[from..i];
  }

  /** A blank line in the basis text neither shows up nor stops the collection. */
  lemma BlankSkipped(a: seq<string>, blank: string, b: seq<string>)
    requires Blank(blank)
    ensures NonBlank(a + [blank] + b) == NonBlank(a) + NonBlank(b)
  {
    NonBlankAppend(a + [blank], b);
    BlankDropped(a, blank);
  }

  lemma BlankDropped(a: seq<string>, blank: string)
    requires Blank(blank)
    ensures NonBlank(a + [blank]) == NonBlank(a)
  {
    var ab := a + [blank];
    assert ab[..|ab| - 1] == a;
    assert NonBlank(ab) == NonBlank(a) + [];
  }

  /** A text appears among the non-blank lines exactly when it is the non-empty trim of one of them. */
  lemma NonBlankMembers(ls: seq<string>, x: string)
    ensures x in NonBlank(ls) <==> x != "" && exists i :: 0 <= i < |ls| && Trim(ls[i]) == x
  {
    if x in NonBlank(ls) {
      NonBlankFrom(ls, x);
    }
    if x != "" && exists i :: 0 <= i < |ls| && Trim(ls[i]) == x {
      var i :| 0 <= i < |ls| && Trim(ls[i]) == x;
      NonBlankHas(ls, i);
    }
  }

  /** What the non-blank lines hold is the non-empty trim of some line. */
  lemma {:induction false} NonBlankFrom(ls: seq<string>, x: string)
    requires x in NonBlank(ls)
    ensures x != "" && exists i :: 0 <= i < |ls| && Trim(ls[i]) == x
  {
    var n := |ls| - 1;
    var init := ls[..n];
    assert NonBlank(ls) == NonBlank(init) + (if Blank(ls[n]) then [] else [Trim(ls[n])]);
    if x in NonBlank(init) {
      NonBlankFrom(init, x);
      var i :| 0 <= i < n && Trim(init[i]) == x;
      assert init[i] == ls[i];
    } else {
      assert Trim(ls[n]) == x;
    }
  }

  /** The trim of every line that is not blank is among the non-blank lines. */
  lemma {:induction false} NonBlankHas(ls: seq<string>, i: nat)
    requires i < |ls| && !Blank(ls[i])
    ensures Trim(ls[i]) in NonBlank(ls)
  {
    var n := |ls| - 1;
    var init := ls[..n];
    assert NonBlank(ls) == NonBlank(init) + (if Blank(ls[n]) then [] else [Trim(ls[n])]);
    if i < n {
      assert init[i] == ls[i];
      NonBlankHas(init, i);
    }
  }

  /**
   * The basis block: nothing when the marker is missing; otherwise the inline
   * segment of the marker line, then every non-blank trimmed line after it.
   */
  function Basis(lines: seq<string>, basis: int): (r: seq<string>)
    requires -1 <= basis < |lines|
    ensures basis == -1 ==> r == []
    ensures forall k :: 0 <= k < |r| ==> r[k] != ""
  {
    if basis == -1 then [] else InlineBasis(lines[basis]) + NonBlank(lines[basis + 1..])
  }

  /** The basis loop of the import script: every line from `from` on, trimmed, blank ones skipped. */
  method CollectNonBlank(lines: seq<string>, from: nat) returns (tail: seq<string>)
    requires from <= |lines|
    ensures tail == NonBlank(lines[from..])
  {
    tail := [];
    for i := from to |lines|
      invariant tail == NonBlank(lines[from..i])
    {
      var line := Trim(lines[i]);
      NonBlankStep(lines, from, i);
      if line == "" {
        continue;
      }
      tail := tail + [line];
    }
    assert lines[from..|lines|] == lines[from..];
  }

  /** The basis block as the import script collects it: the inline segment, then the loop over the lines after the marker. */
  method CollectBasis(lines: seq<string>, basis: int) returns (block: seq<string>)
    requires -1 <= basis < |lines|
    ensures block == Basis(lines, basis)
  {
    block := [];
    if basis != -1 {
      var tail := CollectNonBlank(lines, basis + 1);
      block := InlineBasis(lines[basis]) + tail;
    }
  }

  /** Every line of the basis block is non-empty, and the whole text after the marker is taken. */
  lemma BasisLines(lines: seq<string>, basis: int, j: nat)
    requires 0 <= basis < j < |lines|
    ensures forall k :: 0 <= k < |Basis(lines, basis)| ==> Basis(lines, basis)[k] != ""
    ensures Trim(lines[j]) != "" ==> Trim(lines[j]) in Basis(lines, basis)
  {
    var after := lines[basis + 1..];
    assert after[j - (basis + 1)] == lines[j];
    NonBlankMembers(after, Trim(lines[j]));
  }

  /**
   * Only the segment between the first and the second separator is taken from
   * the marker line, never the whole remainder.
   */
  lemma InlineSegment(pre: string, mid: string, post: string)
    requires Find(pre, BasisSeparator) == -1 && Find(mid, BasisSeparator) == -1
    requires post == [] || StartsWith(post, BasisSeparator)
    ensures Inline(pre + BasisSeparator + mid + post) == Some(Trim(mid))
  {
    assert BasisSeparator[0] !in BasisSeparator[1..];
    SplitSecondOf(pre, BasisSeparator, mid, post);
  }

  /** The four blocks of a report. */
  datatype Sections = Sections(assets: seq<string>, operations: seq<string>, fields: seq<string>, basis: seq<string>)

  /** The sections of a report, block by block. */
  function SectionsOf(lines: seq<string>): (s: Sections)
    ensures forall k :: 0 <= k < |s.assets| ==> s.assets[k] != ""
    ensures forall k :: 0 <= k < |s.operations| ==> s.operations[k] != ""
    ensures forall k :: 0 <= k < |s.fields| ==> s.fields[k] != ""
    ensures forall k :: 0 <= k < |s.basis| ==> s.basis[k] != ""
  {
    var m := FindMarkers(lines);
    Sections(Block(lines, m.assets, AssetsEnd(m)),
             Block(lines, m.operations, OperationsEnd(m)),
             Block(lines, m.fields, m.basis),
             Basis(lines, m.basis))
  }

  /** The section discovery and block collection of the import script. */
  method SplitSections(lines: seq<string>) returns (sections: Sections)
    ensures sections == SectionsOf(lines)
  {
    var assetsIndex := FindIndex(lines, AssetsLabel);
    var opsIndex := FindIndex(lines, OperationsLabel);
    var fieldsIndex := FindIndex(lines, FieldsLabel);
    var basisIndex := FindIndex(lines, BasisLabel);
    var assets := CollectBlock(lines, assetsIndex, if opsIndex == -1 then fieldsIndex else opsIndex);
    var operations := CollectBlock(lines, opsIndex, if fieldsIndex == -1 then basisIndex else fieldsIndex);
    var fields := CollectBlock(lines, fieldsIndex, basisIndex);
    var basis := CollectBasis(lines, basisIndex);
    sections := Sections(assets, operations, fields, basis);
  }

  /** The assets block stays above the operations marker, or the fields marker when operations is missing. */
  lemma AssetsBeforeNext(lines: seq<string>)
    ensures var m := FindMarkers(lines); var b := SectionsOf(lines).assets;
            m.operations != -1 && b != [] ==> m.assets + |b| < m.operations
    ensures var m := FindMarkers(lines); var b := SectionsOf(lines).assets;
            m.operations == -1 && m.fields != -1 && b != [] ==> m.assets + |b| < m.fields
  {
    var m := FindMarkers(lines);
    if 0 <= AssetsEnd(m) {
      BlockBeforeEnd(lines, m.assets, AssetsEnd(m));
    }
  }

  /** The operations block stays above the fields marker, or the basis marker when fields is missing. */
  lemma OperationsBeforeNext(lines: seq<string>)
    ensures var m := FindMarkers(lines); var b := SectionsOf(lines).operations;
            m.fields != -1 && b != [] ==> m.operations + |b| < m.fields
    ensures var m := FindMarkers(lines); var b := SectionsOf(lines).operations;
            m.fields == -1 && m.basis != -1 && b != [] ==> m.operations + |b| < m.basis
  {
    var m := FindMarkers(lines);
    if 0 <= OperationsEnd(m) {
      BlockBeforeEnd(lines, m.operations, OperationsEnd(m));
    }
  }

  /** The fields block stays above the basis marker. */
  lemma FieldsBeforeBasis(lines: seq<string>)
    ensures var m := FindMarkers(lines); var b := SectionsOf(lines).fields;
            0 <= m.basis && b != [] ==> m.fields + |b| < m.basis
  {
    var m := FindMarkers(lines);
    if 0 <= m.basis {
      BlockBeforeEnd(lines, m.fields, m.basis);
    }
  }

  /** A non-empty block ends before its end marker. */
  lemma BlockBeforeEnd(lines: seq<string>, start: int, end: int)
    requires -1 <= start && 0 <= end
    ensures var b := Block(lines, start, end); b != [] ==> start + |b| < end
  {
    var b := Block(lines, start, end);
    if b != [] {
      assert start + 1 + (|b| - 1) < Limit(lines, end);
    }
  }
}
