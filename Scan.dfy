/**
 * Hand-rolled matchers for the regular expressions of the report parser.
 * Each matcher works on the text that is still unread and returns what it
 * consumed and what is left.  Every greedy run in the source's patterns is
 * followed by a character outside its class (or by nothing), so the longest
 * run is the one a backtracking regular-expression engine settles on.
 */
module Scan {
  import opened Maybe
  import opened Text

  /** The character classes the patterns use. */
  datatype CharClass =
    | Space          // \s
    | NonSpace       // \S, [^\s]
    | Digit          // \d
    | DigitDot       // [0-9.]
    | DigitDotComma  // [0-9.,]
    | DigitDotMinus  // [-\d.], [0-9.\-]

  predicate InClass(c: char, k: CharClass) {
    match k
    case Space => IsSpace(c)
    case NonSpace => !IsSpace(c)
    case Digit => IsDigit(c)
    case DigitDot => IsDigit(c) || c == '.'
    case DigitDotComma => IsDigit(c) || c == '.' || c == ','
    case DigitDotMinus => IsDigit(c) || c == '.' || c == '-'
  }

  predicate AllIn(s: string, k: CharClass) {
    forall i :: 0 <= i < |s| ==> InClass(s[i], k)
  }

  /** What a matcher consumed (`token`) and the text after it (`rest`). */
  datatype Cut = Cut(token: string, rest: string)

  /** The longest, possibly empty, run of `k` at the start of `s`. */
  function Span(s: string, k: CharClass): (c: Cut)
    ensures c.token + c.rest == s
    ensures AllIn(c.token, k)
    ensures c.rest == [] || !InClass(c.rest[0], k)
  {
    if s != [] && InClass(s[0], k) then
      var c := Span(s[1..], k);
      ConsCut(s, c);
      Cut([s[0]] + c.token, c.rest)
    else Cut([], s)
  }

  /** A cut of the tail of `s`, with the head of `s` put back on its token, is a cut of `s`. */
  lemma ConsCut(s: string, c: Cut)
    requires s != [] && c.token + c.rest == s[1..]
    ensures ([s[0]] + c.token) + c.rest == s
  {
    Regroup([s[0]], c.token, c.rest);
  }

  /** `k+`, greedy: the longest non-empty run of `k` at the start of `s`. */
  function Many1(s: string, k: CharClass): (r: Option<Cut>)
    ensures r.Some? <==> s != [] && InClass(s[0], k)
    ensures r.Some? ==> r.value.token != [] && r.value.token + r.value.rest == s
    ensures r.Some? ==> AllIn(r.value.token, k)
    ensures r.Some? ==> r.value.rest == [] || !InClass(r.value.rest[0], k)
  {
    var c := Span(s, k);
    if c.token == [] then None else Some(c)
  }

  /** A maximal run is found exactly where it was put. */
  lemma Many1Of(tok: string, rest: string, k: CharClass)
    requires tok != [] && AllIn(tok, k)
    requires rest == [] || !InClass(rest[0], k)
    ensures Many1(tok + rest, k) == Some(Cut(tok, rest))
  {
    var s := tok + rest;
    assert s[0] == tok[0];
    var c := Many1(s, k).value;
    RunAt(tok, rest);
    RunAt(c.token, c.rest);
    RunEnds(s, |tok|, |c.token|, k);
    assert c.token == s[..|tok|] && tok == s[..|tok|];
    assert c.rest == s[|tok|..] && rest == s[|tok|..];
  }

  /** How a text split in two reads at and before the split. */
  lemma RunAt(a: string, b: string)
    ensures forall i :: 0 <= i < |a| ==> (a + b)[i] == a[i]
    ensures b != [] ==> (a + b)[|a|] == b[0]
  {
  }

  /** Two runs of `k` from the start of `s`, each ending at the text's end or at a character outside `k`, end at the same place. */
  lemma RunEnds(s: string, n: nat, m: nat, k: CharClass)
    requires n <= |s| && m <= |s|
    requires forall i :: 0 <= i < n ==> InClass(s[i], k)
    requires n == |s| || !InClass(s[n], k)
    requires forall i :: 0 <= i < m ==> InClass(s[i], k)
    requires m == |s| || !InClass(s[m], k)
    ensures n == m
  {
  }

  /** A literal at the start of `s`; yields the text after it. */
  function Lit(s: string, lit: string): (r: Option<string>)
    ensures r.Some? <==> StartsWith(s, lit)
    ensures r.Some? ==> s == lit + r.value
  {
    if StartsWith(s, lit) then Some(s[|lit|..]) else None
  }

  lemma LitOf(lit: string, rest: string)
    ensures Lit(lit + rest, lit) == Some(rest)
  {
    assert (lit + rest)[..|lit|] == lit;
  }

  /** A non-empty run of white space: what `\s+` consumes. */
  predicate IsGap(g: string) {
    g != [] && AllSpace(g)
  }

  /** `\s+`: the text after the run of white space that `s` starts with. */
  function Skip(s: string): (r: Option<string>)
    ensures r.Some? <==> s != [] && IsSpace(s[0])
    ensures r.Some? ==> |r.value| < |s| && (r.value == [] || !IsSpace(r.value[0]))
    ensures r.Some? ==> var gap := s[..|s| - |r.value|]; IsGap(gap) && s == gap + r.value
  {
    var c :- Many1(s, Space);
    assert s[..|s| - |c.rest|] == c.token;
    assert forall i :: 0 <= i < |c.token| ==> InClass(c.token[i], Space);
    Some(c.rest)
  }

  lemma SkipOf(gap: string, rest: string)
    requires gap != [] && AllSpace(gap)
    requires rest == [] || !IsSpace(rest[0])
    ensures Skip(gap + rest) == Some(rest)
  {
    assert AllIn(gap, Space);
    Many1Of(gap, rest, Space);
  }

  /** A calendar-date shape `YYYY-MM-DD` (digits, not a check of the calendar). */
  predicate IsIsoDate(t: string) {
    && |t| == 10
    && IsDigit(t[0]) && IsDigit(t[1]) && IsDigit(t[2]) && IsDigit(t[3])
    && t[4] == '-' && IsDigit(t[5]) && IsDigit(t[6])
    && t[7] == '-' && IsDigit(t[8]) && IsDigit(t[9])
  }

  /** A clock shape `HH:MM`. */
  predicate IsClock(t: string) {
    && |t| == 5
    && IsDigit(t[0]) && IsDigit(t[1]) && t[2] == ':' && IsDigit(t[3]) && IsDigit(t[4])
  }

  /** `\d{4}-\d{2}-\d{2}` at the start of `s`. */
  function IsoDate(s: string): (r: Option<Cut>)
    ensures r.Some? <==> |s| >= 10 && IsIsoDate(s[..10])
    ensures r.Some? ==> r.value == Cut(s[..10], s[10..]) && r.value.token + r.value.rest == s
  {
    if |s| >= 10 && IsIsoDate(s[..10]) then Some(Cut(s[..10], s[10..])) else None
  }

  /** `\d{2}:\d{2}` at the start of `s`. */
  function Clock(s: string): (r: Option<Cut>)
    ensures r.Some? <==> |s| >= 5 && IsClock(s[..5])
    ensures r.Some? ==> r.value == Cut(s[..5], s[5..]) && r.value.token + r.value.rest == s
  {
    if |s| >= 5 && IsClock(s[..5]) then Some(Cut(s[..5], s[5..])) else None
  }

  /**
   * An unanchored pattern `lead \s+? (body+ suffix) close` whose one capture is
   * the body run followed by `suffix`; `gap` says whether `\s+` follows `lead`.
   */
  datatype Field = Field(lead: string, gap: bool, body: CharClass, suffix: string, close: string)

  /** The text `v` has the shape of a capture of `f`: a run of its class, then its suffix. */
  predicate Shaped(v: string, f: Field) {
    |v| > |f.suffix| && AllIn(v[..|v| - |f.suffix|], f.body) && v[|v| - |f.suffix|..] == f.suffix
  }

  /** The white space after the lead of `f`: a gap when the pattern has `\s+` there, nothing otherwise. */
  predicate GapOf(f: Field, g: string) {
    if f.gap then IsGap(g) else g == []
  }

  /** The pattern `f` matched at the very start of `s`, with its capture. */
  function FieldHere(s: string, f: Field): (r: Option<string>)
    ensures r.Some? ==> StartsWith(s, f.lead)
    ensures r.Some? ==> Shaped(r.value, f)
  {
    var a :- Lit(s, f.lead);
    var b :- if f.gap then Skip(a) else Some(a);
    var c :- Many1(b, f.body);
    if StartsWith(c.rest, f.suffix + f.close) then
      var v := c.token + f.suffix;
      assert v[..|c.token|] == c.token;
      Some(v)
    else None
  }

  /** A match at the start is the lead, a gap if the pattern allows one, the capture, the close, then any text. */
  lemma FieldHereWritten(s: string, f: Field)
    requires FieldHere(s, f).Some?
    ensures exists g, t :: GapOf(f, g) && s == f.lead + (g + (FieldHere(s, f).value + (f.close + t)))
  {
    var a := Lit(s, f.lead).value;
    var b := (if f.gap then Skip(a) else Some(a)).value;
    var c := Many1(b, f.body).value;
    var v := c.token + f.suffix;
    assert FieldHere(s, f) == Some(v);
    var g := a[..|a| - |b|];
    var t := c.rest[|f.suffix + f.close|..];
    if !f.gap {
      assert b == a && g == [];
    }
    assert a == g + b;
    assert c.rest == (f.suffix + f.close) + t;
    Regroup(f.suffix, f.close, t);
    Regroup(c.token, f.suffix, f.close + t);
    assert GapOf(f, g) && s == f.lead + (g + (v + (f.close + t)));
  }

  /** The pattern `f` matches at position `j` of `s`. */
  predicate MatchesAt(s: string, f: Field, j: nat)
    requires j <= |s|
  {
    FieldHere(s[j..], f).Some?
  }

  /** Where the leftmost match of `f` at or after position `k` starts, or -1. */
  function FieldFrom(s: string, f: Field, k: nat): (i: int)
    requires k <= |s|
    ensures i == -1 || k <= i <= |s|
    ensures i == -1 ==> forall j :: k <= j <= |s| ==> !MatchesAt(s, f, j)
    ensures 0 <= i ==> MatchesAt(s, f, i)
    ensures 0 <= i ==> forall j :: k <= j < i ==> !MatchesAt(s, f, j)
    decreases |s| - k
  {
    if MatchesAt(s, f, k) then k
    else if k == |s| then -1
    else FieldFrom(s, f, k + 1)
  }

  /** `f` matches at position `i` of `s` and nowhere before it. */
  predicate LeftmostAt(s: string, f: Field, i: nat) {
    i <= |s| && MatchesAt(s, f, i) && forall j :: 0 <= j < i ==> !MatchesAt(s, f, j)
  }

  /** `s.match(re)?.[1]`: the capture of the leftmost match of `f` in `s`. */
  function FirstField(s: string, f: Field): (r: Option<string>)
    ensures r.None? <==> forall i :: 0 <= i <= |s| ==> !MatchesAt(s, f, i)
    ensures r.Some? ==> exists i: nat :: LeftmostAt(s, f, i) && r == FieldHere(s[i..], f)
    ensures r.Some? ==> Shaped(r.value, f)
  {
    var i := FieldFrom(s, f, 0);
    if i == -1 then None else FieldHere(s[i..], f)
  }

  /** The pattern does not match where the first character of its lead is not. */
  lemma NoMatchAt(s: string, f: Field, j: nat)
    requires j < |s| && f.lead != [] && s[j] != f.lead[0]
    ensures !MatchesAt(s, f, j)
  {
    assert s[j..][0] == s[j];
  }

  /** Matching behind a prefix is matching on the rest. */
  lemma MatchesShift(a: string, t: string, f: Field, j: nat)
    requires j <= |t|
    ensures MatchesAt(a + t, f, |a| + j) == MatchesAt(t, f, j)
  {
    assert (a + t)[|a| + j..] == t[j..];
  }

  /** The pattern does not match where the second character of its lead is not. */
  lemma NoMatchAt1(s: string, f: Field, j: nat)
    requires j + 1 < |s| && |f.lead| >= 2 && s[j + 1] != f.lead[1]
    ensures !MatchesAt(s, f, j)
  {
    assert s[j..][1] == s[j + 1];
  }

  /**
   * No match of `f` can start inside `a`: at each position of `a` either the
   * first character of the lead is missing, or the one after it, inside `a`,
   * is not the lead's second.
   */
  predicate NoStartIn(a: string, f: Field) {
    f.lead != [] && forall j :: 0 <= j < |a| ==> NoStartAt(a, f, j)
  }

  predicate NoStartAt(a: string, f: Field, j: nat)
    requires f.lead != [] && j < |a|
  {
    a[j] != f.lead[0] || (j + 1 < |a| && |f.lead| >= 2 && a[j + 1] != f.lead[1])
  }

  /** Where the pattern matches on `a + t`, when no match can start inside `a`. */
  lemma MatchesAfter(a: string, t: string, f: Field)
    requires NoStartIn(a, f)
    ensures forall j :: 0 <= j <= |a + t| ==> (MatchesAt(a + t, f, j) <==> |a| <= j && MatchesAt(t, f, j - |a|))
  {
    var s := a + t;
    forall j | 0 <= j <= |s| ensures MatchesAt(s, f, j) <==> |a| <= j && MatchesAt(t, f, j - |a|) {
      if j < |a| {
        assert NoStartAt(a, f, j);
        assert s[j] == a[j];
        if a[j] != f.lead[0] {
          NoMatchAt(s, f, j);
        } else {
          assert s[j + 1] == a[j + 1];
          NoMatchAt1(s, f, j);
        }
      } else {
        MatchesShift(a, t, f, j - |a|);
      }
    }
  }

  /** A prefix in which no match can start changes nothing about the leftmost match. */
  lemma FirstFieldPast(a: string, t: string, f: Field)
    requires NoStartIn(a, f)
    ensures FirstField(a + t, f) == FirstField(t, f)
  {
    if FieldFrom(t, f, 0) == -1 {
      NoneShifted(a, t, f);
    } else {
      SomeShifted(a, t, f);
    }
  }

  lemma NoneShifted(a: string, t: string, f: Field)
    requires NoStartIn(a, f) && FieldFrom(t, f, 0) == -1
    ensures FirstField(a + t, f) == FirstField(t, f)
  {
    MatchesAfter(a, t, f);
    assert forall j :: 0 <= j <= |a + t| ==> !MatchesAt(a + t, f, j);
  }

  lemma SomeShifted(a: string, t: string, f: Field)
    requires NoStartIn(a, f) && FieldFrom(t, f, 0) != -1
    ensures FirstField(a + t, f) == FirstField(t, f)
  {
    MatchesAfter(a, t, f);
    var it := FieldFrom(t, f, 0);
    var i := FieldFrom(a + t, f, 0);
    assert MatchesAt(a + t, f, |a| + it);
    assert i != -1 && i <= |a| + it;
    assert MatchesAt(t, f, i - |a|);
    assert i == |a| + it;
    assert (a + t)[i..] == t[it..];
  }

  /** In particular a prefix without the first character of the lead. */
  lemma FirstFieldSkip(a: string, t: string, f: Field)
    requires f.lead != [] && f.lead[0] !in a
    ensures FirstField(a + t, f) == FirstField(t, f)
  {
    assert NoStartIn(a, f) by {
      forall j | 0 <= j < |a| ensures NoStartAt(a, f, j) {
        assert a[j] in a;
      }
    }
    FirstFieldPast(a, t, f);
  }

  /** A match at the very start is the leftmost one. */
  lemma FirstFieldHere(t: string, f: Field)
    requires FieldHere(t, f).Some?
    ensures FirstField(t, f) == FieldHere(t, f)
  {
    assert t[0..] == t;
    assert MatchesAt(t, f, 0);
  }

  /** A field without gap, suffix or closing text reads the run right after its lead. */
  lemma PlainFieldOf(f: Field, tok: string, rest: string)
    requires !f.gap && f.suffix == [] && f.close == []
    requires tok != [] && AllIn(tok, f.body)
    requires rest == [] || !InClass(rest[0], f.body)
    ensures FieldHere(f.lead + (tok + rest), f) == Some(tok)
  {
    LitOf(f.lead, tok + rest);
    Many1Of(tok, rest, f.body);
    assert tok + f.suffix == tok;
  }

  /** A field whose lead is followed by white space reads the run after one space. */
  lemma GapFieldOf(f: Field, tok: string, rest: string)
    requires f.gap && f.suffix == [] && f.close == []
    requires tok != [] && AllIn(tok, f.body) && !IsSpace(tok[0])
    requires rest == [] || !InClass(rest[0], f.body)
    ensures FieldHere(f.lead + (" " + (tok + rest)), f) == Some(tok)
  {
    LitOf(f.lead, " " + (tok + rest));
    SkipOf(" ", tok + rest);
    Many1Of(tok, rest, f.body);
    assert tok + f.suffix == tok;
  }

  /** A field closed right after its suffix reads the run and the suffix. */
  lemma ClosedFieldOf(f: Field, tok: string)
    requires !f.gap
    requires tok != [] && AllIn(tok, f.body)
    requires f.suffix != [] && !InClass(f.suffix[0], f.body)
    ensures FieldHere(f.lead + (tok + (f.suffix + f.close)), f) == Some(tok + f.suffix)
  {
    assert (f.suffix + f.close)[0] == f.suffix[0];
    LitOf(f.lead, tok + (f.suffix + f.close));
    Many1Of(tok, f.suffix + f.close, f.body);
    assert StartsWith(f.suffix + f.close, f.suffix + f.close);
  }
}
