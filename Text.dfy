/**
 * String primitives of the JavaScript runtime that the report parser relies on:
 * `trim`, `startsWith`, `indexOf`, `split`, `join`, first-occurrence `replace`,
 * and the CRLF normalisation plus line split applied to the fetched text.
 */
module Text {
  import opened Maybe

  /** JavaScript white space and line terminators: exactly what `trim` removes and `\s` matches. */
  predicate IsSpace(c: char) {
    || ('\t' <= c <= '\r')
    || c == ' ' || c == '\U{00A0}' || c == '\U{1680}'
    || ('\U{2000}' <= c <= '\U{200A}')
    || c == '\U{2028}' || c == '\U{2029}' || c == '\U{202F}' || c == '\U{205F}'
    || c == '\U{3000}' || c == '\U{FEFF}'
  }

  /** `\d`: ASCII digits only. */
  predicate IsDigit(c: char) {
    '0' <= c <= '9'
  }

  predicate AllSpace(s: string) {
    forall i :: 0 <= i < |s| ==> IsSpace(s[i])
  }

  /** No white space at either end (what `trim` leaves behind). */
  predicate Trimmed(s: string) {
    s == [] || (!IsSpace(s[0]) && !IsSpace(s[|s| - 1]))
  }

  predicate StartsWith(s: string, prefix: string) {
    |prefix| <= |s| && s[..|prefix|] == prefix
  }

  predicate EndsWith(s: string, suffix: string) {
    |suffix| <= |s| && s[|s| - |suffix|..] == suffix
  }

  function TrimEnd(s: string): (r: string)
    ensures |r| <= |s| && r == s[..|r|]
    ensures AllSpace(s[|r|..])
    ensures r == [] || !IsSpace(r[|r| - 1])
  {
    if s != [] && IsSpace(s[|s| - 1]) then
      var shorter := s[..|s| - 1];
      var r := TrimEnd(shorter);
      assert shorter[..|r|] == s[..|r|];
      assert s[|r|..] == shorter[|r|..] + [s[|s| - 1]];
      r
    else s
  }

  /** Concatenation regrouped one step to the right. */
  lemma Regroup(a: string, b: string, c: string)
    ensures (a + b) + c == a + (b + c)
  {
  }

  /** `r` is `s` with its first `i` characters and everything after `r`, all of them white space, cut off. */
  predicate CutFrom(s: string, r: string, i: nat) {
    i + |r| <= |s| && AllSpace(s[..i]) && s[i..i + |r|] == r && AllSpace(s[i + |r|..])
  }

  /** `String.prototype.trim`: what is left after dropping white space at both ends. */
  function Trim(s: string): (r: string)
    ensures |r| <= |s|
    ensures Trimmed(r)
    ensures r == [] <==> AllSpace(s)
    ensures Trimmed(s) ==> r == s
  {
    if s != [] && IsSpace(s[0]) then Trim(s[1..])
    else
      var r := TrimEnd(s);
      assert r == [] ==> AllSpace(s) by {
        if r == [] {
          assert s[|r|..] == s;
        }
      }
      r
  }

  /** What `Trim` returns is `s` itself, less some white space at each end. */
  lemma {:induction false} TrimCut(s: string)
    ensures exists i: nat :: CutFrom(s, Trim(s), i)
    decreases |s|
  {
    var r := Trim(s);
    if s != [] && IsSpace(s[0]) {
      TrimCut(s[1..]);
      CutShift(s, r);
    } else {
      assert CutFrom(s, r, 0);
    }
  }

  /** Trimming adds no character: what does not occur in `s` does not occur in its trimmed form. */
  lemma TrimKeepsOut(s: string, c: char)
    requires c !in s
    ensures c !in Trim(s)
  {
    TrimCut(s);
  }

  /** A cut of the tail of a text that starts with white space is a cut of the text. */
  lemma CutShift(s: string, r: string)
    requires s != [] && IsSpace(s[0])
    requires exists i: nat :: CutFrom(s[1..], r, i)
    ensures exists i: nat :: CutFrom(s, r, i)
  {
    var i: nat :| CutFrom(s[1..], r, i);
    var t := s[1..];
    assert s[..i + 1] == [s[0]] + t[..i];
    assert s[i + 1..i + 1 + |r|] == t[i..i + |r|];
    assert s[i + 1 + |r|..] == t[i + |r|..];
    assert CutFrom(s, r, i + 1);
  }

  /** Leading white space in front of a trimmed text is all that `trim` removes. */
  lemma {:induction false} TrimOf(gap: string, t: string)
    requires AllSpace(gap) && Trimmed(t)
    ensures Trim(gap + t) == t
    decreases |gap|
  {
    if gap == [] {
      assert gap + t == t;
    } else {
      assert (gap + t)[1..] == gap[1..] + t;
      TrimOf(gap[1..], t);
    }
  }

  /** `parts.map((part) => part.trim())`. */
  function TrimAll(parts: seq<string>): (r: seq<string>)
    ensures |r| == |parts|
    ensures forall k :: 0 <= k < |r| ==> r[k] == Trim(parts[k])
  {
    if parts == [] then [] else [Trim(parts[0])] + TrimAll(parts[1..])
  }

  lemma TrimIdempotent(s: string)
    ensures Trim(Trim(s)) == Trim(s)
  {
  }

  /** `s.indexOf(c)` for a single character: the first position of `c`, or -1. */
  function IndexOf(s: string, c: char): (r: int)
    ensures -1 <= r < |s|
    ensures r == -1 <==> c !in s
    ensures 0 <= r ==> s[r] == c && c !in s[..r]
  {
    if s == [] then -1
    else if s[0] == c then 0
    else
      var k := IndexOf(s[1..], c);
      if k == -1 then
        assert s == [s[0]] + s[1..];
        -1
      else
        assert s[..k + 1] == [s[0]] + s[1..][..k];
        k + 1
  }

  /** The first position `i >= k` at which `pat` occurs in `s`, or -1. */
  function FindFrom(s: string, pat: string, k: nat): (r: int)
    requires k <= |s|
    ensures r == -1 || k <= r <= |s|
    ensures r == -1 <==> forall i :: k <= i <= |s| ==> !StartsWith(s[i..], pat)
    ensures 0 <= r ==> StartsWith(s[r..], pat)
    ensures 0 <= r ==> forall i :: k <= i < r ==> !StartsWith(s[i..], pat)
    decreases |s| - k
  {
    if StartsWith(s[k..], pat) then k
    else if k == |s| then -1
    else FindFrom(s, pat, k + 1)
  }

  /** `s.indexOf(pat)` for a string pattern: the first position of `pat`, or -1. */
  function Find(s: string, pat: string): (r: int)
    ensures r == -1 || 0 <= r <= |s| - |pat|
    ensures r == -1 <==> forall i :: 0 <= i <= |s| ==> !StartsWith(s[i..], pat)
    ensures 0 <= r ==> StartsWith(s[r..], pat)
    ensures 0 <= r ==> forall i :: 0 <= i < r ==> !StartsWith(s[i..], pat)
  {
    FindFrom(s, pat, 0)
  }

  /** When the first character of `pat` does not occur in `pre`, the first occurrence of `pat` is right after `pre`. */
  lemma FindAfter(pre: string, pat: string, post: string)
    requires pat != [] && pat[0] !in pre
    ensures Find(pre + pat + post, pat) == |pre|
  {
    var s := pre + pat + post;
    assert s[|pre|..] == pat + post;
    assert StartsWith(s[|pre|..], pat);
  }

  /** When nothing in `s` starts with the first character of `pat`, `pat` does not occur. */
  lemma FindAbsent(s: string, pat: string)
    requires pat != [] && pat[0] !in s
    ensures Find(s, pat) == -1
  {
  }

  /**
   * No occurrence of `pat` starts inside `pre`, not even one running on into a `pat` placed right
   * after it: either `pre` lacks the first character of `pat`, or that character opens `pat` only
   * and `pre` holds no `pat`.
   */
  predicate ClearBefore(pre: string, pat: string)
    requires pat != []
  {
    pat[0] !in pre || (pat[0] !in pat[1..] && Find(pre, pat) == -1)
  }

  /** When `pre` is clear of `pat`, the first occurrence of `pat` is right after `pre`. */
  lemma FindBefore(pre: string, pat: string, post: string)
    requires pat != [] && ClearBefore(pre, pat)
    ensures Find(pre + pat + post, pat) == |pre|
  {
    if pat[0] !in pre {
      FindAfter(pre, pat, post);
    } else {
      var s := pre + pat + post;
      assert s[|pre|..] == pat + post;
      assert StartsWith(s[|pre|..], pat);
      forall i | 0 <= i < |pre|
        ensures !StartsWith(s[i..], pat)
      {
        if i + |pat| <= |pre| {
          assert s[i..][..|pat|] == pre[i..][..|pat|];
          assert !StartsWith(pre[i..], pat);
        } else {
          var d := |pre| - i;
          assert s[i..][d] == s[|pre|] == pat[0];
          assert pat[1..][d - 1] == pat[d];
        }
      }
    }
  }

  /** `parts.join(sep)`: the first piece opens the text. */
  function Join(parts: seq<string>, sep: string): (r: string)
    ensures |parts| >= 1 ==> StartsWith(r, parts[0])
  {
    if |parts| == 0 then ""
    else if |parts| == 1 then parts[0]
    else
      var rest := Join(parts[1..], sep);
      var r := parts[0] + sep + rest;
      assert r[..|parts[0]|] == parts[0];
      r
  }

  /**
   * `s.split(sep)` for a single-character separator: the pieces between the
   * occurrences of `sep`.  The pieces never contain `sep` and join back to `s`,
   * which determines them uniquely.
   */
  function Split(s: string, sep: char): (parts: seq<string>)
    ensures |parts| >= 1
    ensures forall i :: 0 <= i < |parts| ==> sep !in parts[i]
    ensures Join(parts, [sep]) == s
    ensures sep in s <==> |parts| >= 2
    decreases |s|
  {
    var i := IndexOf(s, sep);
    if i == -1 then [s]
    else
      var rest := Split(s[i + 1..], sep);
      var parts := [s[..i]] + rest;
      assert parts[1..] == rest;
      assert Join(parts, [sep]) == s[..i] + [sep] + Join(rest, [sep]);
      assert s == s[..i] + [sep] + s[i + 1..];
      parts
  }

  lemma IndexOfAfter(a: string, c: char, b: string)
    requires c !in a
    ensures IndexOf(a + [c] + b, c) == |a|
  {
    var s := a + [c] + b;
    assert s[|a|] == c;
  }

  /** Splitting undoes joining when no piece contains the separator. */
  lemma {:induction false} SplitOfJoin(parts: seq<string>, sep: char)
    requires |parts| >= 1
    requires forall i :: 0 <= i < |parts| ==> sep !in parts[i]
    ensures Split(Join(parts, [sep]), sep) == parts
  {
    if |parts| >= 2 {
      var rest := Join(parts[1..], [sep]);
      assert Join(parts, [sep]) == parts[0] + [sep] + rest;
      SplitAfterFirst(parts[0], sep, rest);
      SplitOfJoin(parts[1..], sep);
      assert parts == [parts[0]] + parts[1..];
    }
  }

  /** Splitting at the first separator: the text before it, then the pieces of the text after it. */
  lemma SplitAfterFirst(pre: string, sep: char, post: string)
    requires sep !in pre
    ensures Split(pre + [sep] + post, sep) == [pre] + Split(post, sep)
  {
    var s := pre + [sep] + post;
    IndexOfAfter(pre, sep, post);
    assert s[..|pre|] == pre;
    assert s[|pre| + 1..] == post;
  }

  /** Prefixing the first piece prefixes the joined text. */
  lemma JoinPrepend(p: string, parts: seq<string>, sep: string)
    requires |parts| >= 1
    ensures Join([p + parts[0]] + parts[1..], sep) == p + Join(parts, sep)
  {
    var q := [p + parts[0]] + parts[1..];
    if |parts| >= 2 {
      assert q[1..] == parts[1..];
    }
  }

  /** The first piece of `s.split(sep)`: everything before the first `sep`. */
  lemma SplitHead(pre: string, sep: char, post: string)
    requires sep !in pre
    ensures Split(pre + [sep] + post, sep)[0] == pre
    ensures Split(pre, sep) == [pre]
  {
    IndexOfAfter(pre, sep, post);
    assert (pre + [sep] + post)[..|pre|] == pre;
  }

  /**
   * `s.split(sep)[1]` for a non-empty string separator: the text between the
   * first and the second occurrence of `sep` (or to the end when there is no
   * second one); `None` (JavaScript `undefined`) when `sep` does not occur.
   */
  function SplitSecond(s: string, sep: string): (r: Option<string>)
    requires sep != []
    ensures r.None? <==> Find(s, sep) == -1
    ensures r.Some? ==> forall k :: 0 <= k <= |r.value| ==> !StartsWith(r.value[k..], sep)
  {
    var i := Find(s, sep);
    if i == -1 then None
    else
      var rest := s[i + |sep|..];
      var j := Find(rest, sep);
      var piece := if j == -1 then rest else rest[..j];
      PieceBeforeFirst(rest, sep);
      Some(piece)
  }

  /** Cutting `t` at the first occurrence of `sep` leaves a piece that contains no `sep`. */
  lemma PieceBeforeFirst(t: string, sep: string)
    requires sep != []
    ensures var j := Find(t, sep);
            var piece := if j == -1 then t else t[..j];
            forall k :: 0 <= k <= |piece| ==> !StartsWith(piece[k..], sep)
  {
    var j := Find(t, sep);
    if j != -1 {
      var piece := t[..j];
      forall k | 0 <= k <= |piece|
        ensures !StartsWith(piece[k..], sep)
      {
        if k + |sep| <= j {
          SliceOfPrefix(t, j, k, |sep|);
        }
      }
    }
  }

  lemma SliceOfPrefix(t: string, j: nat, k: nat, n: nat)
    requires k + n <= j <= |t|
    ensures t[..j][k..][..n] == t[k..][..n]
  {
  }

  /** Only the segment between the first two separators is taken, never the whole remainder. */
  lemma SplitSecondOf(pre: string, sep: string, mid: string, post: string)
    requires sep != [] && ClearBefore(pre, sep) && ClearBefore(mid, sep)
    requires post == [] || StartsWith(post, sep)
    ensures SplitSecond(pre + sep + mid + post, sep) == Some(mid)
  {
    var rest := mid + post;
    var s := pre + sep + mid + post;
    assert s == pre + sep + rest;
    FindBefore(pre, sep, rest);
    assert s[|pre| + |sep|..] == rest;
    PieceOf(sep, mid, post);
  }

  /** What follows the first separator is cut back to `mid` at the next one, if any. */
  lemma PieceOf(sep: string, mid: string, post: string)
    requires sep != [] && ClearBefore(mid, sep)
    requires post == [] || StartsWith(post, sep)
    ensures var j := Find(mid + post, sep); (if j == -1 then mid + post else (mid + post)[..j]) == mid
  {
    if post == [] {
      assert mid + post == mid;
      if sep[0] !in mid { FindAbsent(mid, sep); }
    } else {
      assert mid + post == mid + sep + post[|sep|..];
      FindBefore(mid, sep, post[|sep|..]);
      assert (mid + post)[..|mid|] == mid;
    }
  }

  /** `s.replace(pat, rep)` with a string pattern: only the first occurrence is replaced. */
  function ReplaceFirst(s: string, pat: string, rep: string): (r: string)
    ensures Find(s, pat) == -1 ==> r == s
    ensures var i := Find(s, pat);
            0 <= i ==> |r| == |s| - |pat| + |rep| && StartsWith(r, s[..i] + rep) && EndsWith(r, s[i + |pat|..])
  {
    var i := Find(s, pat);
    if i == -1 then s else s[..i] + rep + s[i + |pat|..]
  }

  lemma ReplaceFirstOf(pre: string, pat: string, post: string, rep: string)
    requires pat != [] && pat[0] !in pre
    ensures ReplaceFirst(pre + pat + post, pat, rep) == pre + rep + post
  {
    var s := pre + pat + post;
    FindAfter(pre, pat, post);
    assert s[..|pre|] == pre;
    assert s[|pre| + |pat|..] == post;
  }

  /** `s` with every `c` removed. */
  function Without(s: string, c: char): (r: string)
    ensures c !in r
  {
    if s == [] then [] else (if s[0] == c then [] else [s[0]]) + Without(s[1..], c)
  }

  /**
   * `s.replace(/\r\n/g, '\n')`: every CR LF pair, scanned left to right without
   * overlap, loses its CR.  Nothing but carriage returns is ever removed.
   */
  function NormalizeNewlines(s: string): (r: string)
    ensures |r| <= |s|
    ensures Without(r, '\r') == Without(s, '\r')
    ensures '\r' !in s ==> r == s
    decreases |s|
  {
    if |s| >= 2 && s[0] == '\r' && s[1] == '\n' then
      var t := NormalizeNewlines(s[2..]);
      assert s[1..][1..] == s[2..];
      assert Without(s, '\r') == Without(s[1..], '\r');
      "\n" + t
    else if s == [] then []
    else [s[0]] + NormalizeNewlines(s[1..])
  }

  /** A non-empty text is its first character followed by the rest. */
  lemma ConsAppend(a: string, x: string)
    requires a != []
    ensures a + x == [a[0]] + (a[1..] + x)
  {
    assert a == [a[0]] + a[1..];
  }

  /** A character other than a carriage return passes through unchanged. */
  lemma NormalizeCons(c: char, u: string)
    requires c != '\r'
    ensures NormalizeNewlines([c] + u) == [c] + NormalizeNewlines(u)
  {
    assert ([c] + u)[0] == c && ([c] + u)[1..] == u;
  }

  /** Text without carriage returns passes through unchanged, whatever follows it. */
  lemma {:induction false} NormalizePrefix(a: string, x: string)
    requires '\r' !in a
    ensures NormalizeNewlines(a + x) == a + NormalizeNewlines(x)
    decreases |a|
  {
    if a == [] {
      assert a + x == x;
    } else {
      assert a[0] != '\r' by { assert a[0] in a; }
      calc {
        NormalizeNewlines(a + x);
        { ConsAppend(a, x); }
        NormalizeNewlines([a[0]] + (a[1..] + x));
        { NormalizeCons(a[0], a[1..] + x); }
        [a[0]] + NormalizeNewlines(a[1..] + x);
        { NormalizePrefix(a[1..], x); }
        [a[0]] + (a[1..] + NormalizeNewlines(x));
        { ConsAppend(a, NormalizeNewlines(x)); }
        a + NormalizeNewlines(x);
      }
    }
  }

  /** A CR LF pair at the start becomes a single LF. */
  lemma NormalizeCrLfHead(b: string)
    ensures NormalizeNewlines("\r\n" + b) == "\n" + NormalizeNewlines(b)
  {
    var s := "\r\n" + b;
    assert s[0] == '\r' && s[1] == '\n' && s[2..] == b;
  }

  /** A carriage return at the start that no line feed follows is kept. */
  lemma NormalizeLoneCrHead(b: string)
    requires !StartsWith(b, "\n")
    ensures NormalizeNewlines("\r" + b) == "\r" + NormalizeNewlines(b)
  {
    var s := "\r" + b;
    assert s[0] == '\r' && s[1..] == b;
    assert |s| >= 2 ==> s[1] == b[0];
  }

  /** A CR LF pair after text without carriage returns becomes a single LF. */
  lemma NormalizeCrLf(a: string, b: string)
    requires '\r' !in a
    ensures NormalizeNewlines(a + ("\r\n" + b)) == a + ("\n" + NormalizeNewlines(b))
  {
    NormalizePrefix(a, "\r\n" + b);
    NormalizeCrLfHead(b);
  }

  /** A carriage return that no line feed follows is kept. */
  lemma NormalizeLoneCr(a: string, b: string)
    requires '\r' !in a
    requires !StartsWith(b, "\n")
    ensures NormalizeNewlines(a + ("\r" + b)) == a + ("\r" + NormalizeNewlines(b))
  {
    NormalizePrefix(a, "\r" + b);
    NormalizeLoneCrHead(b);
  }

  /** `rawText.replace(/\r\n/g, '\n').split('\n')`: the report's lines. */
  function Lines(raw: string): (r: seq<string>)
    ensures |r| >= 1
    ensures forall i :: 0 <= i < |r| ==> '\n' !in r[i]
    ensures Join(r, "\n") == NormalizeNewlines(raw)
  {
    Split(NormalizeNewlines(raw), '\n')
  }
}
