/** The string operations the chunker, the tokenizers and the metrics rely on,
    as Python defines them: `str.isspace`, `str.strip`, `str.split()` (runs of
    whitespace), `str.split(sep)`, `sep.join(...)`, `str.lower` and the sentence
    splitter `re.split(r"(?<=[.!?])\s+", text)`. */
module Text {
  import opened Util

  /** Python's `str.isspace` for a single character; `\s` in a `re` pattern over
      `str` matches the same characters. */
  predicate IsSpace(c: char)
  {
    c == ' ' || c == '\t' || c == '\n' || c == '\r' || c == '\U{0B}' || c == '\U{0C}'
    || ('\U{1C}' <= c <= '\U{1F}') || c == '\U{85}' || c == '\U{A0}' || c == '\U{1680}'
    || ('\U{2000}' <= c <= '\U{200A}') || c == '\U{2028}' || c == '\U{2029}'
    || c == '\U{202F}' || c == '\U{205F}' || c == '\U{3000}'
  }

  predicate AllSpace(s: string)
  {
    forall i :: 0 <= i < |s| ==> IsSpace(s[i])
  }

  predicate NoSpace(s: string)
  {
    forall i :: 0 <= i < |s| ==> !IsSpace(s[i])
  }

  /** `s.lstrip()` */
  function TrimStart(s: string): (r: string)
    ensures |r| <= |s| && r == s[|s| - |r|..]
    ensures r == [] || !IsSpace(r[0])
    ensures AllSpace(s[..|s| - |r|])
  {
    if |s| > 0 && IsSpace(s[0]) then TrimStart(s[1..]) else s
  }

  /** `s.strip()`: the text between the first and the last non-whitespace
      character, or the empty string when there is none. */
  function Strip(s: string): (r: string)
    ensures |r| <= |s|
    ensures r == [] <==> AllSpace(s)
  {
    if |s| > 0 && IsSpace(s[0]) then
      assert AllSpace(s) <==> AllSpace(s[1..]) by {
        if AllSpace(s[1..]) {
          forall i | 0 <= i < |s| ensures IsSpace(s[i]) {
            if i > 0 { assert s[i] == s[1..][i - 1]; }
          }
        }
      }
      Strip(s[1..])
    else if |s| > 0 && IsSpace(s[|s| - 1]) then
      assert AllSpace(s) <==> AllSpace(s[..|s| - 1]) by {
        if AllSpace(s[..|s| - 1]) {
          forall i | 0 <= i < |s| ensures IsSpace(s[i]) {
            if i < |s| - 1 { assert s[i] == s[..|s| - 1][i]; }
          }
        }
      }
      Strip(s[..|s| - 1])
    else s
  }

  /** What `strip` leaves starts and ends with a non-whitespace character. */
  lemma {:induction false} StripEnds(s: string)
    ensures Strip(s) != [] ==> !IsSpace(Strip(s)[0]) && !IsSpace(Strip(s)[|Strip(s)| - 1])
    decreases |s|
  {
    if |s| > 0 && IsSpace(s[0]) {
      StripEnds(s[1..]);
    } else if |s| > 0 && IsSpace(s[|s| - 1]) {
      StripEnds(s[..|s| - 1]);
    }
  }

  /** `r` occurs in `s` at `i` with only whitespace before and after it. */
  predicate Padded(s: string, r: string, i: int)
  {
    OccursAt(s, r, i) && AllSpace(s[..i]) && AllSpace(s[i + |r|..])
  }

  /** What `strip` leaves is the slice of `s` between a leading and a trailing
      run of whitespace. */
  lemma {:induction false} StripSlice(s: string)
    ensures exists i :: Padded(s, Strip(s), i)
    decreases |s|
  {
    if |s| > 0 && IsSpace(s[0]) {
      StripSlice(s[1..]);
      var i :| Padded(s[1..], Strip(s[1..]), i);
      SliceAfterSpace(s, Strip(s[1..]), i);
      assert Strip(s) == Strip(s[1..]);
      assert Padded(s, Strip(s), i + 1);
    } else if |s| > 0 && IsSpace(s[|s| - 1]) {
      StripSlice(s[..|s| - 1]);
      var i :| Padded(s[..|s| - 1], Strip(s[..|s| - 1]), i);
      SliceBeforeSpace(s, Strip(s[..|s| - 1]), i);
      assert Strip(s) == Strip(s[..|s| - 1]);
      assert Padded(s, Strip(s), i);
    } else {
      assert Strip(s) == s;
      assert OccursAt(s, s, 0) && s[..0] == [] && s[|s|..] == [];
      assert Padded(s, Strip(s), 0);
    }
  }

  lemma SliceAfterSpace(s: string, r: string, i: int)
    requires |s| > 0 && IsSpace(s[0])
    requires Padded(s[1..], r, i)
    ensures Padded(s, r, i + 1)
  {
    var t := s[1..];
    assert s[i + 1..i + 1 + |r|] == t[i..i + |r|];
    var pre := s[..i + 1];
    forall k | 0 <= k < i + 1 ensures IsSpace(pre[k]) {
      if k > 0 { assert pre[k] == t[..i][k - 1]; }
    }
    assert s[i + 1 + |r|..] == t[i + |r|..];
  }

  lemma SliceBeforeSpace(s: string, r: string, i: int)
    requires |s| > 0 && IsSpace(s[|s| - 1])
    requires Padded(s[..|s| - 1], r, i)
    ensures Padded(s, r, i)
  {
    var t := s[..|s| - 1];
    assert s[i..i + |r|] == t[i..i + |r|];
    assert s[..i] == t[..i];
    var post := s[i + |r|..];
    forall k | 0 <= k < |post| ensures IsSpace(post[k]) {
      if k < |post| - 1 { assert post[k] == t[i + |r|..][k]; }
    }
  }

  /** Length of the longest whitespace-free prefix of `s`. */
  function WordLen(s: string): (n: nat)
    ensures n <= |s|
    ensures NoSpace(s[..n])
    ensures n < |s| ==> IsSpace(s[n])
  {
    if s == [] || IsSpace(s[0]) then 0 else 1 + WordLen(s[1..])
  }

  /** `s.split()`: the maximal runs of non-whitespace characters, in order. */
  function Words(s: string): (ws: seq<string>)
    ensures forall i :: 0 <= i < |ws| ==> ws[i] != [] && NoSpace(ws[i])
    decreases |s|
  {
    var t := TrimStart(s);
    if t == [] then []
    else
      var n := WordLen(t);
      [t[..n]] + Words(t[n..])
  }

  /** A text has no words exactly when it is all whitespace. */
  lemma {:induction false} WordsEmptyIff(s: string)
    ensures Words(s) == [] <==> AllSpace(s)
  {
    var t := TrimStart(s);
    if t == [] {
      assert s == s[..|s| - |t|];
    } else {
      assert !IsSpace(s[|s| - |t|]);
    }
  }

  lemma TrimStartIdempotent(s: string)
    ensures TrimStart(TrimStart(s)) == TrimStart(s)
  {
  }

  /** Leading whitespace never changes the words. */
  lemma {:induction false} TrimStartAllSpacePrefix(x: string, y: string)
    requires AllSpace(x)
    ensures TrimStart(x + y) == TrimStart(y)
    decreases |x|
  {
    if x != [] {
      assert (x + y)[1..] == x[1..] + y;
      TrimStartAllSpacePrefix(x[1..], y);
    } else {
      assert x + y == y;
    }
  }

  lemma {:induction false} WordLenBeforeSpace(x: string, y: string)
    requires y != [] && IsSpace(y[0])
    ensures WordLen(x + y) == WordLen(x)
    decreases |x|
  {
    if x != [] && !IsSpace(x[0]) {
      assert (x + y)[1..] == x[1..] + y;
      WordLenBeforeSpace(x[1..], y);
    } else if x == [] {
      assert x + y == y;
    }
  }

  /** Leading whitespace never changes the words. */
  lemma WordsSkipSpace(x: string, y: string)
    requires AllSpace(x)
    ensures Words(x + y) == Words(y)
  {
    TrimStartAllSpacePrefix(x, y);
  }

  /** Words on both sides of a space stay apart: the words of `a + " " + b`
      are the words of `a` followed by the words of `b`. */
  lemma {:induction false} WordsAppendSep(a: string, b: string)
    ensures Words(a + " " + b) == Words(a) + Words(b)
    decreases |a|, 1
  {
    var t := TrimStart(a);
    var pre := a[..|a| - |t|];
    if t == [] {
      assert a == pre;
      WordsEmptyIff(a);
      var sp := a + " ";
      assert AllSpace(sp) by {
        forall k | 0 <= k < |sp| ensures IsSpace(sp[k]) {
          if k < |a| { assert sp[k] == a[k]; }
        }
      }
      WordsSkipSpace(sp, b);
    } else {
      assert a == pre + t;
      assert a + " " + b == pre + (t + " " + b);
      WordsSkipSpace(pre, t + " " + b);
      WordsSkipSpace(pre, t);
      WordsAppendSepTrimmed(t, b);
    }
  }

  lemma {:induction false} WordsAppendSepTrimmed(t: string, b: string)
    requires t != [] && !IsSpace(t[0])
    ensures Words(t + " " + b) == Words(t) + Words(b)
    decreases |t|, 0
  {
    var s := t + " " + b;
    var n := WordLen(t);
    assert s == t + (" " + b);
    WordLenBeforeSpace(t, " " + b);
    WordsStep(s);
    WordsStep(t);
    assert s[..n] == t[..n];
    assert s[n..] == t[n..] + " " + b;
    WordsAppendSep(t[n..], b);
    AppendAssoc([t[..n]], Words(t[n..]), Words(b));
  }

  /** A text that starts with a word splits into that word and the words of
      the rest. */
  lemma WordsStep(s: string)
    requires s != [] && !IsSpace(s[0])
    ensures Words(s) == [s[..WordLen(s)]] + Words(s[WordLen(s)..])
  {
    assert TrimStart(s) == s;
  }

  /** A single word splits into itself. */
  lemma WordsOfWord(w: string)
    requires w != [] && NoSpace(w)
    ensures Words(w) == [w]
  {
    assert TrimStart(w) == w;
    var n := WordLen(w);
    assert n == |w|;
    assert w[..n] == w;
    assert w[n..] == [];
    assert Words(w[n..]) == [];
  }

  predicate AllWords(ws: seq<string>)
  {
    forall i :: 0 <= i < |ws| ==> ws[i] != [] && NoSpace(ws[i])
  }

  /** Joining words with single spaces and splitting again gives the words
      back. */
  lemma {:induction false} WordsOfJoin(ws: seq<string>)
    requires AllWords(ws)
    ensures Words(Join(" ", ws)) == ws
  {
    if |ws| == 1 {
      WordsOfWord(ws[0]);
    } else if |ws| > 1 {
      var rest := Join(" ", ws[1..]);
      assert Join(" ", ws) == ws[0] + " " + rest;
      assert AllWords(ws[1..]) by {
        forall i | 0 <= i < |ws| - 1 ensures ws[1..][i] != [] && NoSpace(ws[1..][i]) {
          assert ws[1..][i] == ws[i + 1];
        }
      }
      WordsOfJoin(ws[1..]);
      WordsOfWord(ws[0]);
      WordsAppendSep(ws[0], rest);
      HeadTail(ws);
    }
  }

  function LowerChar(c: char): char
  {
    if 'A' <= c <= 'Z' then (c as int + 32) as char else c
  }

  /** `s.lower()` on ASCII letters. */
  function Lower(s: string): (r: string)
    ensures |r| == |s|
    ensures forall i :: 0 <= i < |s| ==> r[i] == LowerChar(s[i])
  {
    if s == [] then [] else [LowerChar(s[0])] + Lower(s[1..])
  }

  lemma LowerAppend(a: string, b: string)
    ensures Lower(a + b) == Lower(a) + Lower(b)
  {
    assert forall i :: 0 <= i < |a + b| ==> Lower(a + b)[i] == (Lower(a) + Lower(b))[i];
  }

  /** `sep.join(xs)` */
  function Join(sep: string, xs: seq<string>): string
  {
    if |xs| == 0 then "" else if |xs| == 1 then xs[0] else xs[0] + sep + Join(sep, xs[1..])
  }

  lemma {:induction false} JoinSingle(sep: string, x: string)
    ensures Join(sep, [x]) == x
  {
  }

  /** `Join` distributes over appending one element. */
  lemma {:induction false} JoinSnoc(sep: string, xs: seq<string>, x: string)
    requires xs != []
    ensures Join(sep, xs + [x]) == Join(sep, xs) + sep + x
  {
    if |xs| == 1 {
      assert xs + [x] == [xs[0], x];
    } else {
      assert (xs + [x])[1..] == xs[1..] + [x];
      JoinSnoc(sep, xs[1..], x);
    }
  }

  /** `s.endswith(t)` */
  predicate EndsWith(s: string, t: string)
  {
    |t| <= |s| && s[|s| - |t|..] == t
  }

  /** A join ends with its last piece. */
  lemma {:induction false} JoinEndsWithLast(sep: string, xs: seq<string>)
    requires xs != []
    ensures EndsWith(Join(sep, xs), xs[|xs| - 1])
  {
    if |xs| > 1 {
      var last := xs[|xs| - 1];
      JoinEndsWithLast(sep, xs[1..]);
      var rest := Join(sep, xs[1..]);
      var j := xs[0] + sep + rest;
      assert Join(sep, xs) == j;
      assert j[|j| - |last|..] == rest[|rest| - |last|..];
    }
  }

  /** `t` occurs in `s` at position `i`. */
  predicate OccursAt(s: string, t: string, i: int)
  {
    0 <= i && i + |t| <= |s| && s[i..i + |t|] == t
  }

  lemma OccursShift(s: string, t: string)
    requires |s| > 0
    ensures forall k :: 1 <= k ==> (OccursAt(s, t, k) <==> OccursAt(s[1..], t, k - 1))
  {
    forall k | 1 <= k ensures OccursAt(s, t, k) <==> OccursAt(s[1..], t, k - 1) {
      if k + |t| <= |s| {
        var a, b := s[k..k + |t|], s[1..][k - 1..k - 1 + |t|];
        forall m | 0 <= m < |t| ensures a[m] == b[m] {
          assert s[1..][k - 1 + m] == s[k + m];
        }
        assert a == b;
      }
    }
  }

  /** The first position at which `sep` occurs in `s`. */
  function IndexOf(s: string, sep: string): (r: Option<nat>)
    requires |sep| > 0
    ensures r.Some? ==> OccursAt(s, sep, r.value)
    ensures forall k :: 0 <= k && (r.None? || k < r.value) ==> !OccursAt(s, sep, k)
  {
    if |s| < |sep| then None
    else if s[..|sep|] == sep then Some(0)
    else
      OccursShift(s, sep);
      var r := IndexOf(s[1..], sep);
      if r.None? then None else Some(r.value + 1)
  }

  /** `s.split(sep)` for a non-empty separator: the pieces between the
      leftmost non-overlapping occurrences of `sep`. */
  function SplitOn(s: string, sep: string): (ps: seq<string>)
    requires |sep| > 0
    ensures |ps| >= 1
    decreases |s|
  {
    match IndexOf(s, sep)
    case None => [s]
    case Some(i) => [s[..i]] + SplitOn(s[i + |sep|..], sep)
  }

  lemma JoinCons(sep: string, x: string, xs: seq<string>)
    requires xs != []
    ensures Join(sep, [x] + xs) == x + sep + Join(sep, xs)
  {
    assert ([x] + xs)[1..] == xs;
  }

  /** Splitting and joining with the same separator gives the text back. */
  lemma {:induction false} SplitOnJoin(s: string, sep: string)
    requires |sep| > 0
    ensures Join(sep, SplitOn(s, sep)) == s
    decreases |s|
  {
    var r := IndexOf(s, sep);
    if r.Some? {
      var i := r.value;
      var rest := s[i + |sep|..];
      var qs := SplitOn(rest, sep);
      JoinCons(sep, s[..i], qs);
      SplitOnJoin(rest, sep);
      assert s[i..i + |sep|] == sep;
      assert s == s[..i] + s[i..i + |sep|] + rest;
    }
  }

  /** Every piece of the split is free of the separator. */
  lemma {:induction false} SplitOnPiecesFree(s: string, sep: string)
    requires |sep| > 0
    ensures forall j :: 0 <= j < |SplitOn(s, sep)| ==> IndexOf(SplitOn(s, sep)[j], sep).None?
    decreases |s|
  {
    var ps := SplitOn(s, sep);
    match IndexOf(s, sep)
    case None =>
    case Some(i) =>
      var rest := s[i + |sep|..];
      SplitOnPiecesFree(rest, sep);
      assert ps == [s[..i]] + SplitOn(rest, sep);
      var p := s[..i];
      if IndexOf(p, sep).Some? {
        var k := IndexOf(p, sep).value;
        assert p[k..k + |sep|] == s[k..k + |sep|];
        assert OccursAt(s, sep, k);
        assert false;
      }
      forall j | 1 <= j < |ps| ensures ps[j] == SplitOn(rest, sep)[j - 1] { }
  }

  /** A slice of whitespace is whitespace. */
  lemma AllSpaceSlice(s: string, a: nat, b: nat)
    requires a <= b <= |s| && AllSpace(s)
    ensures AllSpace(s[a..b])
  {
    forall m | 0 <= m < b - a ensures IsSpace(s[a..b][m]) {
      assert s[a..b][m] == s[a + m];
    }
  }

  /** Every piece of a whitespace-only text is whitespace-only. */
  lemma {:induction false} SplitOnBlank(s: string, sep: string)
    requires |sep| > 0 && AllSpace(s)
    ensures forall j :: 0 <= j < |SplitOn(s, sep)| ==> AllSpace(SplitOn(s, sep)[j])
    decreases |s|
  {
    match IndexOf(s, sep)
    case None =>
    case Some(i) =>
      var rest := s[i + |sep|..];
      AllSpaceSlice(s, i + |sep|, |s|);
      AllSpaceSlice(s, 0, i);
      SplitOnBlank(rest, sep);
      var ps := SplitOn(s, sep);
      assert ps == [s[..i]] + SplitOn(rest, sep);
      forall j | 1 <= j < |ps| ensures ps[j] == SplitOn(rest, sep)[j - 1] { }
  }

  predicate IsTerminal(c: char)
  {
    c == '.' || c == '!' || c == '?'
  }

  /** Position `i` starts a match of `(?<=[.!?])\s+`: it follows a terminal
      punctuation mark and holds whitespace. */
  predicate BreakAt(s: string, i: int)
  {
    0 < i < |s| && IsTerminal(s[i - 1]) && IsSpace(s[i])
  }

  function FirstBreakFrom(s: string, from: nat): (r: Option<nat>)
    ensures r.Some? ==> from <= r.value && BreakAt(s, r.value)
    ensures forall k :: from <= k && (r.None? || k < r.value) ==> !BreakAt(s, k)
    decreases |s| - from
  {
    if from >= |s| then None
    else if BreakAt(s, from) then Some(from)
    else FirstBreakFrom(s, from + 1)
  }

  /** End of the whitespace run that starts at `i`. */
  function SpaceRunEnd(s: string, i: nat): (j: nat)
    requires i <= |s|
    ensures i <= j <= |s|
    ensures AllSpace(s[i..j])
    ensures j < |s| ==> !IsSpace(s[j])
    decreases |s| - i
  {
    if i < |s| && IsSpace(s[i]) then
      var j := SpaceRunEnd(s, i + 1);
      assert s[i..j] == [s[i]] + s[i + 1..j];
      j
    else i
  }

  /** `re.split(r"(?<=[.!?])\s+", s)`: the text between the whitespace runs
      that follow a `.`, `!` or `?`; a run at the very end leaves an empty last
      piece, as `re.split` does. */
  function SplitSentences(s: string): (ps: seq<string>)
    ensures |ps| >= 1
    decreases |s|
  {
    match FirstBreakFrom(s, 1)
    case None => [s]
    case Some(i) => [s[..i]] + SplitSentences(s[SpaceRunEnd(s, i)..])
  }

  /** The splitter leaves no sentence break inside a piece, and every piece but
      the last ends with its terminal punctuation mark. */
  lemma {:induction false} SplitSentencesPieces(s: string)
    ensures forall j, k :: 0 <= j < |SplitSentences(s)| ==> !BreakAt(SplitSentences(s)[j], k)
    ensures forall j :: 0 <= j < |SplitSentences(s)| - 1 ==>
      SplitSentences(s)[j] != [] && IsTerminal(SplitSentences(s)[j][|SplitSentences(s)[j]| - 1])
    decreases |s|
  {
    var ps := SplitSentences(s);
    match FirstBreakFrom(s, 1)
    case None =>
    case Some(i) =>
      var rest := s[SpaceRunEnd(s, i)..];
      SplitSentencesPieces(rest);
      assert ps == [s[..i]] + SplitSentences(rest);
      FirstPieceClean(s, i);
      forall j | 1 <= j < |ps| ensures ps[j] == SplitSentences(rest)[j - 1] { }
  }

  /** The text before the first break holds no break and ends with the
      terminal mark of that break. */
  lemma FirstPieceClean(s: string, i: nat)
    requires FirstBreakFrom(s, 1) == Some(i)
    ensures forall k :: !BreakAt(s[..i], k)
    ensures s[..i] != [] && IsTerminal(s[..i][i - 1])
  {
    forall k ensures !BreakAt(s[..i], k) {
      if BreakAt(s[..i], k) {
        assert BreakAt(s, k);
      }
    }
  }

  /** A whitespace-only text is one piece, itself. */
  lemma AllSpaceNoBreak(s: string)
    requires AllSpace(s)
    ensures SplitSentences(s) == [s]
  {
    forall k ensures !BreakAt(s, k) {
      if 0 < k < |s| {
        assert IsSpace(s[k - 1]);
      }
    }
    assert FirstBreakFrom(s, 1).None?;
  }
}
