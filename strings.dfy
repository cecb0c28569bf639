/** The few Python `str` operations the detector relies on, over ASCII.
    Python classifies characters by Unicode properties; this module follows
    Python exactly on ASCII characters and treats every other character as
    neither whitespace, a word character nor a cased letter. */
module Strings {

  /** `str.isspace()` (and so `str.strip()`, `str.split()` and the regular
      expression class `\s`) on ASCII: space, tab, line feed, vertical tab,
      form feed, carriage return and the separators 0x1C to 0x1F. */
  predicate IsSpace(c: char) {
    c == ' ' || ('\U{9}' <= c <= '\U{D}') || ('\U{1C}' <= c <= '\U{1F}')
  }

  predicate IsAsciiUpper(c: char) { 'A' <= c <= 'Z' }

  predicate IsAsciiLower(c: char) { 'a' <= c <= 'z' }

  /** The regular expression class `\w`: letters, digits and underscore. */
  predicate IsWordChar(c: char) {
    IsAsciiUpper(c) || IsAsciiLower(c) || ('0' <= c <= '9') || c == '_'
  }

  /** `str.lower()` on one character. */
  function LowerChar(c: char): char {
    if IsAsciiUpper(c) then (c as int - 'A' as int + 'a' as int) as char else c
  }

  /** `str.lower()`. */
  function Lower(s: string): (r: string)
    ensures |r| == |s|
  {
    seq(|s|, i requires 0 <= i < |s| => LowerChar(s[i]))
  }

  predicate StartsWith(s: string, prefix: string) {
    |prefix| <= |s| && s[..|prefix|] == prefix
  }

  predicate EndsWith(s: string, suffix: string) {
    |suffix| <= |s| && s[|s| - |suffix|..] == suffix
  }

  /** The `in` operator on two strings: `sub` occurs somewhere in `s`. */
  predicate Contains(s: string, sub: string)
    decreases |s|
  {
    StartsWith(s, sub) || (|s| > 0 && Contains(s[1..], sub))
  }

  /** `sub` occurs in `s` starting at offset `i`. */
  predicate OccursAt(s: string, sub: string, i: int) {
    0 <= i <= |s| - |sub| && s[i..i + |sub|] == sub
  }

  /** `Contains` holds exactly when `sub` occurs at some offset of `s`. */
  lemma {:induction false} ContainsAt(s: string, sub: string)
    ensures Contains(s, sub) <==> exists i :: OccursAt(s, sub, i)
    decreases |s|
  {
    if StartsWith(s, sub) {
      assert OccursAt(s, sub, 0);
    } else if |s| > 0 {
      ContainsAt(s[1..], sub);
      if Contains(s[1..], sub) {
        var i :| OccursAt(s[1..], sub, i);
        assert OccursAt(s, sub, i + 1);
      }
      if i :| OccursAt(s, sub, i) {
        assert i != 0;
        assert s[1..][i - 1..i - 1 + |sub|] == s[i..i + |sub|];
        assert OccursAt(s[1..], sub, i - 1);
      }
    }
  }

  /** `any(p in s for p in phrases)`. */
  predicate ContainsAny(s: string, phrases: seq<string>)
    decreases |phrases|
  {
    phrases != [] && (Contains(s, phrases[0]) || ContainsAny(s, phrases[1..]))
  }

  /** Number of whitespace characters at the start of `s`. */
  function LeadingSpaces(s: string): (n: nat)
    decreases |s|
    ensures n <= |s|
    ensures forall k :: 0 <= k < n ==> IsSpace(s[k])
    ensures n == |s| || !IsSpace(s[n])
  {
    if s != [] && IsSpace(s[0]) then 1 + LeadingSpaces(s[1..]) else 0
  }

  /** Number of whitespace characters at the end of `s`. */
  function TrailingSpaces(s: string): (n: nat)
    decreases |s|
    ensures n <= |s|
    ensures forall k :: |s| - n <= k < |s| ==> IsSpace(s[k])
    ensures n == |s| || !IsSpace(s[|s| - n - 1])
  {
    if s != [] && IsSpace(s[|s| - 1]) then 1 + TrailingSpaces(s[..|s| - 1]) else 0
  }

  /** `str.strip()`: `s` without its leading and trailing whitespace. */
  function Strip(s: string): string {
    var a := LeadingSpaces(s);
    s[a..|s| - TrailingSpaces(s[a..])]
  }

  /** `Strip` keeps a run of `s` that neither starts nor ends with
      whitespace, and what it drops on either side is all whitespace. */
  lemma {:induction false} StripTrims(s: string)
    ensures var r := Strip(s); var a := LeadingSpaces(s);
      && a + |r| <= |s| && r == s[a..a + |r|]
      && (forall k :: 0 <= k < a ==> IsSpace(s[k]))
      && (forall k :: a + |r| <= k < |s| ==> IsSpace(s[k]))
      && (r == [] || (!IsSpace(r[0]) && !IsSpace(r[|r| - 1])))
  {
    var a := LeadingSpaces(s);
    var t := s[a..];
    var b := TrailingSpaces(t);
    var r := Strip(s);
    assert r == t[..|t| - b];
    forall k | a + |r| <= k < |s|
      ensures IsSpace(s[k])
    {
      assert s[k] == t[k - a];
    }
    if r != [] {
      assert r[0] == t[0];
      assert r[|r| - 1] == t[|t| - b - 1];
    }
  }

  /** Number of leading characters of `s` that are not whitespace. */
  function WordLength(s: string): (n: nat)
    decreases |s|
    ensures n <= |s|
    ensures forall k :: 0 <= k < n ==> !IsSpace(s[k])
    ensures n == |s| || IsSpace(s[n])
  {
    if s == [] || IsSpace(s[0]) then 0 else 1 + WordLength(s[1..])
  }

  /** `str.split()` with no separator: the maximal runs of non-whitespace
      characters, in order. */
  function Words(s: string): seq<string>
    decreases |s|
  {
    if s == [] then []
    else if IsSpace(s[0]) then Words(s[1..])
    else
      var n := WordLength(s);
      [s[..n]] + Words(s[n..])
  }

  /** The positions `lo` to `hi` (exclusive) of a text. */
  datatype Span = Span(lo: nat, hi: nat)

  /** `s[lo..hi]` is a maximal run of non-whitespace characters: it is
      nonempty, holds no whitespace, and is bounded on each side by
      whitespace or an end of `s`. */
  predicate IsWordAt(s: string, sp: Span) {
    && sp.lo < sp.hi <= |s|
    && (sp.lo == 0 || IsSpace(s[sp.lo - 1]))
    && (sp.hi == |s| || IsSpace(s[sp.hi]))
    && (forall j :: sp.lo <= j < sp.hi ==> !IsSpace(s[j]))
  }

  predicate InSpan(sp: Span, j: int) {
    sp.lo <= j < sp.hi
  }

  /** The position where the run of non-whitespace characters starting at
      `j` ends. */
  function RunEnd(s: string, j: nat): (e: nat)
    requires j <= |s|
    decreases |s| - j
    ensures j <= e <= |s|
    ensures forall m :: j <= m < e ==> !IsSpace(s[m])
    ensures e == |s| || IsSpace(s[e])
  {
    if j == |s| || IsSpace(s[j]) then j else RunEnd(s, j + 1)
  }

  /** The positions of the words of `s[i..]`, as offsets into `s`. */
  function SpansFrom(s: string, i: nat): (sp: seq<Span>)
    requires i <= |s|
    decreases |s| - i
    ensures forall k :: 0 <= k < |sp| ==> i <= sp[k].lo < sp[k].hi <= |s|
  {
    if i == |s| then []
    else if IsSpace(s[i]) then SpansFrom(s, i + 1)
    else [Span(i, RunEnd(s, i))] + SpansFrom(s, RunEnd(s, i))
  }

  /** `WordLength` measures the same run as `RunEnd`. */
  lemma {:induction false} WordLengthRunEnd(s: string, j: nat)
    requires j <= |s|
    ensures WordLength(s[j..]) == RunEnd(s, j) - j
    decreases |s| - j
  {
    if j < |s| && !IsSpace(s[j]) {
      WordLengthRunEnd(s, j + 1);
      assert s[j..][1..] == s[j + 1..];
    }
  }

  /** Whitespace at `i` starts no word. */
  lemma {:induction false} WordsStepSpace(s: string, i: nat)
    requires i < |s| && IsSpace(s[i])
    ensures Words(s[i..]) == Words(s[i + 1..])
  {
    assert s[i..][1..] == s[i + 1..];
  }

  /** A non-whitespace character at `i` starts the next word, which runs to
      `RunEnd(s, i)`. */
  lemma {:induction false} WordsStepWord(s: string, i: nat)
    requires i < |s| && !IsSpace(s[i])
    ensures var e := RunEnd(s, i); Words(s[i..]) == [s[i..e]] + Words(s[e..])
  {
    var rest := s[i..];
    WordLengthRunEnd(s, i);
    var n := WordLength(rest);
    assert rest != [] && !IsSpace(rest[0]);
    assert Words(rest) == [rest[..n]] + Words(rest[n..]);
    assert rest[..n] == s[i..i + n];
    assert rest[n..] == s[i + n..];
  }

  /** Span `k` from a boundary `i` is a maximal non-whitespace run. */
  lemma {:induction false} SpanIsWord(s: string, i: nat, k: nat)
    requires i <= |s|
    requires i == 0 || i == |s| || IsSpace(s[i - 1]) || IsSpace(s[i])
    requires k < |SpansFrom(s, i)|
    ensures IsWordAt(s, SpansFrom(s, i)[k])
    decreases |s| - i
  {
    if IsSpace(s[i]) {
      SpanIsWord(s, i + 1, k);
    } else if k > 0 {
      SpanIsWord(s, RunEnd(s, i), k - 1);
    }
  }

  /** Span `k` from `i` ends before span `l` starts when `k < l`. */
  lemma {:induction false} SpansOrdered(s: string, i: nat, k: nat, l: nat)
    requires i <= |s|
    requires k < l < |SpansFrom(s, i)|
    ensures SpansFrom(s, i)[k].hi < SpansFrom(s, i)[l].lo
    decreases |s| - i
  {
    if IsSpace(s[i]) {
      SpansOrdered(s, i + 1, k, l);
    } else {
      var e := RunEnd(s, i);
      if k > 0 {
        SpansOrdered(s, e, k - 1, l - 1);
      } else {
        var w := SpansFrom(s, e)[l - 1];
        RunStartsWord(s, e, l - 1);
        assert e <= w.lo;
      }
    }
  }

  /** A span from `i` starts at a non-whitespace character. */
  lemma {:induction false} RunStartsWord(s: string, i: nat, k: nat)
    requires i <= |s| && k < |SpansFrom(s, i)|
    ensures !IsSpace(s[SpansFrom(s, i)[k].lo])
    decreases |s| - i
  {
    if IsSpace(s[i]) {
      RunStartsWord(s, i + 1, k);
    } else if k > 0 {
      RunStartsWord(s, RunEnd(s, i), k - 1);
    }
  }

  /** There are as many words of `s[i..]` as spans from `i`. */
  lemma {:induction false} SpansCountWords(s: string, i: nat)
    requires i <= |s|
    ensures |SpansFrom(s, i)| == |Words(s[i..])|
    decreases |s| - i
  {
    if i == |s| {
      assert s[i..] == [];
    } else if IsSpace(s[i]) {
      WordsStepSpace(s, i);
      SpansCountWords(s, i + 1);
    } else {
      WordsStepWord(s, i);
      SpansCountWords(s, RunEnd(s, i));
    }
  }

  /** Word `k` of `s[i..]` is the text at span `k` from `i`. */
  lemma {:induction false} WordAtSpan(s: string, i: nat, k: nat)
    requires i <= |s| && k < |SpansFrom(s, i)| && k < |Words(s[i..])|
    ensures Words(s[i..])[k] == s[SpansFrom(s, i)[k].lo..SpansFrom(s, i)[k].hi]
    decreases |s| - i
  {
    if IsSpace(s[i]) {
      WordsStepSpace(s, i);
      SpansCountWords(s, i + 1);
      WordAtSpan(s, i + 1, k);
    } else {
      var e := RunEnd(s, i);
      WordsStepWord(s, i);
      if k > 0 {
        SpansCountWords(s, e);
        WordAtSpan(s, e, k - 1);
      }
    }
  }

  /** Every non-whitespace character from `i` on lies in a span from `i`. */
  lemma {:induction false} SpansFromCover(s: string, i: nat)
    requires i <= |s|
    ensures var sp := SpansFrom(s, i);
      forall j :: i <= j < |s| && !IsSpace(s[j]) ==> exists k :: 0 <= k < |sp| && InSpan(sp[k], j)
    decreases |s| - i
  {
    if i < |s| {
      if IsSpace(s[i]) {
        assert SpansFrom(s, i) == SpansFrom(s, i + 1);
        SpansFromCover(s, i + 1);
        var sp := SpansFrom(s, i);
        forall j | i <= j < |s| && !IsSpace(s[j])
          ensures exists k :: 0 <= k < |sp| && InSpan(sp[k], j)
        {
          assert i + 1 <= j;
        }
      } else {
        var e := RunEnd(s, i);
        SpansFromCover(s, e);
        var sp := SpansFrom(s, i);
        var tail := SpansFrom(s, e);
        assert sp == [Span(i, e)] + tail;
        forall j | i <= j < |s| && !IsSpace(s[j])
          ensures exists k :: 0 <= k < |sp| && InSpan(sp[k], j)
        {
          if j < e {
            assert InSpan(sp[0], j);
          } else {
            var k :| 0 <= k < |tail| && InSpan(tail[k], j);
            assert InSpan(sp[k + 1], j);
          }
        }
      }
    }
  }

  /** `str.split()` yields exactly the maximal runs of non-whitespace
      characters of `s`, in text order: word `k` is `s[lo..hi]` for a run
      bounded by whitespace or the ends of `s`, the runs are disjoint and
      increasing, and every non-whitespace character lies in one of them. */
  lemma WordsAreRuns(s: string)
    ensures var sp := SpansFrom(s, 0); var ws := Words(s);
      && |sp| == |ws|
      && (forall k :: 0 <= k < |sp| ==> IsWordAt(s, sp[k]) && ws[k] == s[sp[k].lo..sp[k].hi])
      && (forall k, l :: 0 <= k < l < |sp| ==> sp[k].hi < sp[l].lo)
      && (forall j :: 0 <= j < |s| && !IsSpace(s[j]) ==> exists k :: 0 <= k < |sp| && InSpan(sp[k], j))
  {
    var sp := SpansFrom(s, 0);
    assert s[0..] == s;
    SpansCountWords(s, 0);
    SpansFromCover(s, 0);
    forall k | 0 <= k < |sp|
      ensures IsWordAt(s, sp[k]) && Words(s)[k] == s[sp[k].lo..sp[k].hi]
    {
      SpanIsWord(s, 0, k);
      WordAtSpan(s, 0, k);
    }
    forall k, l | 0 <= k < l < |sp|
      ensures sp[k].hi < sp[l].lo
    {
      SpansOrdered(s, 0, k, l);
    }
  }

  /** The first `n` elements, or all of them if there are fewer: Python's
      slice `xs[:n]`. */
  function Take<T>(xs: seq<T>, n: nat): (r: seq<T>)
    ensures |r| == if |xs| <= n then |xs| else n
    ensures r == xs[..|r|]
  {
    if |xs| <= n then xs else xs[..n]
  }
}
