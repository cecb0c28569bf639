/** Sentence splitting in `extract_claims`: `re.split` with the pattern
    `(?<!\w\.\w.)(?<![A-Z][a-z]\.)(?<=\.|\?)\s`. Every match is one
    whitespace character, so the split points are simply the positions where
    the pattern matches, and each match removes exactly that character. */
module Sentences {
  import opened Strings

  /** The pattern matches at position `i` of `t`: `t[i]` is whitespace, it
      follows `.` or `?`, the three characters before it are not a capital,
      a small letter and a period (an abbreviation such as "Mr."), and the
      four characters before it are not word character, period, word
      character and any character but a line feed (as in "e.g."). */
  predicate IsBreak(t: string, i: nat)
    requires i < |t|
  {
    && IsSpace(t[i])
    && i >= 1 && (t[i - 1] == '.' || t[i - 1] == '?')
    && !(i >= 3 && IsAsciiUpper(t[i - 3]) && IsAsciiLower(t[i - 2]) && t[i - 1] == '.')
    && !(i >= 4 && IsWordChar(t[i - 4]) && t[i - 3] == '.' && IsWordChar(t[i - 2]) && t[i - 1] != '\n')
  }

  predicate Increasing(bs: seq<nat>) {
    forall k, l :: 0 <= k < l < |bs| ==> bs[k] < bs[l]
  }

  /** The positions at or after `i` where the pattern matches, in order. */
  function BreaksFrom(t: string, i: nat): (bs: seq<nat>)
    requires i <= |t|
    decreases |t| - i
    ensures Increasing(bs)
    ensures forall k :: 0 <= k < |bs| ==> i <= bs[k] < |t| && IsBreak(t, bs[k])
    ensures forall j :: i <= j < |t| && IsBreak(t, j) ==> j in bs
  {
    if i == |t| then []
    else if IsBreak(t, i) then [i] + BreaksFrom(t, i + 1)
    else BreaksFrom(t, i + 1)
  }

  /** Every position where the pattern matches, in order. */
  function Breaks(t: string): (bs: seq<nat>)
    ensures Increasing(bs)
    ensures forall j :: 0 <= j < |t| ==> (j in bs <==> IsBreak(t, j))
    ensures forall k :: 0 <= k < |bs| ==> bs[k] < |t|
  {
    BreaksFrom(t, 0)
  }

  /** The pieces of `t[start..]` between the split positions `bs`. */
  function Cut(t: string, bs: seq<nat>, start: nat): (ps: seq<string>)
    requires start <= |t|
    requires Increasing(bs)
    requires forall k :: 0 <= k < |bs| ==> start <= bs[k] < |t|
    decreases |bs|
    ensures |ps| == |bs| + 1
  {
    if bs == [] then [t[start..]]
    else [t[start..bs[0]]] + Cut(t, bs[1..], bs[0] + 1)
  }

  /** The characters a split removes: the one at each split position. */
  function Removed(t: string, bs: seq<nat>): (cs: string)
    requires forall k :: 0 <= k < |bs| ==> bs[k] < |t|
    ensures |cs| == |bs|
  {
    seq(|bs|, k requires 0 <= k < |bs| => t[bs[k]])
  }

  /** Puts the pieces back together with one separator between each pair. */
  function Join(ps: seq<string>, seps: string): string
    requires |ps| == |seps| + 1
    decreases |seps|
  {
    if seps == [] then ps[0] else ps[0] + [seps[0]] + Join(ps[1..], seps[1..])
  }

  /** `re.split(pattern, t)`: the text between consecutive matches. */
  function Split(t: string): (ps: seq<string>)
    ensures |ps| == |Breaks(t)| + 1
  {
    Cut(t, Breaks(t), 0)
  }

  /** Putting the pieces of a cut back together with the removed characters
      gives the text back. */
  lemma {:induction false} CutJoin(t: string, bs: seq<nat>, start: nat)
    requires start <= |t|
    requires Increasing(bs)
    requires forall k :: 0 <= k < |bs| ==> start <= bs[k] < |t|
    ensures Join(Cut(t, bs, start), Removed(t, bs)) == t[start..]
    decreases |bs|
  {
    if bs != [] {
      CutJoin(t, bs[1..], bs[0] + 1);
      assert Removed(t, bs)[1..] == Removed(t, bs[1..]);
      assert t[start..] == t[start..bs[0]] + [t[bs[0]]] + t[bs[0] + 1..];
    }
  }

  /** Piece `k` of a cut is the text from just after split position `k - 1`
      (or from `start`) up to split position `k` (or the end). */
  lemma {:induction false} CutPieces(t: string, bs: seq<nat>, start: nat)
    requires start <= |t|
    requires Increasing(bs)
    requires forall k :: 0 <= k < |bs| ==> start <= bs[k] < |t|
    ensures forall k :: 0 <= k < |bs| + 1 ==>
      Cut(t, bs, start)[k] == t[PieceStart(bs, start, k)..PieceEnd(bs, |t|, k)]
    decreases |bs|
  {
    if bs != [] {
      CutPieces(t, bs[1..], bs[0] + 1);
      forall k | 1 <= k < |bs| + 1
        ensures Cut(t, bs, start)[k] == t[PieceStart(bs, start, k)..PieceEnd(bs, |t|, k)]
      {
        assert Cut(t, bs, start)[k] == Cut(t, bs[1..], bs[0] + 1)[k - 1];
        assert PieceStart(bs, start, k) == PieceStart(bs[1..], bs[0] + 1, k - 1);
        assert PieceEnd(bs, |t|, k) == PieceEnd(bs[1..], |t|, k - 1);
      }
    }
  }

  function PieceStart(bs: seq<nat>, start: nat, k: nat): nat
    requires k <= |bs|
  {
    if k == 0 then start else bs[k - 1] + 1
  }

  function PieceEnd(bs: seq<nat>, end: nat, k: nat): nat
    requires k <= |bs|
  {
    if k == |bs| then end else bs[k]
  }

  /** The split removes exactly one whitespace character at each match, the
      matches are exactly the positions the pattern accepts, every piece is
      the text between two consecutive matches, and joining the pieces with
      the removed characters gives the text back. */
  lemma SplitRoundTrip(t: string)
    ensures var bs := Breaks(t);
      && Join(Split(t), Removed(t, bs)) == t
      && (forall k :: 0 <= k < |bs| ==> IsSpace(Removed(t, bs)[k]))
      && (forall k :: 0 <= k < |bs| + 1 ==> Split(t)[k] == t[PieceStart(bs, 0, k)..PieceEnd(bs, |t|, k)])
  {
    var bs := Breaks(t);
    CutJoin(t, bs, 0);
    CutPieces(t, bs, 0);
    assert forall k :: 0 <= k < |bs| ==> IsBreak(t, bs[k]);
  }
}
