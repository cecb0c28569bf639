/** The AI-authorship vote: `is_ai_generated` in
    python/detector/misinfo_detector.py. The text is cut into 512-character
    chunks, each chunk gets one vote when the classifier labels it
    `LABEL_1`, and the text is judged AI-written when more than half of the
    chunks voted. The classifier is a parameter: the label it gives a chunk. */
module Authorship {
  import opened Ratios

  const AI_CHUNK_SIZE: nat := 512
  const AI_LABEL := "LABEL_1"

  /** The number of chunks: `len(range(0, n, 512))`, that is ⌈n / 512⌉. */
  function ChunkCount(n: nat): nat {
    (n + AI_CHUNK_SIZE - 1) / AI_CHUNK_SIZE
  }

  function Min(a: int, b: int): int { if a <= b then a else b }

  /** `[text[i:i+512] for i in range(0, len(text), 512)]`. */
  function Chunks(text: string): (cs: seq<string>)
    ensures |cs| == ChunkCount(|text|)
  {
    var n := ChunkCount(|text|);
    seq(n, k requires 0 <= k < n =>
      text[k * AI_CHUNK_SIZE..Min((k + 1) * AI_CHUNK_SIZE, |text|)])
  }

  function Concat(cs: seq<string>): string {
    if cs == [] then [] else cs[0] + Concat(cs[1..])
  }

  /** A text longer than one chunk is its first 512 characters followed by
      the chunks of the rest. */
  lemma ChunksUnfold(text: string)
    requires |text| > AI_CHUNK_SIZE
    ensures Chunks(text) == [text[..AI_CHUNK_SIZE]] + Chunks(text[AI_CHUNK_SIZE..])
  {
    var rest := text[AI_CHUNK_SIZE..];
    assert ChunkCount(|text|) == ChunkCount(|rest|) + 1;
    forall k | 1 <= k < ChunkCount(|text|)
      ensures Chunks(text)[k] == Chunks(rest)[k - 1]
    {
      var lo, hi := k * AI_CHUNK_SIZE, Min((k + 1) * AI_CHUNK_SIZE, |text|);
      var lo', hi' := (k - 1) * AI_CHUNK_SIZE, Min(k * AI_CHUNK_SIZE, |rest|);
      assert lo' + AI_CHUNK_SIZE == lo && hi' + AI_CHUNK_SIZE == hi;
      assert Chunks(text)[k] == text[lo..hi];
      assert Chunks(rest)[k - 1] == rest[lo'..hi'] == text[lo..hi];
    }
  }

  /** The chunks put back together give the text; none is empty; each is at
      most 512 characters long, and every one but the last exactly 512; so
      there are ⌈len / 512⌉ of them. */
  lemma {:induction false} ChunksPartition(text: string)
    ensures Concat(Chunks(text)) == text
    ensures |text| <= |Chunks(text)| * AI_CHUNK_SIZE < |text| + AI_CHUNK_SIZE
    ensures forall k :: 0 <= k < |Chunks(text)| ==> 0 < |Chunks(text)[k]| <= AI_CHUNK_SIZE
    ensures forall k :: 0 <= k < |Chunks(text)| - 1 ==> |Chunks(text)[k]| == AI_CHUNK_SIZE
    decreases |text|
  {
    if |text| > AI_CHUNK_SIZE {
      var rest := text[AI_CHUNK_SIZE..];
      ChunksUnfold(text);
      ChunksPartition(rest);
      assert Chunks(text)[1..] == Chunks(rest);
    } else if text != [] {
      assert ChunkCount(|text|) == 1;
      assert Chunks(text)[0] == text[0..|text|] == text;
      assert Chunks(text) == [text];
    }
  }

  /** Number of chunks the classifier labels `LABEL_1`. */
  function Votes(cs: seq<string>, classify: string -> string): (v: nat)
    ensures v <= |cs|
  {
    if cs == [] then 0
    else Votes(cs[..|cs| - 1], classify) + (if classify(cs[|cs| - 1]) == AI_LABEL then 1 else 0)
  }

  /** `sum(scores)`. */
  function Sum(xs: seq<int>): int {
    if xs == [] then 0 else Sum(xs[..|xs| - 1]) + xs[|xs| - 1]
  }

  /** The document-level verdict and average score. */
  datatype Assessment = Assessment(likely: bool, score: real)

  /** The average is taken over no chunks at all when the text is empty:
      Python raises `ZeroDivisionError` there. */
  datatype Scoring = Scored(assessment: Assessment) | DivisionByZero

  /** `avg > 0.5` with `avg = v / n` is the vote-count comparison `2v > n`,
      and the average of `n` votes lies in [0, 1]. */
  lemma AverageAboveHalf(v: nat, n: nat)
    requires 0 < n && v <= n
    ensures (v as real / n as real > 0.5) <==> 2 * v > n
    ensures 0.0 <= v as real / n as real <= 1.0
  {
    var vr, nr := v as real, n as real;
    QuotientOrder(vr, nr, 0.5);
    QuotientOrder(vr, nr, 1.0);
    QuotientOrder(vr, nr, 0.0);
  }

  /** `is_ai_generated`: classify every chunk, collect 0/1 scores, average
      them. The result is `DivisionByZero` exactly for the empty text;
      otherwise the score is the fraction of chunks labelled `LABEL_1`, it
      lies in [0, 1], and the text is judged AI-written exactly when more
      than half of the chunks are. */
  method IsAiGenerated(text: string, classify: string -> string) returns (r: Scoring)
    ensures r.DivisionByZero? <==> text == []
    ensures r.Scored? ==>
      var cs := Chunks(text);
      var v := Votes(cs, classify);
      && r.assessment.score == v as real / |cs| as real
      && (r.assessment.likely <==> 2 * v > |cs|)
      && 0.0 <= r.assessment.score <= 1.0
  {
    var chunks := Chunks(text);
    var scores: seq<int> := [];
    for i := 0 to |chunks|
      invariant |scores| == i
      invariant Sum(scores) == Votes(chunks[..i], classify)
    {
      assert chunks[..i + 1][..i] == chunks[..i];
      var chunkLabel := classify(chunks[i]);
      scores := scores + [if chunkLabel == AI_LABEL then 1 else 0];
      assert scores[..|scores| - 1] == scores[..i];
    }
    assert chunks[..|chunks|] == chunks;
    if |scores| == 0 {
      return DivisionByZero;
    }
    var votes := Sum(scores);
    var avg := votes as real / |scores| as real;
    AverageAboveHalf(votes, |scores|);
    return Scored(Assessment(avg > 0.5, avg));
  }
}
