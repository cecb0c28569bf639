/** Claim selection: `extract_claims` in python/detector/misinfo_detector.py.
    The text is split into sentences, each sentence is stripped and filtered,
    and the survivors are accepted by keyword or by a capitalisation test;
    at most six are returned, in document order. */
module ClaimSelection {
  import opened Strings
  import opened Sentences
  import opened Ratios

  const CLAIM_MIN_LEN := 70
  const CLAIM_MAX_LEN := 300
  const MAX_CLAIMS := 6
  const EXCLUDED_PHRASES: seq<string> := ["read more", "ap photo", "photo"]
  const FACTUAL_KEYWORDS: seq<string> :=
    ["said", "claimed", "according to", "reported", "confirmed", "strike", "event"]

  function Max(a: int, b: int): int { if a >= b then a else b }

  /** The length bounds, no trailing question mark and no excluded phrase,
      the latter checked on the lower-cased sentence. */
  predicate PassesFilters(s: string) {
    && CLAIM_MIN_LEN <= |s| <= CLAIM_MAX_LEN
    && !EndsWith(s, "?")
    && !ContainsAny(Lower(s), EXCLUDED_PHRASES)
  }

  /** The lower-cased sentence contains one of the factual keywords. */
  predicate HasKeyword(s: string) {
    ContainsAny(Lower(s), FACTUAL_KEYWORDS)
  }

  /** `sum(1 for w in words if w and w[0].isupper())`. */
  function CapitalisedWords(ws: seq<string>): (n: nat)
    ensures n <= |ws|
  {
    if ws == [] then 0
    else (if ws[0] != [] && IsAsciiUpper(ws[0][0]) then 1 else 0) + CapitalisedWords(ws[1..])
  }

  /** `caps_ratio < 0.7` with `caps_ratio = caps / max(len(words), 1)`,
      compared exactly on integers. */
  predicate FewCapitals(s: string) {
    var ws := Words(s);
    10 * CapitalisedWords(ws) < 7 * Max(|ws|, 1)
  }

  /** `caps / max(len(words), 1) < 0.7`, computed on exact rationals, is the
      integer comparison `FewCapitals` makes. */
  lemma CapsRatioBelow(caps: nat, words: nat)
    ensures (caps as real / Max(words, 1) as real < 0.7) <==> 10 * caps < 7 * Max(words, 1)
  {
    QuotientOrder(caps as real, Max(words, 1) as real, 0.7);
  }

  /** The loop's capital-letter test on a sentence is `caps_ratio < 0.7`
      over the sentence's own words, with the ratio computed exactly. */
  lemma FewCapitalsRatio(s: string)
    ensures var ws := Words(s);
      FewCapitals(s) <==> CapitalisedWords(ws) as real / Max(|ws|, 1) as real < 0.7
  {
    CapsRatioBelow(CapitalisedWords(Words(s)), |Words(s)|);
  }

  /** Whether the loop appends sentence `s` when `held` claims are held. */
  predicate Accepts(held: nat, s: string) {
    PassesFilters(s) && (HasKeyword(s) || (held < MAX_CLAIMS && FewCapitals(s)))
  }

  /** The list `claims` as the loop leaves it after the given sentences,
      before the final slice. */
  function Accepted(sents: seq<string>): seq<string>
    decreases |sents|
  {
    if sents == [] then []
    else
      var held := Accepted(sents[..|sents| - 1]);
      var s := Strip(sents[|sents| - 1]);
      if Accepts(|held|, s) then held + [s] else held
  }

  /** A stripped sentence that would be accepted were fewer than six held. */
  predicate Eligible(s: string) {
    PassesFilters(s) && (HasKeyword(s) || FewCapitals(s))
  }

  /** For each sentence, whether it is eligible once stripped. */
  function EligibleFlags(sents: seq<string>): (fs: seq<bool>)
    ensures |fs| == |sents|
  {
    seq(|sents|, k requires 0 <= k < |sents| => Eligible(Strip(sents[k])))
  }

  /** The positions holding `true`, in increasing order. */
  function TruePositions(fs: seq<bool>): (idx: seq<nat>)
    decreases |fs|
    ensures Increasing(idx)
    ensures forall k :: 0 <= k < |idx| ==> idx[k] < |fs| && fs[idx[k]]
    ensures forall j :: 0 <= j < |fs| && fs[j] ==> j in idx
  {
    if fs == [] then []
    else
      var n := |fs| - 1;
      TruePositions(fs[..n]) + (if fs[n] then [n] else [])
  }

  /** The positions of the eligible sentences, in document order. */
  function EligibleIndices(sents: seq<string>): seq<nat> {
    TruePositions(EligibleFlags(sents))
  }

  /** The stripped sentences at positions `idx`. */
  function Pick(sents: seq<string>, idx: seq<nat>): (r: seq<string>)
    requires forall k :: 0 <= k < |idx| ==> idx[k] < |sents|
    ensures |r| == |idx|
  {
    seq(|idx|, k requires 0 <= k < |idx| => Strip(sents[idx[k]]))
  }

  /** The eligible stripped sentences, in document order. */
  function Eligibles(sents: seq<string>): seq<string> {
    Pick(sents, EligibleIndices(sents))
  }

  /** The sentence positions the claims come from: the first six eligible. */
  function ClaimIndices(sents: seq<string>): seq<nat> {
    Take(EligibleIndices(sents), MAX_CLAIMS)
  }

  /** The claims chosen from the split sentences. */
  function SelectClaims(sents: seq<string>): seq<string> {
    Pick(sents, ClaimIndices(sents))
  }

  /** What `extract_claims(text)` returns. */
  function Claims(text: string): seq<string> {
    SelectClaims(Split(text))
  }

  lemma EligibleIndicesSnoc(sents: seq<string>)
    requires sents != []
    ensures var n := |sents| - 1;
      EligibleIndices(sents) == EligibleIndices(sents[..n]) + (if Eligible(Strip(sents[n])) then [n] else [])
  {
    var n := |sents| - 1;
    var init := sents[..n];
    var fs := EligibleFlags(sents);
    var gs := EligibleFlags(init);
    forall k | 0 <= k < n
      ensures fs[k] == gs[k]
    {
      assert init[k] == sents[k];
    }
    assert fs[..n] == gs;
  }

  /** Picking from a longer list of sentences the positions of a shorter
      one picks the same. */
  lemma PickPrefix(sents: seq<string>, n: nat, idx: seq<nat>)
    requires n <= |sents|
    requires forall k :: 0 <= k < |idx| ==> idx[k] < n
    ensures Pick(sents, idx) == Pick(sents[..n], idx)
  {
  }

  lemma EligiblesSnoc(sents: seq<string>)
    requires sents != []
    ensures var n := |sents| - 1; var s := Strip(sents[n]);
      Eligibles(sents) == Eligibles(sents[..n]) + (if Eligible(s) then [s] else [])
  {
    var n := |sents| - 1;
    var pre := EligibleIndices(sents[..n]);
    EligibleIndicesSnoc(sents);
    PickPrefix(sents, n, pre);
    if Eligible(Strip(sents[n])) {
      assert Pick(sents, pre + [n]) == Pick(sents, pre) + [Strip(sents[n])];
    } else {
      assert EligibleIndices(sents) == pre;
    }
  }

  /** The `len(claims) < 6` gate never changes the result: whatever it keeps
      out is a sentence that comes after six claims are already held, and
      the final slice would drop it anyway. So `extract_claims` returns the
      first six eligible sentences. */
  lemma {:induction false} GateIrrelevant(sents: seq<string>)
    ensures Take(Accepted(sents), MAX_CLAIMS) == Take(Eligibles(sents), MAX_CLAIMS)
    ensures |Accepted(sents)| < MAX_CLAIMS ==> Accepted(sents) == Eligibles(sents)
    decreases |sents|
  {
    if sents != [] {
      var n := |sents| - 1;
      var s := Strip(sents[n]);
      GateIrrelevant(sents[..n]);
      EligiblesSnoc(sents);
      var held := Accepted(sents[..n]);
      var elig := Eligibles(sents[..n]);
      if |held| >= MAX_CLAIMS {
        assert |elig| >= MAX_CLAIMS by {
          assert |Take(elig, MAX_CLAIMS)| == MAX_CLAIMS;
        }
        assert Take(Accepted(sents), MAX_CLAIMS) == Take(held, MAX_CLAIMS);
        assert Take(Eligibles(sents), MAX_CLAIMS) == Take(elig, MAX_CLAIMS);
      }
    }
  }

  /** One more sentence is appended, stripped, exactly when it is accepted. */
  lemma AcceptedSnoc(sents: seq<string>, i: nat)
    requires i < |sents|
    ensures var held := Accepted(sents[..i]); var s := Strip(sents[i]);
      Accepted(sents[..i + 1]) == if Accepts(|held|, s) then held + [s] else held
  {
    assert sents[..i + 1][..i] == sents[..i];
  }

  /** The length gate: while fewer than six claims are held, a sentence is
      appended exactly when it is eligible; from six on, only a sentence
      that passes the filters and carries a factual keyword is appended. */
  lemma {:induction false} AcceptanceGate(sents: seq<string>, i: nat)
    requires i < |sents|
    ensures var held := Accepted(sents[..i]); var s := Strip(sents[i]);
      var grows := |Accepted(sents[..i + 1])| > |held|;
      && (|held| >= MAX_CLAIMS ==> (grows <==> PassesFilters(s) && HasKeyword(s)))
      && (|held| < MAX_CLAIMS ==> (grows <==> Eligible(s)))
      && Accepted(sents[..i + 1]) == if grows then held + [s] else held
  {
    AcceptedSnoc(sents, i);
  }

  /** `extract_claims`: one pass over the split sentences that appends to a
      growing list, then keeps its first six entries. */
  method ExtractClaims(text: string) returns (claims: seq<string>)
    ensures claims == Claims(text)
  {
    var sentences := Split(text);
    var held: seq<string> := [];
    for i := 0 to |sentences|
      invariant held == Accepted(sentences[..i])
    {
      AcceptedSnoc(sentences, i);
      var sent := Strip(sentences[i]);
      if !(CLAIM_MIN_LEN <= |sent| <= CLAIM_MAX_LEN) {
        assert !Accepts(|held|, sent);
        continue;
      }
      if EndsWith(sent, "?") || ContainsAny(Lower(sent), EXCLUDED_PHRASES) {
        assert !Accepts(|held|, sent);
        continue;
      }
      assert PassesFilters(sent);
      if ContainsAny(Lower(sent), FACTUAL_KEYWORDS) {
        assert Accepts(|held|, sent);
        held := held + [sent];
      } else if |held| < MAX_CLAIMS {
        var words := Words(sent);
        var caps := CapitalisedWords(words);
        if 10 * caps < 7 * Max(|words|, 1) {
          assert Accepts(|held|, sent);
          held := held + [sent];
        } else {
          assert !Accepts(|held|, sent);
        }
      } else {
        assert !Accepts(|held|, sent);
      }
    }
    assert sentences[..|sentences|] == sentences;
    claims := Take(held, MAX_CLAIMS);
    AcceptedClaims(sentences);
  }

  /** The sliced list of accepted sentences is the selection of claims. */
  lemma AcceptedClaims(sents: seq<string>)
    ensures Take(Accepted(sents), MAX_CLAIMS) == SelectClaims(sents)
  {
    GateIrrelevant(sents);
    var all := EligibleIndices(sents);
    assert Take(Pick(sents, all), MAX_CLAIMS) == Pick(sents, Take(all, MAX_CLAIMS));
  }

  /** A claim of 70 to 300 characters that does not end in `?`, contains no
      excluded phrase in any letter case, and neither starts nor ends with
      whitespace. */
  predicate WellFormedClaim(c: string) {
    && CLAIM_MIN_LEN <= |c| <= CLAIM_MAX_LEN
    && !EndsWith(c, "?")
    && !ContainsAny(Lower(c), EXCLUDED_PHRASES)
    && !IsSpace(c[0]) && !IsSpace(c[|c| - 1])
  }

  /** An eligible sentence, once stripped, is a well-formed claim. */
  lemma EligibleWellFormed(s: string)
    requires Eligible(Strip(s))
    ensures WellFormedClaim(Strip(s))
  {
  }

  /** Every claim is a stripped sentence of 70 to 300 characters that does
      not end in `?`, contains no excluded phrase in any letter case, and
      neither starts nor ends with whitespace; there are at most six. */
  lemma ClaimsWellFormed(sents: seq<string>)
    ensures |SelectClaims(sents)| <= MAX_CLAIMS
    ensures forall k :: 0 <= k < |SelectClaims(sents)| ==> WellFormedClaim(SelectClaims(sents)[k])
  {
  }

  /** The claims are eligible stripped sentences in document order: each
      comes from a position strictly after the previous claim's. */
  lemma ClaimsInOrder(sents: seq<string>)
    ensures var idx := ClaimIndices(sents); var cs := SelectClaims(sents);
      && |idx| == |cs| <= MAX_CLAIMS
      && Increasing(idx)
      && (forall k :: 0 <= k < |idx| ==> idx[k] < |sents| && cs[k] == Strip(sents[idx[k]]))
      && (forall k :: 0 <= k < |idx| ==> Eligible(cs[k]))
  {
  }

  /** The claims are the FIRST eligible sentences: no eligible sentence
      before the last claim (or anywhere, when fewer than six were found)
      is left out. */
  lemma ClaimsAreFirst(sents: seq<string>, j: nat)
    requires j < |sents| && Eligible(Strip(sents[j]))
    requires |ClaimIndices(sents)| < MAX_CLAIMS || j <= ClaimIndices(sents)[MAX_CLAIMS - 1]
    ensures j in ClaimIndices(sents)
  {
    var all := EligibleIndices(sents);
    var idx := ClaimIndices(sents);
    var fs := EligibleFlags(sents);
    assert fs[j];
    var p :| 0 <= p < |all| && all[p] == j;
    assert idx[p] == j;
  }
}
