/** The per-claim evidence check: `fact_check_claim` in
    python/detector/misinfo_detector.py. Two web searches are run for the
    claim, one phrased to find support and one to find challenges; the
    numbers of results decide a verdict through a fixed priority table, and
    a record keeps the counts, the first three links of each kind and a
    display copy of the claim. The search engine is a parameter. */
module Evidence {
  import opened Strings

  /** `max_results` for each search query. */
  const DDG_RESULTS: nat := 3
  /** Links kept per kind in the record. */
  const SHOWN_LINKS: nat := 3
  /** Characters of the claim kept for display before `...` is appended. */
  const CLAIM_DISPLAY_LEN: nat := 200

  datatype Verdict = NoEvidence | LikelyFalse | LikelyTrue | LeansFalse | LeansTrue | Inconclusive
  {
    /** The verdict string the record holds. */
    function Text(): string {
      match this
      case NoEvidence => "No evidence found"
      case LikelyFalse => "Likely False/Misleading"
      case LikelyTrue => "Likely True"
      case LeansFalse => "Leans False"
      case LeansTrue => "Leans True"
      case Inconclusive => "Inconclusive"
    }
  }

  /** The if/elif chain over the two result counts, in priority order. Its
      outcome in closed form: no results at all gives no evidence; two or
      more challenges win; otherwise two or more supports win; otherwise a
      lone result leans its way and one of each is inconclusive. Exactly
      one verdict applies to every pair of counts. */
  function DecideVerdict(support: nat, challenge: nat): (v: Verdict)
    ensures v == NoEvidence <==> support == 0 && challenge == 0
    ensures v == LikelyFalse <==> challenge >= 2
    ensures v == LikelyTrue <==> support >= 2 && challenge < 2
    ensures v == LeansFalse <==> support == 0 && challenge == 1
    ensures v == LeansTrue <==> support == 1 && challenge == 0
    ensures v == Inconclusive <==> support == 1 && challenge == 1
  {
    if support == 0 && challenge == 0 then NoEvidence
    else if challenge >= 2 then LikelyFalse
    else if support >= 2 then LikelyTrue
    else if challenge > support then LeansFalse
    else if support > challenge then LeansTrue
    else Inconclusive
  }

  /** The query that looks for support. */
  function SupportQuery(claim: string): string {
    "\"" + claim + "\" confirmed OR true OR evidence"
  }

  /** The query that looks for challenges. */
  function ChallengeQuery(claim: string): string {
    "\"" + claim + "\" false OR hoax OR debunked OR misinformation"
  }

  /** What a search call gives back: the result links, or an exception. */
  datatype Reply = Hits(hrefs: seq<string>) | Raised

  /** `claim[:200] + "..." if len(claim) > 200 else claim`: a claim of at most
      200 characters is shown whole; a longer one is cut to its first 200
      characters followed by `...`. Either way at most 203 characters. */
  function DisplayClaim(claim: string): (d: string)
    ensures |d| <= CLAIM_DISPLAY_LEN + 3
    ensures |claim| <= CLAIM_DISPLAY_LEN ==> d == claim
    ensures |claim| > CLAIM_DISPLAY_LEN ==>
      |d| == CLAIM_DISPLAY_LEN + 3 && StartsWith(claim, d[..CLAIM_DISPLAY_LEN]) && EndsWith(d, "...")
  {
    if |claim| > CLAIM_DISPLAY_LEN then claim[..CLAIM_DISPLAY_LEN] + "..." else claim
  }

  /** The dictionary `fact_check_claim` returns. */
  datatype EvidenceCheck = EvidenceCheck(
    claim: string,
    supportCount: nat,
    supportLinks: seq<string>,
    challengeCount: nat,
    challengeLinks: seq<string>,
    verdict: Verdict)

  /** A check either completes or the search raised; the source catches
      nothing, so a raised search ends the whole analysis. */
  datatype Checked = Checked(check: EvidenceCheck) | SearchFailed

  /** `fact_check_claim(claim)` with the search engine as a parameter. A
      check fails exactly when one of the two searches raised. Otherwise the
      counts are the numbers of links each search returned (all of them,
      not just the kept ones); each links field is the first three links, or
      all of them if there are fewer, in search order; the verdict follows
      the table from those counts; the claim is its display copy. */
  function FactCheckClaim(claim: string, search: (string, nat) -> Reply): (r: Checked)
    ensures var support := search(SupportQuery(claim), DDG_RESULTS);
      var challenge := search(ChallengeQuery(claim), DDG_RESULTS);
      && (r.SearchFailed? <==> support.Raised? || challenge.Raised?)
      && (r.Checked? ==>
        var e := r.check;
        && e.supportCount == |support.hrefs|
        && e.challengeCount == |challenge.hrefs|
        && |e.supportLinks| == (if e.supportCount <= SHOWN_LINKS then e.supportCount else SHOWN_LINKS)
        && |e.challengeLinks| == (if e.challengeCount <= SHOWN_LINKS then e.challengeCount else SHOWN_LINKS)
        && e.supportLinks == support.hrefs[..|e.supportLinks|]
        && e.challengeLinks == challenge.hrefs[..|e.challengeLinks|]
        && e.verdict == DecideVerdict(e.supportCount, e.challengeCount)
        && e.claim == DisplayClaim(claim))
  {
    var support := search(SupportQuery(claim), DDG_RESULTS);
    var challenge := search(ChallengeQuery(claim), DDG_RESULTS);
    if support.Raised? || challenge.Raised? then SearchFailed
    else
      var supportLinks := support.hrefs;
      var challengeLinks := challenge.hrefs;
      Checked(EvidenceCheck(
        DisplayClaim(claim),
        |supportLinks|, Take(supportLinks, SHOWN_LINKS),
        |challengeLinks|, Take(challengeLinks, SHOWN_LINKS),
        DecideVerdict(|supportLinks|, |challengeLinks|)))
  }

  /** The test the aggregation applies to a verdict string: it contains
      `False` or is exactly `Leans False`. */
  predicate IsFalseFlag(v: Verdict) {
    Contains(v.Text(), "False") || v.Text() == "Leans False"
  }

  /** A string without a capital F cannot contain `False`. */
  lemma {:induction false} NoCapitalF(s: string)
    requires 'F' !in s
    ensures !Contains(s, "False")
    decreases |s|
  {
    if s != [] {
      assert !StartsWith(s, "False") by {
        if |s| >= 5 {
          assert s[..5][0] == s[0];
        }
      }
      assert s == [s[0]] + s[1..];
      NoCapitalF(s[1..]);
    }
  }

  /** The four verdict strings without a capital F do not contain `False`;
      `Likely False/Misleading` does. */
  lemma VerdictTextsFalse(s: string)
    requires s in {"No evidence found", "Likely True", "Leans True", "Inconclusive", "Likely False/Misleading"}
    ensures Contains(s, "False") <==> s == "Likely False/Misleading"
  {
    if s == "Likely False/Misleading" {
      assert s[7..12] == "False";
      assert OccursAt(s, "False", 7);
      ContainsAt(s, "False");
    } else {
      NoCapitalF(s);
    }
  }

  /** The verdicts counted as false flags are exactly `Likely False/Misleading`
      and `Leans False`; the second half of the test adds nothing. */
  lemma FalseFlagVerdicts(v: Verdict)
    ensures IsFalseFlag(v) <==> v == LikelyFalse || v == LeansFalse
  {
    if v != LeansFalse {
      VerdictTextsFalse(v.Text());
    }
  }
}
