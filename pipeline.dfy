/** The analysis run: `detect_misinfo` in python/detector/misinfo_detector.py.
    The fetched content is skipped when it is the fetcher's error message;
    otherwise it is scored for AI authorship, its claims are extracted and
    checked one by one, the false flags among the checks are counted, and
    an overall verdict is chosen from a fixed priority table. Fetching,
    classifying, searching and the clock are parameters. */
module Pipeline {
  import opened Strings
  import opened Authorship
  import opened ClaimSelection
  import Sentences
  import opened Evidence

  /** The fetcher reports failure by returning a message with this prefix. */
  const ERROR_PREFIX := "Error"

  datatype Overall = AiMisinfoLikely | PotentialMisinfo | LikelyAiClaimsOk | AppearsLegit
  {
    /** The string the report holds. */
    function Text(): string {
      match this
      case AiMisinfoLikely => "\U{1F6A8} AI Misinfo Likely"
      case PotentialMisinfo => "\U{26A0}\U{FE0F} Potential Misinfo"
      case LikelyAiClaimsOk => "\U{1F916} Likely AI (Claims OK)"
      case AppearsLegit => "\U{2705} Appears Legit"
    }
  }

  /** The if/elif chain choosing the overall verdict, in priority order. Its
      outcome in closed form: an AI-likely text with any false flag is AI
      misinformation; a human-looking text with two or more false flags is
      potential misinformation; an AI-likely text without false flags is
      AI with claims OK; anything else appears legitimate. */
  function OverallVerdict(aiLikely: bool, falseFlags: nat): (o: Overall)
    ensures o == AiMisinfoLikely <==> aiLikely && falseFlags >= 1
    ensures o == PotentialMisinfo <==> !aiLikely && falseFlags >= 2
    ensures o == LikelyAiClaimsOk <==> aiLikely && falseFlags == 0
    ensures o == AppearsLegit <==> !aiLikely && falseFlags <= 1
  {
    if aiLikely && falseFlags >= 1 then AiMisinfoLikely
    else if falseFlags >= 2 then PotentialMisinfo
    else if aiLikely then LikelyAiClaimsOk
    else AppearsLegit
  }

  /** The number of checks whose verdict is `Likely False/Misleading` or
      `Leans False`. */
  function FalseVerdicts(checks: seq<EvidenceCheck>): (n: nat)
    ensures n <= |checks|
  {
    if checks == [] then 0
    else
      var last := checks[|checks| - 1];
      FalseVerdicts(checks[..|checks| - 1]) +
        (if last.verdict == LikelyFalse || last.verdict == LeansFalse then 1 else 0)
  }

  /** Appending a check adds one exactly when the test of the aggregation
      flags its verdict. */
  lemma FalseVerdictsSnoc(checks: seq<EvidenceCheck>, check: EvidenceCheck)
    ensures FalseVerdicts(checks + [check]) == FalseVerdicts(checks) + if IsFalseFlag(check.verdict) then 1 else 0
  {
    assert (checks + [check])[..|checks|] == checks;
    FalseFlagVerdicts(check.verdict);
  }

  /** Every claim's searches answered. */
  predicate AllChecked(claims: seq<string>, search: (string, nat) -> Reply) {
    forall k :: 0 <= k < |claims| ==> FactCheckClaim(claims[k], search).Checked?
  }

  /** The dictionary `detect_misinfo` returns, without its constant `config`
      and `note` entries. */
  datatype Report = Report(
    url: string,
    timestamp: string,
    aiScore: real,
    aiVerdict: string,
    claims: seq<EvidenceCheck>,
    overall: Overall)

  /** The exceptions that escape `detect_misinfo`. */
  datatype Failure = ZeroDivisionError | SearchError

  /** `None` for a fetch error, an escaped exception, or the report. */
  datatype Analysis = Skipped | Failed(failure: Failure) | Completed(report: Report)

  /** What the claim loop of `detect_misinfo` leaves: the checks appended
      to the report and the false-flag count, or the exception a search
      raised. */
  datatype ClaimRun = Finished(checks: seq<EvidenceCheck>, falseFlags: nat) | Aborted

  /** The loop over the claims in `detect_misinfo`: check each claim in
      order, append its record, and add one flag when the verdict string
      contains `False` or is `Leans False`. The loop is aborted exactly when
      some claim's search raised; otherwise there is one record per claim, in
      claim order, and the flags count exactly the `Likely False/Misleading`
      and `Leans False` verdicts. */
  method CheckClaims(claims: seq<string>, search: (string, nat) -> Reply) returns (run: ClaimRun)
    ensures run.Aborted? <==> !AllChecked(claims, search)
    ensures run.Finished? ==>
      && |run.checks| == |claims|
      && (forall k :: 0 <= k < |claims| ==> FactCheckClaim(claims[k], search) == Checked(run.checks[k]))
      && run.falseFlags == FalseVerdicts(run.checks)
  {
    var checks: seq<EvidenceCheck> := [];
    var falseFlags := 0;
    for i := 0 to |claims|
      invariant |checks| == i
      invariant forall k :: 0 <= k < i ==> FactCheckClaim(claims[k], search) == Checked(checks[k])
      invariant falseFlags == FalseVerdicts(checks)
    {
      var result := FactCheckClaim(claims[i], search);
      if result.SearchFailed? {
        return Aborted;
      }
      var check := result.check;
      var previous := checks;
      checks := checks + [check];
      forall k | 0 <= k < i + 1
        ensures FactCheckClaim(claims[k], search) == Checked(checks[k])
      {
        if k < i {
          assert checks[k] == previous[k];
        }
      }
      FalseVerdictsSnoc(previous, check);
      falseFlags := falseFlags + if IsFalseFlag(check.verdict) then 1 else 0;
    }
    assert AllChecked(claims, search) by {
      forall k | 0 <= k < |claims| ensures FactCheckClaim(claims[k], search).Checked? {
        assert FactCheckClaim(claims[k], search) == Checked(checks[k]);
      }
    }
    return Finished(checks, falseFlags);
  }

  /** `detect_misinfo(url)` given what `fetch_content(url)` returned.

      Content starting with `Error` is skipped before anything else runs.
      Empty content raises division by zero in the AI vote. A search that
      raises for any claim ends the run with that exception. Otherwise the
      report holds the vote's score and verdict, one check per claim in
      claim order, and the overall verdict computed from the vote and the
      number of claims judged `Likely False/Misleading` or `Leans False`. */
  method DetectMisinfo(
    url: string,
    timestamp: string,
    content: string,
    classify: string -> string,
    search: (string, nat) -> Reply)
    returns (a: Analysis)
    ensures a.Skipped? <==> StartsWith(content, ERROR_PREFIX)
    ensures a == Failed(ZeroDivisionError) <==> !StartsWith(content, ERROR_PREFIX) && content == []
    ensures a == Failed(SearchError) <==>
      !StartsWith(content, ERROR_PREFIX) && content != [] && !AllChecked(Claims(content), search)
    ensures a.Completed? ==>
      var claims := Claims(content);
      var chunks := Chunks(content);
      var votes := Votes(chunks, classify);
      var aiLikely := 2 * votes > |chunks|;
      var r := a.report;
      && r.url == url && r.timestamp == timestamp
      && r.aiScore == votes as real / |chunks| as real
      && r.aiVerdict == (if aiLikely then "Likely AI" else "Likely Human")
      && |r.claims| == |claims| <= MAX_CLAIMS
      && (forall k :: 0 <= k < |claims| ==> FactCheckClaim(claims[k], search) == Checked(r.claims[k]))
      && r.overall == OverallVerdict(aiLikely, FalseVerdicts(r.claims))
  {
    if StartsWith(content, ERROR_PREFIX) {
      return Skipped;
    }
    var scoring := IsAiGenerated(content, classify);
    if scoring.DivisionByZero? {
      return Failed(ZeroDivisionError);
    }
    var aiLikely, aiScore := scoring.assessment.likely, scoring.assessment.score;
    var claims := ExtractClaims(content);
    ClaimsWellFormed(Sentences.Split(content));
    var run := CheckClaims(claims, search);
    if run.Aborted? {
      return Failed(SearchError);
    }
    var overall := OverallVerdict(aiLikely, run.falseFlags);
    var aiVerdict := if aiLikely then "Likely AI" else "Likely Human";
    return Completed(Report(url, timestamp, aiScore, aiVerdict, run.checks, overall));
  }
}
