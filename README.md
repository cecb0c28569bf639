# RealAICheck misinformation detector: decision logic in Dafny

This project models how `python/detector/misinfo_detector.py` turns fetched
article text into verdicts. Once the fetched text, the classifier and the
search engine are given, this logic is fully determined by its inputs. The
model has seven modules, one per file: six for the detector and a small
`Ratios` module.

- `Strings` (strings.dfy): the Python string operations the detector uses, over
  ASCII. These are `in`, `startswith`, `endswith`, `lower`, `strip`, `split()`
  and slicing.
- `Sentences` (sentences.dfy): the sentence split in `extract_claims`, that is
  `re.split` with the look-behind pattern. A split point is a whitespace
  character that follows `.` or `?`, unless it closes an abbreviation such as
  `Mr.` or `e.g.`.
- `ClaimSelection` (claims.dfy): `extract_claims`. Each sentence is stripped
  and filtered by length, a trailing `?` and the excluded phrases. A sentence
  is accepted on a factual keyword. Failing that, it is accepted by the
  capital-letter ratio, but only while fewer than six claims are held. The
  first six accepted sentences are kept.
- `Authorship` (authorship.dfy): `is_ai_generated`. The text is cut into
  512-character chunks. Each chunk gets one vote when the classifier labels it
  `LABEL_1`. The text is judged AI-written when the average vote exceeds 0.5.
- `Evidence` (evidence.dfy): `fact_check_claim`. It runs two searches per
  claim and applies the verdict table to the two result counts. The record
  keeps the counts, the first three links of each kind and a copy of the
  claim truncated to 200 characters. The module also proves which verdicts
  the false-flag test counts.
- `Pipeline` (pipeline.dfy): `detect_misinfo`. It skips content that is a
  fetch error message. Otherwise it runs the AI vote, extracts the claims,
  checks each claim in order while counting false flags, and picks the
  overall verdict from a four-way priority table.

`Ratios` (ratios.dfy) holds two facts about exact quotients. The two float
comparisons of the source rely on them.

The classifier is a parameter `classify: string -> string` that gives the
label of a chunk. The search engine is a parameter `search: (string, nat) ->
Reply`, called with the query and `max_results`. Its reply is either the
result links (`href`s) or `Raised`, an exception. The fetched content and the
timestamp are also parameters.

The model gives two of the exceptions the code can raise their own outcome:

- Empty content divides by zero in the AI vote: `Failed(ZeroDivisionError)`.
- A search that raises ends the whole analysis: `Failed(SearchError)`. Nothing
  in the detector catches it.

The other exceptions the code can raise are listed under "Left out".

The AI vote is modelled as the code computes it. There is no neutral
fallback score when the classifier fails and no minimum text length below
which the text is judged human. There is no confidence weighting either:
each chunk is a 0/1 vote on `LABEL_1`. A failed search has no verdict of its
own; it ends the analysis.

The verdict table is also modelled as the code runs it. The counts (3, 1)
give `Likely True`, because the `challenge >= 2` rule does not apply and the
`support >= 2` rule comes before any comparison of the two counts.

Three properties that the code does not state outright are proved about it:

- The `len(claims) < 6` gate never changes the result. Anything it keeps out
  comes after six claims are already held, so the final slice drops it
  anyway. `extract_claims` therefore returns the first six eligible
  sentences.
- The second half of the false-flag test, `"Leans False" == verdict`, never
  decides anything. `"False" in verdict` already covers it. Exactly the
  `Likely False/Misleading` and `Leans False` verdicts are counted.
- The regular-expression split is lossless. Each match removes exactly one
  whitespace character. Putting those characters back between the pieces
  gives the text again.

## Model

| member | source | states |
|---|---|---|
| `Strings.ContainsAt` | python/detector/misinfo_detector.py:108-113 | The `in` test on strings holds exactly when the phrase occurs at some offset of the sentence. |
| `Strings.StripTrims` | python/detector/misinfo_detector.py:105 | `strip()` returns a contiguous run of the sentence. Everything it drops before and after the run is whitespace. The result is empty, or neither starts nor ends with whitespace. |
| `Strings.WordsAreRuns` | python/detector/misinfo_detector.py:116 | `split()` yields exactly the maximal runs of non-whitespace characters, in order: word `k` is the text between two positions that are preceded by whitespace or the start and followed by whitespace or the end, with no whitespace inside. The runs are strictly increasing and disjoint, and every non-whitespace character lies in one of them. |
| `Strings.SpanIsWord` | python/detector/misinfo_detector.py:116 | Each span found by the scan is a nonempty run with no whitespace inside, bounded by whitespace or the ends of the text. |
| `Strings.SpansOrdered` | python/detector/misinfo_detector.py:116 | A span found earlier ends strictly before a later one begins. |
| `Strings.SpansFromCover` | python/detector/misinfo_detector.py:116 | Every non-whitespace character after the scan's start lies inside some span. |
| `Strings.Take` | python/detector/misinfo_detector.py:121 | The slice `xs[:n]` is the prefix of length `min(len(xs), n)`. |
| `Sentences.Breaks` | python/detector/misinfo_detector.py:102 | The split positions are increasing and are exactly the positions where the look-behind pattern matches. A match is whitespace after `.` or `?`, not preceded by `[A-Z][a-z].` and not by `\w.\w` plus one character other than a line feed. |
| `Sentences.Split` | python/detector/misinfo_detector.py:102 | `re.split` yields one more piece than there are matches. |
| `Sentences.SplitRoundTrip` | python/detector/misinfo_detector.py:102 | Each match removes exactly one character, and that character is whitespace. Each piece is the text between two consecutive matches. Joining the pieces with the removed characters gives back the original text. |
| `Sentences.CutJoin` | python/detector/misinfo_detector.py:102 | Joining the pieces of a cut with the characters at the cut positions gives back the text after the start. |
| `Sentences.CutPieces` | python/detector/misinfo_detector.py:102 | Piece `k` of a cut runs from just after cut `k - 1` up to cut `k`. |
| `ClaimSelection.CapitalisedWords` | python/detector/misinfo_detector.py:117 | The reference count behind `FewCapitals`, `FewCapitalsRatio` and `ExtractClaims`: the words whose first character is an ASCII capital. The contract states only that the count is at most the number of words. |
| `ClaimSelection.CapsRatioBelow` | python/detector/misinfo_detector.py:117-118 | `caps / max(len(words), 1) < 0.7`, computed exactly, is equivalent to the integer test `10 * caps < 7 * max(len(words), 1)`. |
| `ClaimSelection.FewCapitalsRatio` | python/detector/misinfo_detector.py:116-118 | The integer test the loop makes on a sentence holds exactly when `caps / max(len(words), 1) < 0.7`, computed exactly, over the words `split()` yields and the count of those that start with a capital. |
| `ClaimSelection.AcceptanceGate` | python/detector/misinfo_detector.py:112-119 | Once six claims are held, the list grows exactly when the stripped sentence passes the filters and has a factual keyword; the capital-letter test no longer counts. Below six, it grows exactly when the sentence is eligible. When it grows, the stripped sentence is appended at the end; otherwise the list is unchanged. |
| `ClaimSelection.EligiblesSnoc` | python/detector/misinfo_detector.py:104-119 | Adding one more sentence adds its stripped form to the eligible sentences exactly when it is eligible. |
| `ClaimSelection.GateIrrelevant` | python/detector/misinfo_detector.py:113-121 | Sliced to six, the list the loop builds equals the first six eligible sentences, whatever the `len(claims) < 6` gate kept out. While fewer than six are held, the list is exactly the eligible sentences. |
| `ClaimSelection.AcceptedClaims` | python/detector/misinfo_detector.py:104-121 | The final slice of the accepted list is the selection of the first six eligible sentences. |
| `ClaimSelection.ExtractClaims` | python/detector/misinfo_detector.py:101-121 | The loop with the source's branches returns the first six eligible stripped sentences of the split text. |
| `ClaimSelection.EligibleWellFormed` | python/detector/misinfo_detector.py:105-109 | An eligible stripped sentence is 70 to 300 characters long, does not end in `?`, contains no excluded phrase in any letter case, and has whitespace at neither end. |
| `ClaimSelection.ClaimsWellFormed` | python/detector/misinfo_detector.py:105-109 | There are at most six claims. Each is 70 to 300 characters long, does not end in `?`, contains none of `read more`, `ap photo` or `photo` in any letter case, and has whitespace at neither end. |
| `ClaimSelection.ClaimsInOrder` | python/detector/misinfo_detector.py:104-121 | Each claim is the stripped form of a sentence at a strictly increasing position, so document order is kept and nothing is duplicated. Each claim is eligible, and there are at most six. |
| `ClaimSelection.ClaimsAreFirst` | python/detector/misinfo_detector.py:112-121 | No eligible sentence is skipped before the sixth claim, or anywhere when fewer than six were found. |
| `Authorship.Chunks` | python/detector/misinfo_detector.py:91 | The comprehension yields ⌈len / 512⌉ chunks. |
| `Authorship.ChunksUnfold` | python/detector/misinfo_detector.py:91 | A text longer than 512 characters chunks as its first 512 characters followed by the chunks of the rest. |
| `Authorship.ChunksPartition` | python/detector/misinfo_detector.py:91 | The chunks concatenate back to the text. None is empty, each is at most 512 characters, and all but the last are exactly 512. The count is ⌈len / 512⌉. |
| `Authorship.Votes` | python/detector/misinfo_detector.py:93-95 | The reference count behind `IsAiGenerated`: the chunks the classifier labels `LABEL_1`. The contract states only that this is at most the number of chunks. |
| `Authorship.AverageAboveHalf` | python/detector/misinfo_detector.py:97-98 | `avg > 0.5` for `avg = votes / chunks` is equivalent to `2 * votes > chunks`. The average lies in [0, 1]. |
| `Authorship.IsAiGenerated` | python/detector/misinfo_detector.py:90-98 | It fails with division by zero exactly on empty text. Otherwise the score is the fraction of `LABEL_1` chunks and lies in [0, 1]. The text is judged AI-written exactly when more than half of the chunks are labelled `LABEL_1`. |
| `Evidence.DecideVerdict` | python/detector/misinfo_detector.py:135-146 | The priority chain in closed form: no results gives `No evidence found`; two or more challenges give `Likely False/Misleading`; otherwise two or more supports give `Likely True`; a lone result leans its way; one of each is `Inconclusive`. Each verdict holds if and only if its condition does, so the table is total and unambiguous. |
| `Evidence.DisplayClaim` | python/detector/misinfo_detector.py:149 | A claim of at most 200 characters is shown unchanged. A longer one is cut to its first 200 characters followed by `...`, 203 in all. The result is never longer than 203. |
| `Evidence.FactCheckClaim` | python/detector/misinfo_detector.py:124-155 | The check fails exactly when a search raised. Otherwise the counts are the lengths of the full result lists. Each links field is the prefix of its list of length `min(count, 3)`. The verdict follows the table from the counts, and the claim is its display copy. |
| `Evidence.NoCapitalF` | python/detector/misinfo_detector.py:189 | A verdict string without a capital `F` does not contain `False`. |
| `Evidence.VerdictTextsFalse` | python/detector/misinfo_detector.py:189 | Of the verdict strings other than `Leans False`, only `Likely False/Misleading` contains `False`. |
| `Evidence.FalseFlagVerdicts` | python/detector/misinfo_detector.py:189 | The false-flag test holds exactly for `Likely False/Misleading` and `Leans False`. |
| `Pipeline.OverallVerdict` | python/detector/misinfo_detector.py:194-201 | The chain in closed form: AI-likely with at least one flag gives AI Misinfo Likely; human-looking with two or more flags gives Potential Misinfo; AI-likely with no flags gives Likely AI (Claims OK); human-looking with at most one flag gives Appears Legit. |
| `Pipeline.FalseVerdicts` | python/detector/misinfo_detector.py:185-189 | The reference count behind `CheckClaims` and `DetectMisinfo`: the checks whose verdict is `Likely False/Misleading` or `Leans False`. The contract states only that this is at most the number of checks. |
| `Pipeline.FalseVerdictsSnoc` | python/detector/misinfo_detector.py:189 | Each check adds one to the count exactly when the source's string test flags its verdict. |
| `Pipeline.CheckClaims` | python/detector/misinfo_detector.py:185-192 | The loop aborts exactly when some claim's search raised. Otherwise it appends one check per claim, in claim order, and counts exactly the `Likely False/Misleading` and `Leans False` verdicts. |
| `Pipeline.DetectMisinfo` | python/detector/misinfo_detector.py:158-204 | Content starting with `Error` is skipped and nothing else runs. Empty content fails with division by zero. Otherwise the run fails exactly when a claim's search raised. A completed report keeps the URL and timestamp, holds the vote's score and verdict, has one check per extracted claim (at most six, in order), and takes its overall verdict from the vote and the number of false verdicts. |

## Left out

- Fetching (`fetch_content`, python/detector/misinfo_detector.py:29-85) is HTTP, retries, BeautifulSoup and boilerplate-stripping regexes, all network I/O and library behaviour. Its result is the `content` parameter, which may start with `Error`. Its use of `max_text_len` belongs to it.
- The transformers classifier (python/detector/misinfo_detector.py:88, 94) is a foreign model and is taken as a deterministic function from a chunk to its label. An exception from `detector(chunk)[0]` at line 94 is not modelled. In the source it would propagate out of `detect_misinfo`.
- A search result without an `href` key would raise `KeyError` at python/detector/misinfo_detector.py:129-130. Results are modelled as their `href`s only, so this exception is not modelled.
- DuckDuckGo search (python/detector/misinfo_detector.py:125-127) is a network call and becomes the `search` parameter. The search is taken as a deterministic function of the query and `max_results`, so a sentence that appears twice gets the same reply both times, whereas a live search may answer the repeated queries differently (for example when rate-limited). Each result is reduced to its `href`. The `with DDGS()` session is not modelled.
- Printing and logging (python/detector/misinfo_detector.py:159, 162-163, 166, 169, 172, 191-192, 204) are output with no decision logic. `datetime.now()` is replaced by the `timestamp` parameter.
- Writing the JSON report file (python/detector/misinfo_detector.py:206-217) is file I/O. Its exceptions (a directory that cannot be created, a file that cannot be opened) are not modelled. The `argparse` and `__main__` block (python/detector/misinfo_detector.py:219-226) is command-line handling.
- The four overall verdict strings at python/detector/misinfo_detector.py:195, 197, 199, 201 appear in the source file as UTF-8 bytes decoded as Windows-1254 (for example `ğŸš¨` before `AI Misinfo Likely`). `Overall.Text()` uses the emoji those bytes encode (U+1F6A8, U+26A0 U+FE0F, U+1F916, U+2705), not the mis-decoded characters.
- The `config` and `note` entries of the report dictionary (python/detector/misinfo_detector.py:181-182) are constants and are not part of `Report`.
- python/app.py is not part of this model. It is HTTP routing around `detect_misinfo`.
- Floating point is not modelled. The score is the exact rational `votes / chunks`. `caps_ratio < 0.7` is compared on integers as `10 * caps < 7 * max(n, 1)` (`FewCapitals`), and `CapsRatioBelow` and `FewCapitalsRatio` prove this equal to the exact-ratio test. `avg_score > 0.5` is compared on the exact rational, and `AverageAboveHalf` proves it equal to `2 * votes > chunks`. Float rounding could differ from exact arithmetic only where a ratio lies within rounding distance of 0.7 or 0.5.
- Unicode is not modelled. `\s`, `isspace`, `strip` and `split` recognise ASCII whitespace only: space, tab to carriage return, and 0x1C to 0x1F. `\w` is ASCII letters, digits and underscore. `isupper` and `lower` act on ASCII letters only. Python applies Unicode properties to other characters.
- Strings are sequences of characters. `len` and slicing count characters, as Python does for `str`.
