# formD — a verified model of the Form D firm lookup

formD is a small web application for looking up venture capital firms through
their SEC Form D filings. A firm is found in one of two places:

- a curated table of VC firms (`data/vc_firms.py`), which is generated from an
  OpenVC export by `scripts/import_vcs.py`;
- the EDGAR full-text search.

For a firm's CIK, the EDGAR client (`services/edgar.py`) does three things:

- fetches the firm's submissions index;
- downloads its Form D documents;
- parses each one into a filing record.

From those filings, `services/metrics.py` derives fund metrics: fund size,
LP count, fund age, deployment status, and an estimated check-size range.

Two further services feed the firm page:

- `services/rss.py` collects press releases that mention the firm;
- `services/s1_mining.py` finds S-1 registration statements that name the firm,
  and ownership mentions inside them.

The Flask handlers in `app.py` tie all of this together: a search dropdown, a
paginated search page, and a firm profile.

This project restates that core in Dafny and proves what the code promises.

**Modules.** Each Python module becomes one Dafny module:
`Edgar`, `Metrics`, `Curated`, `S1Mining`, `Rss`, `ImportVcs` and `App`.
Python built-ins they rely on are defined once, in shared modules:

- `Strings` — whitespace as `str.strip`/`str.split` define it, `lower`,
  `in`, `replace`, `lstrip`, lexicographic order;
- `Numbers` — `int(...)` and `int(float(...))` on text;
- `Sorting` — the stable `list.sort` as a function on sequences, and slicing
  with negative bounds;
- `Lists` — list comprehensions;
- `Dedup` — the "seen set" loop that keeps the first item of each key;
- `Options`.

**What stays imperative.** Code that works step by step stays imperative:

- the rate limiter is a class whose `Acquire` updates the time of the last
  request;
- every loop is a method with a loop invariant. Its `ensures` ties the result
  to a prefix-recursive specification function, and lemmas prove what the
  code promises about that function.

**External effects become parameters.** HTTP responses, parsed XML, feeds, the
clock, `str.title` and `dateutil` are all inputs. A failed request is an
`Option` or a `Fetched` value.

## Model

| member | source | states |
|---|---|---|
| `Edgar.Delay` | services/edgar.py:16-23 | the wait is never negative; after it, at least 1/10 s has passed since the last request; it is zero unless it makes the gap exactly 1/10 s |
| `Edgar.RateLimiter.constructor` | services/edgar.py:13 | a new limiter has no request times recorded and its last request time is 0 |
| `Edgar.RateLimiter.Acquire` | services/edgar.py:16-23 | sleeps `Delay(now - last)` and records the time after the sleep; when the clock has advanced by the sleep, the recorded request times stay at least 1/10 s apart |
| `Edgar.NameVariations` | services/edgar.py:75-96 | one to three variations, the first one the query itself |
| `Edgar.Swap` | services/edgar.py:85-89 | one swapped variation exactly when "capital" or "ventures" occurs; "capital" is replaced by "ventures" first, otherwise "ventures" by "capital" |
| `Edgar.NameVariationsCount` | services/edgar.py:75-96 | the number of variations is 1, plus 1 for a capital/ventures swap, plus 1 when the query has more than one word |
| `Edgar.NameVariationsSwap` | services/edgar.py:85-89 | the second variation is the title-cased swap of capital→ventures, or, without "capital", of ventures→capital |
| `Edgar.NameVariationsFirstWord` | services/edgar.py:91-94 | for a query of several words, the last variation is its first word: non-empty, free of whitespace, and occurring in the query |
| `Edgar.FormDCount` | services/edgar.py:57-63 | the count of Form D entries is at most the number of entries, and zero exactly when no entry is a Form D |
| `Edgar.LatestDateIsMaximum` | services/edgar.py:57-63 | the latest date is empty or the filing date of some Form D entry, and no Form D entry has a later date in string order |
| `Edgar.FormDStep` | services/edgar.py:57-63 | one more index entry adds 1 to the count exactly when it is a Form D, and replaces the latest date exactly when its date is later |
| `Edgar.CompanyInfo` | services/edgar.py:43-72 | no summary when the submissions request fails; otherwise the CIK without leading zeros, the name or "Unknown", the latest Form D date and the Form D count |
| `Edgar.QueryWords` | services/edgar.py:155 | one query word per whitespace-separated word of the query, each the lower-cased word in the same position |
| `Edgar.StepOk` | services/edgar.py:159-194 | examining one CIK keeps the search invariant: each result has Form D filings, none before 2016, and a name holding a query word and a fund term; names pairwise distinct; at most the cap; the seen names are the results' names |
| `Edgar.ScanAllOk` | services/edgar.py:153-194 | the search loop establishes that invariant for any sequence of CIKs |
| `Edgar.ScanAllFromLookups` | services/edgar.py:153-194 | every result is the company information fetched for one of the examined CIKs |
| `Edgar.ScanAllStopped` | services/edgar.py:193-194 | once the loop has broken off, the remaining CIKs change nothing |
| `Edgar.NewerFirstIsPreorder` | services/edgar.py:197 | ordering by latest filing date, newest first, is a total preorder |
| `Edgar.ExamineCik` | services/edgar.py:159-194 | one loop iteration updates results, seen names and the stop flag exactly as the specification step does |
| `Edgar.ScanCiks` | services/edgar.py:153-194 | the loop computes the specification's results for the examined CIKs |
| `Edgar.SearchFirms` | services/edgar.py:99-198 | the search returns the eligible, name-distinct results of the first `5 * max_results` CIKs, sorted newest first |
| `Edgar.SearchFirmsResults` | services/edgar.py:153-198 | at most `5 * max_results` CIKs are examined; every result is eligible and fetched for an examined CIK; names are pairwise distinct; at most `max_results` results (one when the cap is not positive) |
| `Edgar.SearchFirmsOrder` | services/edgar.py:197 | the results are sorted newest first, and the sort is stable: results with equal dates keep their order |
| `Edgar.ParseInt` | services/edgar.py:220-227 | missing or empty text gives None; text that `int(float(...))` reads gives a number |
| `Edgar.ParseIntReads` | services/edgar.py:220-227 | for non-empty text that `int(float(...))` reads, the result is that value |
| `Edgar.ParseIntRejects` | services/edgar.py:220-227 | non-empty text that is not a float literal gives None |
| `Edgar.ParseIntDigits` | services/edgar.py:220-227 | a string of decimal digits gives its value |
| `Edgar.ParseIntTruncates` | services/edgar.py:220-227 | `digits.fraction` gives the integer part, so the fraction is dropped |
| `Edgar.ParseIntDecimal` | services/edgar.py:220-227 | reading back the decimal text of a natural number gives the number |
| `Edgar.FindText` | services/edgar.py:271-273 | an element with text gives its stripped text; a missing element or empty text gives None |
| `Edgar.ParseDate` | services/edgar.py:230-238 | missing or empty text gives no date |
| `Edgar.SignatureDate` | services/edgar.py:306-307 | the parsed signature date, or today when there is no signature date |
| `Edgar.NonEmptyExactly` | services/edgar.py:283-288 | the relationships kept are exactly the non-empty relationship texts |
| `Edgar.KeptPersonsExactly` | services/edgar.py:276-296 | a person is kept exactly when their block has a name element whose full name is listed (not empty, not "N/A", not starting with "N/A "), with their non-empty relationships |
| `Edgar.RelatedPersons` | services/edgar.py:276-296 | the loop returns exactly the kept persons, in document order |
| `Edgar.FetchFiling` | services/edgar.py:241-325 | None exactly when the document could not be fetched or parsed; otherwise every field as the document gives it: issuer name or "Unknown", amendment flag, signature date or today, amounts via `_parse_int`, dates via `_parse_date`, and the kept persons |
| `Edgar.ParsedGrows` | services/edgar.py:351-364 | scanning more index entries only appends parsed filings |
| `Edgar.ParsedFromFormD` | services/edgar.py:351-364 | every parsed filing was fetched for a Form D entry with a non-empty accession number |
| `Edgar.NewestFirstIsPreorder` | services/edgar.py:366 | ordering filings by filing date, newest first, is a total preorder |
| `Edgar.CapReached` | services/edgar.py:354-355 | once 20 filings have been parsed, stopping gives the same list as taking the first 20 of all of them |
| `Edgar.FetchEntry` | services/edgar.py:357-364 | an index entry appends its fetched filing exactly when it is a Form D with an accession number and the fetch succeeds |
| `Edgar.CollectFormDs` | services/edgar.py:351-364 | the loop returns the first 20 filings parsed in index order |
| `Edgar.FilingsForCik` | services/edgar.py:328-367 | no filings when the index request fails; otherwise the first 20 parsed Form D filings, sorted newest first; a lone filing is returned whether or not it carries a date |
| `Edgar.FilingsForCikResults` | services/edgar.py:328-367 | at most 20 filings, each fetched for a Form D entry of the index, sorted newest first and stably |
| `Metrics.Present` | services/metrics.py:44 | keeps exactly the values that are present |
| `Metrics.Truthy` | services/metrics.py:69 | keeps exactly the values that are present and non-zero |
| `Metrics.CalculateMetrics` | services/metrics.py:27-101 | all zeros and "unknown" for no filings; otherwise fund size, LP count, first close, fund age, status, filing count and days since the last filing as defined, and a check range and confidence that are the check-size estimate of that fund size, the largest non-zero minimum investment, that LP count, that fund age and the deployed share, so low ≤ mid ≤ high and the confidence is never "high" |
| `Metrics.TargetSizeIsLargestOffering` | services/metrics.py:73-74 | the target size is at least every filing's offering amount (a missing one counting as 0) and equals one of them |
| `Metrics.PctDeployedIsShareOfTarget` | services/metrics.py:74-75 | with a positive target size the deployed share times the target is the fund size; otherwise the share is 0 |
| `Metrics.FundSizeIsLargestAmount` | services/metrics.py:36-37 | fund size is the largest of the amounts (amount sold, else offering amount, else 0), and one filing has it |
| `Metrics.LpCountIsLargest` | services/metrics.py:40-41 | LP count is the largest investor count, a missing count read as 0, and one filing has it |
| `Metrics.EarliestIsMinimum` | services/metrics.py:44-45 | the earliest date of a field is None exactly when no filing has one; otherwise some filing has it and none is earlier |
| `Metrics.FirstCloseIsEarliest` | services/metrics.py:44-45 | the first close is the earliest date of first sale, or None when no filing has one |
| `Metrics.FundAgeFromFirstClose` | services/metrics.py:50-58 | fund age is the number of 30-day months since the first close, else since the earliest filing date, else 0 |
| `Metrics.MinInvestmentIsLargest` | services/metrics.py:69-70 | the minimum investment is 0 exactly when no filing has a non-zero one; otherwise it is the largest non-zero one |
| `Metrics.TierOf` | services/metrics.py:126-140 | every tier's portfolio range lies within 10..50, and its reserve within 0.25..0.55 |
| `Metrics.Adjust` | services/metrics.py:147-177 | the signals lower the reserve by at most 0.05; at most three signals fire; at least one fires exactly when one of the three signal conditions holds |
| `Metrics.Clamp` | services/metrics.py:180 | the result lies within the tier range, and a value already inside the range is unchanged |
| `Metrics.Deployable` | services/metrics.py:182 | the deployable capital is never negative |
| `Metrics.CheckRange` | services/metrics.py:185-187 | low ≤ mid ≤ high; mid is deployable / portfolio rounded down |
| `Metrics.EstimateCheckSize` | services/metrics.py:104-191 | a fund below $1M gives (0, 0, 0, low); otherwise low ≤ mid ≤ high, and the confidence is "medium" exactly when some signal fired |
| `Metrics.PortfolioWithinTier` | services/metrics.py:143-180 | the portfolio size used lies within the tier's range |
| `Metrics.MidIsDeployableOverPortfolio` | services/metrics.py:182-185 | the mid estimate is the deployable capital over the portfolio size, rounded down |
| `Metrics.TwentyMillionNoSignals` | services/metrics.py:104-191 | a $20M fund without signals is estimated at (281250, 375000, 506250, low) |
| `Metrics.MidMonotoneWithinTier` | services/metrics.py:126-185 | without signals and within one tier, a larger fund never gets a smaller mid estimate |
| `Metrics.MidNotMonotoneAcrossTiers` | services/metrics.py:126-185 | across the 25M tier boundary, the mid estimate drops from 468749 to 461538 |
| `S1Mining.CompanyNameUntagged` | services/s1_mining.py:79 | the company name holds no "(CIK" and has no surrounding whitespace |
| `S1Mining.CikOf` | services/s1_mining.py:80-81 | the CIK is empty or has no leading zero |
| `S1Mining.S1Results` | services/s1_mining.py:38-112 | a failed or non-200 search gives no hits; there are never more hits than the limit (at least one) |
| `S1Mining.VisitHit` | services/s1_mining.py:66-103 | a hit is appended exactly when it is a main S-1 document of a company not seen before |
| `S1Mining.QuotaReached` | services/s1_mining.py:105-106 | breaking at the limit gives the same list as taking the first `limit` of all kept hits |
| `S1Mining.SearchS1Mentions` | services/s1_mining.py:38-112 | the loop returns exactly the specification's hits |
| `S1Mining.S1ResultsAreFirstOccurrences` | services/s1_mining.py:66-106 | the hits are the first main-document hit of each company, in order, up to the limit |
| `S1Mining.S1ResultsFromMainDocuments` | services/s1_mining.py:70-77 | every hit comes from an S-1 or S-1/A document that has a display name |
| `S1Mining.S1ResultsDistinctCompanies` | services/s1_mining.py:84-86 | no two hits name the same company |
| `S1Mining.S1ResultsComplete` | services/s1_mining.py:66-106 | below the limit, every company with a main document is among the hits |
| `S1Mining.S1ResultsNonEmpty` | services/s1_mining.py:66-106 | one main document is enough for a non-empty result |
| `S1Mining.S1HitFields` | services/s1_mining.py:79-103 | the document URL is the archive path of the CIK, the accession without dashes, and the part of the id after its last colon |
| `S1Mining.MentionsLayout` | services/s1_mining.py:136-147 | at most five share mentions followed by at most three percentage mentions, each suffixed as the page shows it |
| `S1Mining.OwnershipMentions` | services/s1_mining.py:115-153 | a failed or non-200 page gives no mentions |
| `S1Mining.ExtractOwnershipMentions` | services/s1_mining.py:115-153 | the loops return exactly the specification's mentions |
| `S1Mining.ExitsFor` | services/s1_mining.py:163-181 | one exit per hit, in hit order, each built from that hit's page |
| `S1Mining.GetPortfolioExits` | services/s1_mining.py:156-181 | one exit per S-1 hit of the search, in order |
| `Rss.ReleasesAt` | services/rss.py:24-36 | each release carries the feed's source and the entry's title, link and summary, or "" when missing; its date is the published date, or now |
| `Rss.FetchFeed` | services/rss.py:19-38 | the loop returns one release per feed entry, in feed order |
| `Rss.CollectedAppend` | services/rss.py:45-51 | collecting from two lists of feeds gives the concatenation of both collections |
| `Rss.RaisingFeedSkipped` | services/rss.py:46-51 | a feed that raises contributes nothing, and the feeds around it are still collected |
| `Rss.CollectedExactly` | services/rss.py:45-51 | a release is collected exactly when it comes from an entry of a readable feed |
| `Rss.LaterFirstIsPreorder` | services/rss.py:59 | ordering by publication time, latest first, is a total preorder |
| `Rss.SearchReleases` | services/rss.py:41-60 | the loop and sort return exactly the specification's matched releases |
| `Rss.MatchedExactly` | services/rss.py:53-57 | a release is returned exactly when it was collected and its title or summary contains the lower-cased firm name |
| `Rss.MatchedNewestFirst` | services/rss.py:59 | the matches are in non-increasing publication order, form a permutation of the mentioning releases, and keep their order among equal times |
| `Curated.ShorterFirstIsPreorder` | data/vc_firms.py:676 | ordering by name length, then by name, is a total preorder |
| `Curated.MatchFirm` | data/vc_firms.py:662-669 | a firm matches exactly when the query occurs in its lower-cased name or in one of its lower-cased aliases |
| `Curated.SearchCuratedVcs` | data/vc_firms.py:641-678 | the search returns exactly the specification's matches |
| `Curated.SelectedResults` | data/vc_firms.py:653-673 | every match is a matching table entry; no two share a normalised name; each is the first matching entry with its normalised name |
| `Curated.SelectedComplete` | data/vc_firms.py:653-673 | every matching entry's normalised name is represented among the matches |
| `Curated.RankedKeeps` | data/vc_firms.py:676-677 | ranking keeps only collected firms, sorts them shorter name first, keeps at most `limit`, and preserves distinct names |
| `Curated.RankedAll` | data/vc_firms.py:676-677 | with a limit no smaller than the number found, ranking keeps every firm |
| `Curated.CuratedByCik` | data/vc_firms.py:680-686 | the first entry whose CIK equals the query after stripping leading zeros, or None exactly when no entry has it |
| `Curated.CuratedByName` | data/vc_firms.py:689-698 | the first entry whose name or alias equals the query, ignoring case, or None exactly when none does |
| `Curated.AliasNamed` | data/vc_firms.py:695-697 | true exactly when some alias equals the name, ignoring case |
| `Curated.CikLookupFirstWins` | data/vc_firms.py:332 | for a CIK listed twice in the table, the earlier entry is returned |
| `Curated.EmptyCikMatchesEmptyEntry` | data/vc_firms.py:680-686 | an empty or all-zero CIK matches the first table entry with an empty CIK |
| `Curated.NameLookupByAlias` | data/vc_firms.py:689-698 | an alias finds its entry regardless of case |
| `Curated.LaterDuplicateDropped` | data/vc_firms.py:655-657 | a later entry whose normalised name was already matched is not returned |
| `ImportVcs.ParseMoneyPlain` | scripts/import_vcs.py:32-40 | text without "$" or "," is read as a stripped integer literal, else 0 |
| `ImportVcs.ParseMoneyDigits` | scripts/import_vcs.py:32-40 | a digit string gives its value |
| `ImportVcs.ParseMoneyDollars` | scripts/import_vcs.py:32-40 | "$" followed by digits gives their value |
| `ImportVcs.ParseMoneyRoundTrip` | scripts/import_vcs.py:32-40 | "$" and the decimal text of a natural number read back as that number |
| `ImportVcs.ParseMoneyUnreadable` | scripts/import_vcs.py:37-40 | text that does not begin with a sign or a digit gives 0 |
| `ImportVcs.ProcessCsv` | scripts/import_vcs.py:43-80 | an empty file has no header and gives no list; otherwise the rows after the header become exactly the specification's candidates |
| `ImportVcs.RowCandidateWellFormed` | scripts/import_vcs.py:55-78 | a kept row has a non-empty stripped name, and a website that is empty or begins with "http" |
| `ImportVcs.CandidatesExactly` | scripts/import_vcs.py:51-78 | every candidate comes from a row, and every row with seven columns, a name and an included type is kept |
| `ImportVcs.CandidatesWellFormed` | scripts/import_vcs.py:51-78 | every candidate is well formed |
| `ImportVcs.AngelNetworkKept` | scripts/import_vcs.py:13-29 | "angel network" is both excluded and included, so it is kept |
| `ImportVcs.LowerNameFirstIsPreorder` | scripts/import_vcs.py:87 | ordering by lower-cased name is a total preorder |
| `ImportVcs.Aliases` | scripts/import_vcs.py:102-113 | at most three aliases |
| `ImportVcs.AliasesShape` | scripts/import_vcs.py:102-113 | every alias is lower case and has no surrounding whitespace |
| `ImportVcs.GeneratePythonFile` | scripts/import_vcs.py:83-121 | the entries written are one per candidate, in order, with the candidate's aliases and website and its name under the corrected quoting (see Findings) |
| `ImportVcs.EntriesLoop` | scripts/import_vcs.py:97-121 | the loop writes one entry per candidate, in order, with the name under the corrected quoting (see Findings) |
| `ImportVcs.EntriesSorted` | scripts/import_vcs.py:87-121 | the candidates are written as a stable permutation sorted by lower-cased name, one entry each |
| `ImportVcs.QuoteNameRoundTrip` | scripts/import_vcs.py:98 | a name quoted with backslashes and quotes escaped reads back as itself |
| `ImportVcs.EscapeQuotesOnPlainNames` | scripts/import_vcs.py:98 | on a name with no backslash, line break or NUL, the script's quote-only escaping and the corrected quoting write the same text |
| `ImportVcs.EscapeQuotesRoundTrip` | scripts/import_vcs.py:98 | on such a name the literal the script writes reads back as the name |
| `ImportVcs.EscapeQuotesBreaksLiteral` | scripts/import_vcs.py:98 | with only quotes escaped, the name `A\` gives an unterminated literal, while the corrected quoting reads back |
| `App.Search` | app.py:27-47 | the handler returns the dropdown built from curated matches (limit 8) or EDGAR results (limit 10) |
| `App.DropdownShape` | app.py:27-47 | a query shorter than 2 gives an empty dropdown; `edgar=1` gives only EDGAR results; otherwise only curated results and the EDGAR option |
| `App.CuratedMatchesBound` | app.py:44 | the curated part of the dropdown never holds more than its limit |
| `App.FirmsFoundBound` | app.py:39 | the EDGAR part of the dropdown never holds more than its cap |
| `App.CikSetExactly` | app.py:66-69 | the curated CIK set holds exactly the non-empty CIKs of the matches |
| `App.CuratedCiks` | app.py:66-69 | the loop builds exactly that set |
| `App.PrioritizeCurated` | app.py:65-74 | the first page puts curated CIKs before the others |
| `App.CuratedFirstStable` | app.py:72-74 | the reordering is a permutation; no curated result follows an uncurated one; both groups keep their order |
| `App.PageOfSlice` | app.py:76-82 | page `p` holds up to ten results starting at `(p-1)*10`; there is a next page exactly when more results remain |
| `App.PagesConsecutive` | app.py:76-79 | two consecutive full pages are two consecutive slices of the results |
| `App.SearchFirmRedirect` | app.py:50-90 | the handler's response is that of the specification for the stripped name and website |
| `App.ResultsPageShape` | app.py:50-90 | an empty name gives the 400 response; a page has `has_prev` exactly when the page is above 1, at most ten results, and, on page 1, curated results first |
| `App.AddPersons` | app.py:139-142 | one filing's persons extend the list with those whose names are new |
| `App.CollectPeople` | app.py:136-142 | the loops collect the first person of each name across all filings |
| `App.PersonsOfExactly` | app.py:138-139 | the persons walked are exactly those listed by some filing |
| `App.PeopleDistinct` | app.py:136-142 | every person comes from a filing; names are distinct; every listed name is represented; the list is the first occurrence of each name |
| `App.WebsitePreference` | app.py:100-106 | the curated website is used when set, else the website parameter, and the parameter is used when the firm is not curated |
| `App.BuildProfile` | app.py:118-185 | the profile shows at most 20 filings, 15 people and 5 press releases, the metrics of the filings, and releases matching the display name |
| `App.FirmProfile` | app.py:93-185 | the handler's response is the profile for the CIK without leading zeros, with the curated entry, filings, metrics and releases as specified |
| `App.ProfileShape` | app.py:93-185 | 404 exactly when there are no filings and no curated entry; otherwise the SEC entity name of the first filing (or the firm name), and bounded prefixes of filings, people and releases |
| `Sorting.SortBySorted` | services/edgar.py:197 | the stable sort used for every `list.sort` returns a sorted list |
| `Sorting.SortByStable` | services/rss.py:59 | the sort keeps the relative order of elements that compare equal |
| `Sorting.SliceNonNegative` | app.py:79 | for non-negative bounds, the slice holds exactly the elements between them |
| `Numbers.FloatToIntTruncates` | services/edgar.py:226 | `int(float(s))` of a decimal with a fraction drops the fraction |
| `Dedup.KeptIsFirstOccurrences` | data/vc_firms.py:653-673 | the "seen set" loop keeps exactly the first accepted item of each key, in order |

## Left out

- HTTP requests, JSON decoding, XML parsing with lxml and feed parsing are not modelled. Their decoded results are inputs: `Option`/`Fetched` values, `Submissions`, `FormDDocument`, `Feed`, `PatternMatches`.
- `requests`, `time.time`, `time.sleep` (including the 0.3 s pause of services/s1_mining.py:179) and `datetime.now` are not modelled. The clock readings are parameters of `Edgar.RateLimiter.Acquire`, `Rss.FetchFeed` and `App.FirmProfile`.
- `search_releases` takes a single `now` for all entries without a date. The code reads the clock once per such entry (services/rss.py:28).
- The rate limiter is modelled for one thread. The code's module-level global is not protected by a lock, and the model does not capture concurrent callers.
- `str.lower` is modelled for ASCII letters only. Python also lower-cases other Unicode letters.
- `str.title` (services/edgar.py:86-89) and `dateutil.parser.parse` (services/edgar.py:230-238) are function parameters. Their results are not modelled.
- Python floats are modelled as exact reals. The metrics' divisions and `int(...)` truncation are exact; rounding of binary floats is not modelled.
- `int()` and `float()` accept only ASCII digits in this model (with single underscores between digits, as Python does). Python also accepts other Unicode decimal digits.
- Edgar.ParseInt: requires text whose `int(float(...))` does not overflow: an infinity such as `inf`, or a finite literal beyond the double range such as `1e400`, makes `int()` raise OverflowError, which `_parse_int` does not catch.
- Edgar.FetchFiling: requires the same of each amount the document carries, for the same reason.
- Edgar.FilingsForCik: requires a filing date on every found filing only when two or more are found. Python's sort raises TypeError when it compares a missing date, which the code does not catch; a lone undated filing is returned as it is.
- Regular-expression matching is not modelled. This covers the CIK searches in `search_firms` (services/edgar.py:113-150) and the share and percentage patterns of the S-1 pages (services/s1_mining.py:136-147); their matches are inputs.
- The CIK collection of `search_firms` (services/edgar.py:113-150) is the `candidates` parameter. The order of the set it builds is unspecified in Python, so the model takes it as given.
- The requests `search_firms` makes per name variation are not modelled. Neither is the printing of the exceptions it catches.
- `int(request.args.get("page", 1))` is not modelled: the page reaches the model as an integer. The ValueError for a non-numeric page is left out, but pages ≤ 0 are modelled, including Python's negative slice bounds.
- Curated entries always have a name in this model. The code reads `firm["name"]` without a default (app.py:125).
- The OSINT links and `quote_plus` (app.py:153-169) are not part of this model.
- The Form ADV lookup (app.py:146-151, services/form_adv.py) is not part of this model.
- The firm-name request of `firm_profile` (app.py:109-116) is the `NameLookup` input. Its failure path is modelled; the HTTP call is not.
- The `portfolio_exits` handler (app.py:188-192) only calls `get_portfolio_exits(name, limit=8)` and renders. `S1Mining.GetPortfolioExits` models that call; the rendering is left out.
- Template rendering is not modelled. Responses are values.
- In-place `list.sort` is modelled by `Sorting.SortBy` on values. Python's sort is stable, and `SortBy` is proved stable, but aliasing of the sorted list is not modelled.
- The generated file's text layout (scripts/import_vcs.py:89-121) and the file I/O of `scripts/import_vcs.py` are not modelled. The model produces the entry values and the name literal.
- `ImportVcs.ReadLiteral` resolves the escapes `\\`, `\"`, `\'`, `\n`, `\r`, `\t` and `\x00`, and rejects a raw NUL (Python source cannot hold one). Any other escape gives None, where Python would keep the backslash.
- ImportVcs.GeneratePythonFile: writes each name with the corrected quoting (`QuoteName`), not the script's quote-only `replace` at scripts/import_vcs.py:98. The two agree on names without a backslash, line break or NUL (`EscapeQuotesOnPlainNames`); the difference is the finding below.
- ImportVcs.EntriesLoop: writes names with the corrected quoting, as `GeneratePythonFile` does.
- `services/cache.py` and `models/*` are not part of this model. Neither is the configuration, apart from the EDGAR rate limit of 10 requests per second.
- `scripts/add_major_vcs.py` is not part of this model.
- The curated table itself is not reproduced. `Curated.Sample` holds five of its entries (data/vc_firms.py lines 140, 332, 366, 538 and 568), used to exhibit its duplicates and its entry with an empty CIK.

## Findings

| source | as written | input that shows it | evidently intended | confidence | as-written member | corrected member |
|---|---|---|---|---|---|---|
| scripts/import_vcs.py:98 | only `"` is escaped before the name is written between double quotes | the name `A\` is written as `"A\"`, whose closing quote is escaped, so the literal does not end | the generated literal reads back as the original name | not executed | `ImportVcs.EscapeQuotesBreaksLiteral` | `ImportVcs.QuoteNameRoundTrip` |

The curated table itself has some notable entries, which the model follows as written:

- Bessemer Venture Partners is listed twice (data/vc_firms.py:140 and 366). The search returns only the first (`Curated.LaterDuplicateDropped`).
- CIK 1536486 is listed twice (data/vc_firms.py:332 and 538). The CIK lookup returns the first (`Curated.CikLookupFirstWins`).
- An entry with an empty CIK (data/vc_firms.py:568) answers a lookup for an empty or all-zero CIK (`Curated.EmptyCikMatchesEmptyEntry`). The lookup in data/vc_firms.py has no guard against an empty CIK, unlike the version that scripts/import_vcs.py:149-155 generates.
