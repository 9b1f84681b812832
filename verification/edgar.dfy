/**
 * The SEC EDGAR client (services/edgar.py) with its network calls taken out.
 *
 * What the client fetches (the submissions index of a filer, the Form D XML
 * of one filing, the company search hits) is passed in as already-decoded
 * values, and the clock readings of the rate limiter are parameters.  What is
 * left is the client's own logic: the rate-limit wait, the search variations
 * of a name, Form D counting, the filter/dedup/cap/sort of a firm search, the
 * field rules of a parsed Form D and the selection of a filer's filings.
 */
module Edgar {
  import opened Options
  import opened Strings
  import opened Sorting
  import opened Numbers

  // ---------------------------------------------------------------------------
  // Rate limiting
  // ---------------------------------------------------------------------------

  /** EDGAR_RATE_LIMIT: the SEC allows ten requests per second. */
  const RateLimit: nat := 10

  /** The least time, in seconds, between two requests. */
  const MinInterval: real := 1.0 / (RateLimit as real)

  /** How long `_rate_limit` sleeps when `elapsed` seconds have passed since the last request. */
  function Delay(elapsed: real): (d: real)
    ensures d >= 0.0
    ensures elapsed + d >= MinInterval
    ensures d == 0.0 || elapsed + d == MinInterval
    ensures elapsed >= 0.0 ==> d <= MinInterval
  {
    if elapsed < MinInterval then MinInterval - elapsed else 0.0
  }

  /** Consecutive request times at least `MinInterval` apart. */
  ghost predicate Spaced(times: seq<real>) {
    forall i :: 0 < i < |times| ==> times[i] - times[i - 1] >= MinInterval
  }

  /** The module-global `_last_request_time` and the calls that update it. */
  class RateLimiter {
    /** When the previous request was let through; 0.0 before the first one. */
    var last: real
    /** Every time recorded in `last`, oldest first. */
    ghost var stamps: seq<real>

    ghost predicate Valid()
      reads this
    {
      if stamps == [] then last == 0.0 else last == stamps[|stamps| - 1]
    }

    constructor()
      ensures Valid() && stamps == [] && last == 0.0
    {
      last := 0.0;
      stamps := [];
    }

    /**
     * One call of `_rate_limit`.  `now` is the clock read before the wait and
     * `later` the clock read after it; the result is the time slept.  With a
     * clock that does not run slow (`later >= now + slept`), the recorded times
     * stay at least `MinInterval` apart.
     */
    method Acquire(now: real, later: real) returns (slept: real)
      requires Valid()
      modifies this
      ensures Valid()
      ensures slept == Delay(now - old(last))
      ensures last == later && stamps == old(stamps) + [later]
      ensures later >= now + slept ==> later - old(last) >= MinInterval
      ensures later >= now + slept && Spaced(old(stamps)) ==> Spaced(stamps)
    {
      var elapsed := now - last;
      slept := 0.0;
      if elapsed < MinInterval {
        slept := MinInterval - elapsed;
      }
      last := later;
      stamps := stamps + [later];
    }
  }

  // ---------------------------------------------------------------------------
  // Name variations
  // ---------------------------------------------------------------------------

  /**
   * `_generate_name_variations(query)`: the query, then a Capital/Ventures swap
   * of its lower-cased form passed through `title` (`str.title`), then its first
   * word when it has several.
   */
  function NameVariations(query: string, title: string -> string): (r: seq<string>)
    ensures 1 <= |r| <= 3 && r[0] == query
  {
    var words := Words(query);
    [query] + Swap(Lower(query), "capital", "ventures", title)
      + (if |words| > 1 then [words[0]] else [])
  }

  /** At most one variation: `a` replaced by `b` when `a` occurs, else `b` by `a`. */
  function Swap(lower: string, a: string, b: string, title: string -> string): (r: seq<string>)
    requires |a| > 0 && |b| > 0
    ensures |r| == (if Contains(lower, a) || Contains(lower, b) then 1 else 0)
    ensures Contains(lower, a) ==> r == [title(Replace(lower, a, b))]
    ensures !Contains(lower, a) && Contains(lower, b) ==> r == [title(Replace(lower, b, a))]
  {
    if Contains(lower, a) then [title(Replace(lower, a, b))]
    else if Contains(lower, b) then [title(Replace(lower, b, a))]
    else []
  }

  /**
   * There is one variation for the query itself, one more when its lower-cased
   * form mentions "capital" or "ventures", and one more when it has several
   * words.
   */
  lemma NameVariationsCount(query: string, title: string -> string)
    ensures var lower := Lower(query);
            |NameVariations(query, title)| ==
              1 + (if Contains(lower, "capital") || Contains(lower, "ventures") then 1 else 0)
                + (if |Words(query)| > 1 then 1 else 0)
  {
    var words := Words(query);
    var swapped := Swap(Lower(query), "capital", "ventures", title);
    assert NameVariations(query, title) == [query] + swapped + (if |words| > 1 then [words[0]] else []);
  }

  /**
   * The swap is tried for "capital" first and for "ventures" only when "capital"
   * is absent, and it sits right after the query.
   */
  lemma NameVariationsSwap(query: string, title: string -> string)
    ensures var r := NameVariations(query, title);
            var lower := Lower(query);
            Contains(lower, "capital") ==>
              |r| >= 2 && r[1] == title(Replace(lower, "capital", "ventures"))
    ensures var r := NameVariations(query, title);
            var lower := Lower(query);
            !Contains(lower, "capital") && Contains(lower, "ventures") ==>
              |r| >= 2 && r[1] == title(Replace(lower, "ventures", "capital"))
  {
    var words := Words(query);
    var swapped := Swap(Lower(query), "capital", "ventures", title);
    var r := NameVariations(query, title);
    assert r == [query] + swapped + (if |words| > 1 then [words[0]] else []);
    if |swapped| == 1 {
      assert r[1] == swapped[0];
    }
  }

  /**
   * When the query has several words the last variation is its first word, a
   * non-empty blank-free piece of the query.
   */
  lemma NameVariationsFirstWord(query: string, title: string -> string)
    ensures |Words(query)| > 1 ==>
              var r := NameVariations(query, title);
              var w := r[|r| - 1];
              w == Words(query)[0] && |w| > 0 && NoSpace(w) && Contains(query, w)
  {
    var words := Words(query);
    var tail := if |words| > 1 then [words[0]] else [];
    var r := NameVariations(query, title);
    assert r == [query] + Swap(Lower(query), "capital", "ventures", title) + tail;
    assert r[|r| - |tail|..] == tail;
    if |words| > 1 {
      FirstWordOccurs(query);
    }
  }

  // ---------------------------------------------------------------------------
  // Company info
  // ---------------------------------------------------------------------------

  /** The parts of a filer's submissions index the client reads. */
  datatype Submissions = Submissions(
    name: Option<string>,
    forms: seq<string>,
    filingDates: seq<string>,
    accessions: seq<string>)

  /** A Form D or its amendment. */
  predicate IsFormD(form: string) {
    form == "D" || form == "D/A"
  }

  /** How many entries of `forms` are Form D filings. */
  function FormDCount(forms: seq<string>): (n: nat)
    ensures n <= |forms|
    ensures n == 0 <==> forall i :: 0 <= i < |forms| ==> !IsFormD(forms[i])
  {
    if forms == [] then 0
    else FormDCount(forms[..|forms| - 1]) + (if IsFormD(forms[|forms| - 1]) then 1 else 0)
  }

  /**
   * The latest filing date among the Form D entries of `forms` that have one,
   * or "" when there is none; a later entry replaces the running latest only
   * when it compares strictly greater.
   */
  function LatestDate(forms: seq<string>, dates: seq<string>): string {
    if forms == [] then ""
    else
      var prev := LatestDate(forms[..|forms| - 1], dates);
      var i := |forms| - 1;
      if IsFormD(forms[i]) && i < |dates| && LexLess(prev, dates[i]) then dates[i] else prev
  }

  /** The latest date is "" or one of the Form D dates, and no Form D date is later. */
  lemma {:induction false} LatestDateIsMaximum(forms: seq<string>, dates: seq<string>)
    ensures var d := LatestDate(forms, dates);
            && (d == "" || exists i :: 0 <= i < |forms| && i < |dates| && IsFormD(forms[i]) && dates[i] == d)
            && forall i :: 0 <= i < |forms| && i < |dates| && IsFormD(forms[i]) ==> LexLe(dates[i], d)
  {
    if forms != [] {
      var init := forms[..|forms| - 1];
      var last := |forms| - 1;
      LatestDateIsMaximum(init, dates);
      var prev := LatestDate(init, dates);
      var d := LatestDate(forms, dates);
      forall i | 0 <= i < |forms| && i < |dates| && IsFormD(forms[i]) ensures LexLe(dates[i], d) {
        if i < last {
          assert init[i] == forms[i];
          LexLeTotalOrder(dates[i], prev, d);
          LexLeTotalOrder(prev, d, d);
          if d != prev {
            LexLeTotalOrder(dates[i], prev, d);
          }
        } else {
          LexLeTotalOrder(dates[i], prev, prev);
        }
      }
      if d != "" && d == prev && prev != "" {
        var i :| 0 <= i < |init| && i < |dates| && IsFormD(init[i]) && dates[i] == prev;
        assert forms[i] == init[i];
      }
    }
  }

  /** One more entry of `forms` adds to the count and may raise the latest date. */
  lemma FormDStep(forms: seq<string>, dates: seq<string>, i: nat)
    requires i < |forms|
    ensures FormDCount(forms[..i + 1]) ==
              FormDCount(forms[..i]) + if IsFormD(forms[i]) then 1 else 0
    ensures LatestDate(forms[..i + 1], dates) ==
              var prev := LatestDate(forms[..i], dates);
              if IsFormD(forms[i]) && i < |dates| && LexLess(prev, dates[i]) then dates[i] else prev
  {
    assert forms[..i + 1][..i] == forms[..i];
  }

  /** What the search keeps of a filer: the fields of a FirmSearchResult. */
  datatype FirmSummary = FirmSummary(cik: string, name: string, recentFiling: string, filingCount: nat)

  /**
   * The counting part of `_get_company_info`: `data` is the decoded submissions
   * index, `None` when the fetch or the decoding failed.
   */
  method CompanyInfo(cik: string, data: Option<Submissions>) returns (info: Option<FirmSummary>)
    ensures data.None? ==> info.None?
    ensures data.Some? ==> info == Some(FirmSummary(
      LStripChar(cik, '0'),
      data.value.name.GetOr("Unknown"),
      LatestDate(data.value.forms, data.value.filingDates),
      FormDCount(data.value.forms)))
  {
    if data.None? {
      return None;
    }
    var forms := data.value.forms;
    var dates := data.value.filingDates;
    var count := 0;
    var latest := "";
    for i := 0 to |forms|
      invariant count == FormDCount(forms[..i])
      invariant latest == LatestDate(forms[..i], dates)
    {
      FormDStep(forms, dates, i);
      if IsFormD(forms[i]) {
        count := count + 1;
        if i < |dates| && LexLess(latest, dates[i]) {
          latest := dates[i];
        }
      }
    }
    assert forms[..|forms|] == forms;
    info := Some(FirmSummary(LStripChar(cik, '0'), data.value.name.GetOr("Unknown"), latest, count));
  }

  // ---------------------------------------------------------------------------
  // Firm search
  // ---------------------------------------------------------------------------

  /** The first filing year the search shows, as the ISO date it compares against. */
  const MinDate: string := "2016-01-01"

  /** A name that contains one of these looks like a fund. */
  const FundTerms: seq<string> :=
    ["venture", "capital", "partners", "fund", "l.p.", "lp", "management", "investors", "holdings", "equity"]

  /** Python's `any(t in s for t in terms)`. */
  predicate AnyIn(terms: seq<string>, s: string) {
    exists i :: 0 <= i < |terms| && Contains(s, terms[i])
  }

  /** The lower-cased words of the query. */
  function QueryWords(query: string): (r: seq<string>)
    ensures |r| == |Words(query)|
    ensures forall i :: 0 <= i < |r| ==> r[i] == Lower(Words(query)[i])
  {
    var words := Words(query);
    seq(|words|, i requires 0 <= i < |words| => Lower(words[i]))
  }

  /** Filed in 2016 or later, or with no Form D date at all. */
  predicate Recent(f: FirmSummary) {
    f.recentFiling == "" || !LexLess(f.recentFiling, MinDate)
  }

  /** What every search result satisfies. */
  predicate Eligible(f: FirmSummary, words: seq<string>) {
    && f.filingCount > 0
    && Recent(f)
    && AnyIn(words, Lower(f.name))
    && AnyIn(FundTerms, Lower(f.name))
  }

  /** No two results have the same lower-cased name. */
  predicate DistinctNames(a: FirmSummary, b: FirmSummary) {
    Lower(a.name) != Lower(b.name)
  }

  /** The lower-cased names of `results`. */
  function NamesOf(results: seq<FirmSummary>): (names: set<string>)
    ensures forall k :: 0 <= k < |results| ==> Lower(results[k].name) in names
  {
    if results == [] then {}
    else NamesOf(results[..|results| - 1]) + {Lower(results[|results| - 1].name)}
  }

  /** The state of the search loop: `results`, `seen_names`, and whether it stopped at `break`. */
  datatype Scan = Scan(results: seq<FirmSummary>, seen: set<string>, stopped: bool)

  /** One pass of the search loop over the company info fetched for one CIK. */
  function ScanStep(st: Scan, info: Option<FirmSummary>, words: seq<string>, maxResults: int): Scan {
    if st.stopped || info.None? || info.value.filingCount == 0 || !Recent(info.value) then st
    else
      var nameLower := Lower(info.value.name);
      if nameLower in st.seen || !AnyIn(words, nameLower) then st
      else if AnyIn(FundTerms, nameLower) then
        Scan(st.results + [info.value], st.seen + {nameLower}, |st.results| + 1 >= maxResults)
      else Scan(st.results, st.seen, |st.results| >= maxResults)
  }

  /** The search loop run over `ciks`, looking each one up with `lookup`. */
  function ScanAll(ciks: seq<string>, lookup: string -> Option<FirmSummary>, words: seq<string>, maxResults: int): Scan {
    if ciks == [] then Scan([], {}, false)
    else ScanStep(ScanAll(ciks[..|ciks| - 1], lookup, words, maxResults), lookup(ciks[|ciks| - 1]), words, maxResults)
  }

  /** At most `maxResults` results, or one when the cap is below one. */
  function Cap(maxResults: int): nat {
    if maxResults >= 1 then maxResults else 1
  }

  /** What the search loop keeps true. */
  predicate ScanOk(st: Scan, words: seq<string>, maxResults: int) {
    && (forall k :: 0 <= k < |st.results| ==> Eligible(st.results[k], words))
    && Pairwise(st.results, DistinctNames)
    && st.seen == NamesOf(st.results)
    && |st.results| <= Cap(maxResults)
    && (!st.stopped ==> st.results == [] || |st.results| < maxResults)
  }

  lemma StepOk(st: Scan, info: Option<FirmSummary>, words: seq<string>, maxResults: int)
    requires ScanOk(st, words, maxResults)
    ensures ScanOk(ScanStep(st, info, words, maxResults), words, maxResults)
  {
    var next := ScanStep(st, info, words, maxResults);
    if next.results != st.results {
      var x := info.value;
      var r := next.results;
      assert r == st.results + [x];
      assert r[..|r| - 1] == st.results;
      forall i, j | 0 <= i < j < |r| ensures DistinctNames(r[i], r[j]) {
        if j == |r| - 1 {
          assert Lower(r[i].name) in st.seen;
        } else {
          assert r[i] == st.results[i] && r[j] == st.results[j];
        }
      }
    }
  }

  /** Every state the search loop reaches satisfies `ScanOk`. */
  lemma {:induction false} ScanAllOk(ciks: seq<string>, lookup: string -> Option<FirmSummary>, words: seq<string>, maxResults: int)
    ensures ScanOk(ScanAll(ciks, lookup, words, maxResults), words, maxResults)
  {
    if ciks != [] {
      ScanAllOk(ciks[..|ciks| - 1], lookup, words, maxResults);
      StepOk(ScanAll(ciks[..|ciks| - 1], lookup, words, maxResults), lookup(ciks[|ciks| - 1]), words, maxResults);
    }
  }

  /** Every result is the company info of one of the CIKs looked up. */
  lemma {:induction false} ScanAllFromLookups(ciks: seq<string>, lookup: string -> Option<FirmSummary>, words: seq<string>, maxResults: int)
    ensures forall f :: f in ScanAll(ciks, lookup, words, maxResults).results ==>
              exists c :: c in ciks && lookup(c) == Some(f)
  {
    if ciks != [] {
      var init := ciks[..|ciks| - 1];
      ScanAllFromLookups(init, lookup, words, maxResults);
      forall f | f in ScanAll(ciks, lookup, words, maxResults).results
        ensures exists c :: c in ciks && lookup(c) == Some(f)
      {
        if f in ScanAll(init, lookup, words, maxResults).results {
          var c :| c in init && lookup(c) == Some(f);
          assert c in ciks;
        } else {
          assert lookup(ciks[|ciks| - 1]) == Some(f);
        }
      }
    }
  }

  lemma ScanAllNext(ciks: seq<string>, i: nat, lookup: string -> Option<FirmSummary>, words: seq<string>, maxResults: int)
    requires i < |ciks|
    ensures ScanAll(ciks[..i + 1], lookup, words, maxResults)
         == ScanStep(ScanAll(ciks[..i], lookup, words, maxResults), lookup(ciks[i]), words, maxResults)
  {
    assert ciks[..i + 1][..i] == ciks[..i];
  }

  /** Once the loop has stopped, the CIKs after that point change nothing. */
  lemma {:induction false} ScanAllStopped(ciks: seq<string>, n: nat, lookup: string -> Option<FirmSummary>, words: seq<string>, maxResults: int)
    requires n <= |ciks| && ScanAll(ciks[..n], lookup, words, maxResults).stopped
    ensures ScanAll(ciks, lookup, words, maxResults) == ScanAll(ciks[..n], lookup, words, maxResults)
    decreases |ciks| - n
  {
    if n < |ciks| {
      assert ciks[..n + 1][..n] == ciks[..n];
      ScanAllStopped(ciks, n + 1, lookup, words, maxResults);
    } else {
      assert ciks[..n] == ciks;
    }
  }

  /** The search's order: most recent Form D first; equal dates keep their order. */
  predicate NewerFirst(a: FirmSummary, b: FirmSummary) {
    LexLe(b.recentFiling, a.recentFiling)
  }

  lemma NewerFirstIsPreorder()
    ensures TotalPreorder(NewerFirst)
  {
    forall a: FirmSummary, b: FirmSummary ensures NewerFirst(a, b) || NewerFirst(b, a) {
      LexLeTotalOrder(a.recentFiling, b.recentFiling, b.recentFiling);
    }
    forall a: FirmSummary, b: FirmSummary, c: FirmSummary | NewerFirst(a, b) && NewerFirst(b, c)
      ensures NewerFirst(a, c)
    {
      LexLeTotalOrder(c.recentFiling, b.recentFiling, a.recentFiling);
    }
  }

  /** What `search_firms(query, max_results)` returns, given the collected CIKs and the company-info lookup. */
  function FirmsFound(query: string, maxResults: int, candidates: seq<string>, lookup: string -> Option<FirmSummary>): seq<FirmSummary> {
    SortBy(ScanAll(Take(candidates, maxResults * 5), lookup, QueryWords(query), maxResults).results, NewerFirst)
  }

  /**
   * One pass of the search loop over the company info of one CIK: the
   * `continue` checks, the append, and whether the loop breaks.
   */
  method ExamineCik(found: seq<FirmSummary>, seenNames: set<string>, info: Option<FirmSummary>, words: seq<string>, maxResults: int)
    returns (found': seq<FirmSummary>, seenNames': set<string>, stop: bool)
    ensures Scan(found', seenNames', stop) == ScanStep(Scan(found, seenNames, false), info, words, maxResults)
  {
    found', seenNames', stop := found, seenNames, false;
    if info.None? || info.value.filingCount == 0 {
      return;
    }
    var recentDate := info.value.recentFiling;
    if recentDate != "" && LexLess(recentDate, MinDate) {
      return;
    }
    var nameLower := Lower(info.value.name);
    if nameLower in seenNames {
      return;
    }
    if !AnyIn(words, nameLower) {
      return;
    }
    if AnyIn(FundTerms, nameLower) {
      seenNames' := seenNames + {nameLower};
      found' := found + [info.value];
    }
    stop := |found'| >= maxResults;
  }

  /**
   * The filter/dedup/cap/sort part of `search_firms`: `candidates` are the CIKs
   * collected by the searches, in the (unspecified) order of the CIK set, and
   * `lookup` stands for `_get_company_info`.
   */
  method SearchFirms(query: string, maxResults: int, candidates: seq<string>, lookup: string -> Option<FirmSummary>)
    returns (results: seq<FirmSummary>)
    ensures results == FirmsFound(query, maxResults, candidates, lookup)
  {
    var examined := Take(candidates, maxResults * 5);
    var words := QueryWords(query);
    var found := ScanCiks(examined, lookup, words, maxResults);
    results := SortBy(found, NewerFirst);
  }

  /** The search loop of `search_firms` over the examined CIKs, up to its `break`. */
  method ScanCiks(examined: seq<string>, lookup: string -> Option<FirmSummary>, words: seq<string>, maxResults: int)
    returns (found: seq<FirmSummary>)
    ensures found == ScanAll(examined, lookup, words, maxResults).results
  {
    found := [];
    var seenNames: set<string> := {};
    var i := 0;
    while i < |examined|
      invariant 0 <= i <= |examined|
      invariant ScanAll(examined[..i], lookup, words, maxResults) == Scan(found, seenNames, false)
    {
      ScanAllNext(examined, i, lookup, words, maxResults);
      var stop;
      found, seenNames, stop := ExamineCik(found, seenNames, lookup(examined[i]), words, maxResults);
      i := i + 1;
      if stop {
        ScanAllStopped(examined, i, lookup, words, maxResults);
        return;
      }
    }
    assert examined[..i] == examined;
  }

  /**
   * What `search_firms` returns: eligible firms with distinct lower-cased names,
   * each the company info of an examined CIK, at most `max_results` of them
   * (one when the cap is below one).
   */
  lemma SearchFirmsResults(query: string, maxResults: int, candidates: seq<string>, lookup: string -> Option<FirmSummary>)
    ensures var examined := Take(candidates, maxResults * 5);
            var found := ScanAll(examined, lookup, QueryWords(query), maxResults).results;
            var r := SortBy(found, NewerFirst);
            && |examined| <= (if maxResults <= 0 then |candidates| else maxResults * 5)
            && (forall f :: f in r ==> Eligible(f, QueryWords(query)))
            && Pairwise(r, DistinctNames)
            && |r| <= Cap(maxResults)
            && (forall f :: f in r ==> exists c :: c in examined && lookup(c) == Some(f))
  {
    var examined := Take(candidates, maxResults * 5);
    var words := QueryWords(query);
    var found := ScanAll(examined, lookup, words, maxResults).results;
    var r := SortBy(found, NewerFirst);
    ScanAllOk(examined, lookup, words, maxResults);
    ScanAllFromLookups(examined, lookup, words, maxResults);
    SortByPairwise(found, NewerFirst, DistinctNames);
    SortByMembers(found, NewerFirst);
  }

  /** The results of `search_firms` are ordered newest first, firms with the same date in the order they were found. */
  lemma SearchFirmsOrder(query: string, maxResults: int, candidates: seq<string>, lookup: string -> Option<FirmSummary>)
    ensures var found := ScanAll(Take(candidates, maxResults * 5), lookup, QueryWords(query), maxResults).results;
            var r := SortBy(found, NewerFirst);
            && Sorted(r, NewerFirst)
            && (forall z :: SameKey(r, z, NewerFirst) == SameKey(found, z, NewerFirst))
  {
    var found := ScanAll(Take(candidates, maxResults * 5), lookup, QueryWords(query), maxResults).results;
    NewerFirstIsPreorder();
    SortBySorted(found, NewerFirst);
    forall z ensures SameKey(SortBy(found, NewerFirst), z, NewerFirst) == SameKey(found, z, NewerFirst) {
      SortByStable(found, z, NewerFirst);
    }
  }

  // ---------------------------------------------------------------------------
  // Form D fields
  // ---------------------------------------------------------------------------

  /** `int(float(text))` does not overflow (the text is not an infinity or beyond the double range). */
  predicate Finite(text: Option<string>) {
    text.None? || FloatToInt(text.value) != Overflow
  }

  /**
   * `_parse_int(text)`: None for a missing or empty text, the value truncated
   * toward zero for a number, None for anything else.  An infinite value makes
   * Python raise OverflowError, which the client does not catch; the model
   * leaves that input out.
   */
  function ParseInt(text: Option<string>): (r: Option<int>)
    requires Finite(text)
    ensures (text.None? || text.value == "") ==> r.None?
    ensures text.Some? && text.value != "" && FloatToInt(text.value).Value? ==> r.Some?
  {
    if text.None? || text.value == "" then None
    else
      var t := FloatToInt(text.value);
      if t.Value? then Some(t.value) else None
  }

  /** A non-empty text that `float` reads as a finite `v` gives `v`. */
  lemma ParseIntReads(t: string, v: int)
    requires t != [] && FloatToInt(t) == Value(v)
    ensures Finite(Some(t)) && ParseInt(Some(t)) == Some(v)
  {
  }

  /** A non-empty text that `float` rejects gives None rather than an error. */
  lemma ParseIntRejects(t: string)
    requires t != [] && FloatToInt(t) == Invalid
    ensures Finite(Some(t)) && ParseInt(Some(t)) == None
  {
  }

  /** A run of digits worth `n` is read back as `n`. */
  lemma ParseIntDigits(s: string, n: nat)
    requires AllDigits(s) && |s| >= 1 && DigitsValue(s) == n && n < FloatOverflow
    ensures Finite(Some(s)) && ParseInt(Some(s)) == Some(n as int)
  {
    FloatToIntDigits(s);
    ParseIntReads(s, n);
  }

  /** `s.f` is truncated to `s`, e.g. the ".0" that `str(float(n))` appends is dropped. */
  lemma ParseIntTruncates(s: string, f: string)
    requires AllDigits(s) && |s| >= 1 && AllDigits(f) && DigitsValue(s) < FloatOverflow
    ensures Finite(Some(s + "." + f)) && ParseInt(Some(s + "." + f)) == Some(DigitsValue(s) as int)
  {
    FloatToIntTruncates(s, f);
    ParseIntReads(s + "." + f, DigitsValue(s));
  }

  /** What `str(n)` writes for a count or an amount, `_parse_int` reads back. */
  lemma ParseIntDecimal(n: nat)
    requires n < FloatOverflow
    ensures Finite(Some(Decimal(n))) && ParseInt(Some(Decimal(n))) == Some(n as int)
  {
    DecimalRoundTrip(n);
    ParseIntDigits(Decimal(n), n);
  }

  /** `find_text`: the stripped text of an element, None when it is missing or has no text. */
  function FindText(text: Option<string>): (r: Option<string>)
    ensures r.Some? ==> text.Some? && text.value != "" && r.value == Strip(text.value)
    ensures r.None? ==> text.None? || text.value == ""
  {
    if text.Some? && text.value != "" then Some(Strip(text.value)) else None
  }

  /** `_parse_date` of a text, with the date parser as a parameter: None for a missing or empty text. */
  function ParseDate(text: Option<string>, parse: string -> Option<int>): (d: Option<int>)
    ensures (text.None? || text.value == "") ==> d.None?
  {
    if text.None? || text.value == "" then None else parse(text.value)
  }

  /**
   * The filing date of a Form D: its signature date when present, parsed
   * (None when it cannot be parsed); today's date when it is absent.
   */
  function SignatureDate(text: Option<string>, today: int, parse: string -> Option<int>): (d: Option<int>)
    ensures (text.None? || text.value == "") ==> d == Some(today)
    ensures text.Some? && text.value != "" ==> d == parse(text.value)
  {
    if text.Some? && text.value != "" then ParseDate(text, parse) else Some(today)
  }

  /** The name element of a related person. */
  datatype PersonName = PersonName(first: string, last: string)

  /**
   * One `relatedPersonInfo` element: its name element if it has one, and the
   * texts of its relationship elements, "" standing for one without text.
   */
  datatype PersonBlock = PersonBlock(name: Option<PersonName>, relationships: seq<string>)

  datatype RelatedPerson = RelatedPerson(name: string, relationships: seq<string>)

  /** The full name the filing lists: first and last name joined by a blank, stripped. */
  function FullName(n: PersonName): string {
    Strip(n.first + " " + n.last)
  }

  /** A name that stands for a person, not a placeholder for the general partner. */
  predicate Listed(fullName: string) {
    fullName != "" && fullName != "N/A" && !StartsWith(fullName, "N/A ")
  }

  /** The texts that are not empty, in order. */
  function NonEmpty(texts: seq<string>): (r: seq<string>)
    ensures |r| <= |texts|
  {
    if texts == [] then []
    else NonEmpty(texts[..|texts| - 1]) + (if texts[|texts| - 1] != "" then [texts[|texts| - 1]] else [])
  }

  lemma {:induction false} NonEmptyExactly(texts: seq<string>)
    ensures forall t :: t in NonEmpty(texts) <==> t in texts && t != ""
  {
    if texts != [] {
      NonEmptyExactly(texts[..|texts| - 1]);
      assert texts == texts[..|texts| - 1] + [texts[|texts| - 1]];
    }
  }

  /** The related persons a filing lists, one per block with a listed name, in order. */
  function KeptPersons(blocks: seq<PersonBlock>): (r: seq<RelatedPerson>)
    ensures |r| <= |blocks|
  {
    if blocks == [] then []
    else
      var b := blocks[|blocks| - 1];
      var rest := KeptPersons(blocks[..|blocks| - 1]);
      if b.name.Some? && Listed(FullName(b.name.value))
      then rest + [RelatedPerson(FullName(b.name.value), NonEmpty(b.relationships))]
      else rest
  }

  /**
   * A block yields a person exactly when it has a name element whose full name
   * is listed; every person kept has a listed name and only non-empty
   * relationships.
   */
  lemma {:induction false} KeptPersonsExactly(blocks: seq<PersonBlock>)
    ensures forall p :: p in KeptPersons(blocks) <==>
              exists b :: b in blocks && b.name.Some? && Listed(FullName(b.name.value))
                       && p == RelatedPerson(FullName(b.name.value), NonEmpty(b.relationships))
    ensures forall p :: p in KeptPersons(blocks) ==> Listed(p.name) && "" !in p.relationships
  {
    if blocks != [] {
      var init := blocks[..|blocks| - 1];
      var b := blocks[|blocks| - 1];
      KeptPersonsExactly(init);
      assert blocks == init + [b];
      NonEmptyExactly(b.relationships);
    }
  }

  /** The loop of `fetch_filing` that collects related persons. */
  method RelatedPersons(blocks: seq<PersonBlock>) returns (persons: seq<RelatedPerson>)
    ensures persons == KeptPersons(blocks)
  {
    persons := [];
    for i := 0 to |blocks|
      invariant persons == KeptPersons(blocks[..i])
    {
      assert blocks[..i + 1][..i] == blocks[..i];
      var b := blocks[i];
      if b.name.Some? {
        var texts := b.relationships;
        var relationships: seq<string> := [];
        for j := 0 to |texts|
          invariant relationships == NonEmpty(texts[..j])
        {
          assert texts[..j + 1][..j] == texts[..j];
          if texts[j] != "" {
            relationships := relationships + [texts[j]];
          }
        }
        assert texts[..|texts|] == texts;
        var fullName := FullName(b.name.value);
        if Listed(fullName) {
          persons := persons + [RelatedPerson(fullName, relationships)];
        }
      }
    }
    assert blocks[..|blocks|] == blocks;
  }

  /** A parsed Form D filing. Dates are day numbers. */
  datatype FormDFiling = FormDFiling(
    accessionNumber: string,
    cik: string,
    issuerName: string,
    filingDate: Option<int>,
    isAmendment: bool,
    totalOfferingAmount: Option<int>,
    totalAmountSold: Option<int>,
    totalRemaining: Option<int>,
    investorCount: Option<int>,
    minimumInvestment: Option<int>,
    industryGroup: Option<string>,
    issuerState: Option<string>,
    issuerCity: Option<string>,
    dateOfFirstSale: Option<int>,
    relatedPersons: seq<RelatedPerson>)

  /**
   * The texts of the elements `fetch_filing` reads from a Form D document,
   * None where the element is missing or has no text.
   */
  datatype FormDDocument = FormDDocument(
    persons: seq<PersonBlock>,
    entityName: Option<string>,
    submissionType: Option<string>,
    signatureDate: Option<string>,
    totalOfferingAmount: Option<string>,
    totalAmountSold: Option<string>,
    totalRemaining: Option<string>,
    investorCount: Option<string>,
    minimumInvestment: Option<string>,
    industryGroup: Option<string>,
    stateOrCountry: Option<string>,
    city: Option<string>,
    dateOfFirstSale: Option<string>)

  /** None of the amounts and counts of `doc` is an infinity. */
  predicate FiniteAmounts(doc: FormDDocument) {
    && Finite(FindText(doc.totalOfferingAmount))
    && Finite(FindText(doc.totalAmountSold))
    && Finite(FindText(doc.totalRemaining))
    && Finite(FindText(doc.investorCount))
    && Finite(FindText(doc.minimumInvestment))
  }

  /** A submission type naming an amendment. */
  predicate IsAmendment(submissionType: string) {
    Contains(submissionType, "/A")
  }

  /**
   * `fetch_filing(cik, accession)` after the download: `doc` is None when the
   * request or the XML parse failed, `today` is `date.today()` and `parse`
   * stands for dateutil's parser.
   */
  method FetchFiling(cik: string, accession: string, doc: Option<FormDDocument>, today: int, parse: string -> Option<int>)
    returns (filing: Option<FormDFiling>)
    requires doc.Some? ==> FiniteAmounts(doc.value)
    ensures filing.None? <==> doc.None?
    ensures filing.Some? ==>
      var f := filing.value;
      var d := doc.value;
      && f.accessionNumber == accession
      && f.cik == LStripChar(cik, '0')
      && f.issuerName == (if FindText(d.entityName).Some? && FindText(d.entityName).value != ""
                          then FindText(d.entityName).value else "Unknown")
      && (f.isAmendment <==> IsAmendment(FindText(d.submissionType).GetOr("")))
      && f.filingDate == SignatureDate(FindText(d.signatureDate), today, parse)
      && f.totalOfferingAmount == ParseInt(FindText(d.totalOfferingAmount))
      && f.totalAmountSold == ParseInt(FindText(d.totalAmountSold))
      && f.totalRemaining == ParseInt(FindText(d.totalRemaining))
      && f.investorCount == ParseInt(FindText(d.investorCount))
      && f.minimumInvestment == ParseInt(FindText(d.minimumInvestment))
      && f.industryGroup == FindText(d.industryGroup)
      && f.issuerState == FindText(d.stateOrCountry)
      && f.issuerCity == FindText(d.city)
      && f.dateOfFirstSale == ParseDate(FindText(d.dateOfFirstSale), parse)
      && f.relatedPersons == KeptPersons(d.persons)
  {
    if doc.None? {
      return None;
    }
    var d := doc.value;
    var persons := RelatedPersons(d.persons);
    var issuer := FindText(d.entityName);
    var submissionType := FindText(d.submissionType).GetOr("");
    var dateText := FindText(d.signatureDate);
    var filingDate := if dateText.Some? && dateText.value != "" then ParseDate(dateText, parse) else Some(today);
    filing := Some(FormDFiling(
      accession,
      LStripChar(cik, '0'),
      if issuer.Some? && issuer.value != "" then issuer.value else "Unknown",
      filingDate,
      IsAmendment(submissionType),
      ParseInt(FindText(d.totalOfferingAmount)),
      ParseInt(FindText(d.totalAmountSold)),
      ParseInt(FindText(d.totalRemaining)),
      ParseInt(FindText(d.investorCount)),
      ParseInt(FindText(d.minimumInvestment)),
      FindText(d.industryGroup),
      FindText(d.stateOrCountry),
      FindText(d.city),
      ParseDate(FindText(d.dateOfFirstSale), parse),
      persons));
  }

  // ---------------------------------------------------------------------------
  // Filings of one filer
  // ---------------------------------------------------------------------------

  /** The most filings `get_filings_for_cik` collects. */
  const MaxFilings: nat := 20

  /**
   * The filings obtained, in index order, for the Form D entries among the
   * first `n` entries of the index that have an accession number; `fetch`
   * stands for `fetch_filing`.
   */
  function Parsed(forms: seq<string>, accessions: seq<string>, cik: string,
                  fetch: (string, string) -> Option<FormDFiling>, n: nat): seq<FormDFiling>
    requires n <= |forms|
  {
    if n == 0 then []
    else
      var prev := Parsed(forms, accessions, cik, fetch, n - 1);
      var i := n - 1;
      if IsFormD(forms[i]) && i < |accessions| && accessions[i] != "" && fetch(cik, accessions[i]).Some?
      then prev + [fetch(cik, accessions[i]).value]
      else prev
  }

  /** Looking at more entries only adds filings at the end. */
  lemma {:induction false} ParsedGrows(forms: seq<string>, accessions: seq<string>, cik: string,
                                       fetch: (string, string) -> Option<FormDFiling>, m: nat, n: nat)
    requires m <= n <= |forms|
    ensures var a := Parsed(forms, accessions, cik, fetch, m);
            var b := Parsed(forms, accessions, cik, fetch, n);
            |a| <= |b| && b[..|a|] == a
    decreases n
  {
    if m < n {
      ParsedGrows(forms, accessions, cik, fetch, m, n - 1);
    }
  }

  /** Each filing obtained is the one fetched for a Form D entry that has an accession number. */
  lemma {:induction false} ParsedFromFormD(forms: seq<string>, accessions: seq<string>, cik: string,
                                           fetch: (string, string) -> Option<FormDFiling>, n: nat)
    requires n <= |forms|
    ensures forall f :: f in Parsed(forms, accessions, cik, fetch, n) ==>
              exists i :: 0 <= i < n && i < |accessions| && IsFormD(forms[i]) && accessions[i] != ""
                       && fetch(cik, accessions[i]) == Some(f)
  {
    if n > 0 {
      ParsedFromFormD(forms, accessions, cik, fetch, n - 1);
    }
  }

  /** Newest filing date first; the key of `filings.sort(key=filing_date, reverse=True)`. */
  predicate NewestFirst(a: FormDFiling, b: FormDFiling) {
    b.filingDate.GetOr(0) <= a.filingDate.GetOr(0)
  }

  lemma NewestFirstIsPreorder()
    ensures TotalPreorder(NewestFirst)
  {
  }

  /** One more index entry adds its filing when it is a Form D with an accession that could be fetched. */
  lemma ParsedNext(forms: seq<string>, accessions: seq<string>, cik: string,
                   fetch: (string, string) -> Option<FormDFiling>, i: nat)
    requires i < |forms|
    ensures var accession := if i < |accessions| then accessions[i] else "";
            Parsed(forms, accessions, cik, fetch, i + 1)
            == Parsed(forms, accessions, cik, fetch, i)
               + (if IsFormD(forms[i]) && accession != "" && fetch(cik, accession).Some?
                  then [fetch(cik, accession).value] else [])
  {
  }

  /** Once 20 filings are in, the entries after that point change nothing in the first 20. */
  lemma CapReached(forms: seq<string>, accessions: seq<string>, cik: string,
                   fetch: (string, string) -> Option<FormDFiling>, i: nat)
    requires i <= |forms| && |Parsed(forms, accessions, cik, fetch, i)| == MaxFilings
    ensures Take(Parsed(forms, accessions, cik, fetch, |forms|), MaxFilings)
         == Parsed(forms, accessions, cik, fetch, i)
  {
    ParsedGrows(forms, accessions, cik, fetch, i, |forms|);
  }

  /** The loop body of `get_filings_for_cik` below the cap: fetch a Form D entry that has an accession number. */
  method FetchEntry(found: seq<FormDFiling>, count: nat, form: string, accession: string, cik: string,
                    fetch: (string, string) -> Option<FormDFiling>)
    returns (found': seq<FormDFiling>, count': nat)
    requires count == |found|
    ensures found' == found + if IsFormD(form) && accession != "" && fetch(cik, accession).Some?
                              then [fetch(cik, accession).value] else []
    ensures count' == |found'|
  {
    found', count' := found, count;
    if IsFormD(form) && accession != "" {
      var filing := fetch(cik, accession);
      if filing.Some? {
        found' := found + [filing.value];
        count' := count + 1;
      }
    }
  }

  /** The loop of `get_filings_for_cik` over the index entries, up to its `break` at 20 filings. */
  method CollectFormDs(forms: seq<string>, accessions: seq<string>, cleanCik: string,
                       fetch: (string, string) -> Option<FormDFiling>)
    returns (found: seq<FormDFiling>)
    ensures found == Take(Parsed(forms, accessions, cleanCik, fetch, |forms|), MaxFilings)
  {
    found := [];
    var count := 0;
    var i := 0;
    while i < |forms|
      invariant 0 <= i <= |forms|
      invariant found == Parsed(forms, accessions, cleanCik, fetch, i)
      invariant count == |found| <= MaxFilings
    {
      ParsedNext(forms, accessions, cleanCik, fetch, i);
      if IsFormD(forms[i]) && count >= MaxFilings {
        CapReached(forms, accessions, cleanCik, fetch, i);
        return;
      }
      var accession := if i < |accessions| then accessions[i] else "";
      found, count := FetchEntry(found, count, forms[i], accession, cleanCik, fetch);
      i := i + 1;
    }
    assert Take(found, MaxFilings) == found;
  }

  /**
   * `get_filings_for_cik(cik)` after the download: `index` is the decoded
   * submissions index, None when the fetch failed.  Form D entries are
   * fetched in index order until 20 filings have been obtained, then sorted
   * newest first.  Sorting two or more filings compares every date, and a
   * missing one makes Python raise TypeError, which the client does not
   * catch; the model leaves that input out.
   */
  method FilingsForCik(cik: string, index: Option<Submissions>, fetch: (string, string) -> Option<FormDFiling>)
    returns (filings: seq<FormDFiling>)
    requires index.Some? ==>
               var found := Take(Parsed(index.value.forms, index.value.accessions, LStripChar(cik, '0'), fetch,
                                        |index.value.forms|), MaxFilings);
               |found| <= 1 || forall k :: 0 <= k < |found| ==> found[k].filingDate.Some?
    ensures index.None? ==> filings == []
    ensures index.Some? ==>
      filings == SortBy(Take(Parsed(index.value.forms, index.value.accessions, LStripChar(cik, '0'), fetch,
                                    |index.value.forms|), MaxFilings), NewestFirst)
  {
    if index.None? {
      return [];
    }
    var cleanCik := LStripChar(cik, '0');
    var found := CollectFormDs(index.value.forms, index.value.accessions, cleanCik, fetch);
    filings := SortBy(found, NewestFirst);
  }

  /**
   * What `get_filings_for_cik` returns: at most 20 filings, each fetched for a
   * Form D entry with an accession number, newest first, filings of equal
   * date in index order.
   */
  lemma FilingsForCikResults(forms: seq<string>, accessions: seq<string>, cik: string,
                             fetch: (string, string) -> Option<FormDFiling>)
    ensures var found := Take(Parsed(forms, accessions, cik, fetch, |forms|), MaxFilings);
            var r := SortBy(found, NewestFirst);
            && |r| <= MaxFilings
            && (forall f :: f in r ==>
                  exists i :: 0 <= i < |forms| && i < |accessions| && IsFormD(forms[i]) && accessions[i] != ""
                           && fetch(cik, accessions[i]) == Some(f))
            && Sorted(r, NewestFirst)
            && (forall z :: SameKey(r, z, NewestFirst) == SameKey(found, z, NewestFirst))
  {
    var all := Parsed(forms, accessions, cik, fetch, |forms|);
    var found := Take(all, MaxFilings);
    var r := SortBy(found, NewestFirst);
    ParsedFromFormD(forms, accessions, cik, fetch, |forms|);
    forall f | f in r
      ensures exists i :: 0 <= i < |forms| && i < |accessions| && IsFormD(forms[i]) && accessions[i] != ""
                       && fetch(cik, accessions[i]) == Some(f)
    {
      assert f in multiset(found);
      assert f in all;
    }
    NewestFirstIsPreorder();
    SortBySorted(found, NewestFirst);
    forall z ensures SameKey(r, z, NewestFirst) == SameKey(found, z, NewestFirst) {
      SortByStable(found, z, NewestFirst);
    }
  }
}
