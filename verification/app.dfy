/**
 * The list logic of the web handlers: the query guard of the search box,
 * the curated-first ordering and the pagination of the EDGAR result page, and
 * the assembly of a firm profile.  Request parsing, rendering and the HTTP
 * calls are outside the model: each service a handler calls appears as its
 * own model, with the data that service would fetch passed in.
 */
module App {
  import opened Options
  import opened Strings
  import opened Sorting
  import opened Lists
  import opened Dedup
  import Edgar
  import Curated
  import Metrics
  import Rss

  /** A handler's answer: a page, or an HTTP error status with its body. */
  datatype Response<T> = Page(body: T) | Failure(status: int, message: string)

  // ---------------------------------------------------------------------------
  // Search box
  // ---------------------------------------------------------------------------

  /** What the search-box dropdown is rendered with. */
  datatype Dropdown = Dropdown(
    curatedResults: seq<Curated.Firm>,
    edgarResults: seq<Edgar.FirmSummary>,
    query: string,
    showEdgarOption: bool)

  /**
   * The dropdown for the query argument `q` and the `edgar` argument, given
   * what the curated search (limit 8) and the EDGAR search (limit 10) return
   * for the stripped query.
   */
  function DropdownFor(q: string, edgarArg: string, curatedFound: seq<Curated.Firm>, edgarFound: seq<Edgar.FirmSummary>): Dropdown {
    var query := Strip(q);
    if |query| < 2 then Dropdown([], [], query, false)
    else if edgarArg == "1" then Dropdown([], edgarFound, query, false)
    else Dropdown(curatedFound, [], query, true)
  }

  /** `search`: curated firms first, EDGAR only on demand. */
  method Search(q: string, edgarArg: string, table: seq<Curated.Firm>,
                candidates: seq<string>, lookup: string -> Option<Edgar.FirmSummary>)
    returns (d: Dropdown)
    ensures d == DropdownFor(q, edgarArg, Curated.CuratedMatches(Strip(q), 8, table),
                             Edgar.FirmsFound(Strip(q), 10, candidates, lookup))
  {
    var query := Strip(q);
    var edgarOnly := edgarArg == "1";
    if |query| < 2 {
      return Dropdown([], [], query, false);
    }
    if edgarOnly {
      var edgarResults := Edgar.SearchFirms(query, 10, candidates, lookup);
      return Dropdown([], edgarResults, query, false);
    }
    var curatedResults := Curated.SearchCuratedVcs(query, 8, table);
    return Dropdown(curatedResults, [], query, true);
  }

  /**
   * A stripped query shorter than two characters shows nothing and offers no
   * EDGAR search.  Otherwise one list is shown: the curated firms with the
   * EDGAR option offered, or, on demand, the EDGAR firms without it.
   */
  lemma DropdownShape(q: string, edgarArg: string, curatedFound: seq<Curated.Firm>, edgarFound: seq<Edgar.FirmSummary>)
    ensures var d := DropdownFor(q, edgarArg, curatedFound, edgarFound);
            && d.query == Strip(q)
            && (|Strip(q)| < 2 ==> d.curatedResults == [] && d.edgarResults == [] && !d.showEdgarOption)
            && (|Strip(q)| >= 2 && edgarArg == "1" ==> d.curatedResults == [] && d.edgarResults == edgarFound)
            && (|Strip(q)| >= 2 && edgarArg != "1" ==> d.curatedResults == curatedFound && d.edgarResults == [])
            && (d.showEdgarOption <==> |Strip(q)| >= 2 && edgarArg != "1")
  {
  }

  /** The curated search returns at most `limit` firms. */
  lemma CuratedMatchesBound(query: string, limit: nat, table: seq<Curated.Firm>)
    ensures |Curated.CuratedMatches(query, limit, table)| <= limit
  {
  }

  /** The EDGAR search returns at most `max_results` firms, or one when that is below one. */
  lemma FirmsFoundBound(query: string, maxResults: int, candidates: seq<string>, lookup: string -> Option<Edgar.FirmSummary>)
    ensures |Edgar.FirmsFound(query, maxResults, candidates, lookup)| <= Edgar.Cap(maxResults)
  {
    Edgar.SearchFirmsResults(query, maxResults, candidates, lookup);
  }

  // ---------------------------------------------------------------------------
  // EDGAR result page
  // ---------------------------------------------------------------------------

  const PerPage: nat := 10

  /** What the result page is rendered with. */
  datatype ResultsPage = ResultsPage(
    results: seq<Edgar.FirmSummary>,
    query: string,
    website: string,
    page: int,
    hasPrev: bool,
    hasNext: bool)

  /** The CIKs of the curated entries that have one. */
  function CikSet(firms: seq<Curated.Firm>): set<string> {
    if firms == [] then {}
    else
      var last := firms[|firms| - 1];
      CikSet(firms[..|firms| - 1]) + if last.cik != "" then {last.cik} else {}
  }

  /** A CIK is collected iff it is non-empty and some entry carries it. */
  lemma {:induction false} CikSetExactly(firms: seq<Curated.Firm>)
    ensures forall c :: c in CikSet(firms) <==> c != "" && exists i :: 0 <= i < |firms| && firms[i].cik == c
  {
    if firms != [] {
      var n := |firms| - 1;
      CikSetExactly(firms[..n]);
      forall c ensures c in CikSet(firms) <==> c != "" && exists i :: 0 <= i < |firms| && firms[i].cik == c {
        if c != "" && exists i :: 0 <= i < |firms| && firms[i].cik == c {
          var i :| 0 <= i < |firms| && firms[i].cik == c;
          if i < n {
            assert firms[..n][i] == firms[i];
          }
        }
        if c in CikSet(firms[..n]) {
          var i :| 0 <= i < n && firms[..n][i].cik == c;
          assert firms[i].cik == c;
        }
      }
    }
  }

  lemma CikSetNext(firms: seq<Curated.Firm>, i: nat)
    requires i < |firms|
    ensures CikSet(firms[..i + 1]) == CikSet(firms[..i]) + if firms[i].cik != "" then {firms[i].cik} else {}
  {
    assert firms[..i + 1][..i] == firms[..i];
  }

  /** The loop that collects `curated_ciks`. */
  method CuratedCiks(firms: seq<Curated.Firm>) returns (ciks: set<string>)
    ensures ciks == CikSet(firms)
  {
    ciks := {};
    for i := 0 to |firms|
      invariant ciks == CikSet(firms[..i])
    {
      CikSetNext(firms, i);
      if firms[i].cik != "" {
        ciks := ciks + {firms[i].cik};
      }
    }
    assert firms[..|firms|] == firms;
  }

  /** The result is a curated firm's. */
  predicate IsCurated(ciks: set<string>, r: Edgar.FirmSummary) {
    r.cik in ciks
  }

  /** `curated_results + other_results`. */
  function CuratedFirst(all: seq<Edgar.FirmSummary>, ciks: set<string>): (r: seq<Edgar.FirmSummary>)
    ensures |r| == |all|
  {
    Partition(all, (f: Edgar.FirmSummary) => IsCurated(ciks, f))
  }

  /** `start = (page - 1) * per_page`. */
  function PageStart(page: int): int {
    (page - 1) * PerPage
  }

  /** `end = start + per_page`. */
  function PageEnd(page: int): int {
    PageStart(page) + PerPage
  }

  /** `all_results[start:end]` for page `page`. */
  function PageOf<T>(all: seq<T>, page: int): (r: seq<T>)
    ensures |r| <= |all|
  {
    Slice(all, PageStart(page), PageEnd(page))
  }

  /**
   * The result page for the stripped `name`, the stripped `website` and the
   * page number, given what the EDGAR search returns and the CIKs of the
   * curated firms found for the name.
   */
  function ResultsFor(query: string, website: string, page: int, found: seq<Edgar.FirmSummary>, ciks: set<string>)
    : Response<ResultsPage>
  {
    if query == [] then Failure(400, "No firm name provided")
    else Page(PageFor(if page == 1 then CuratedFirst(found, ciks) else found, query, website, page))
  }

  /** The page `page` of the ordered results, with its previous/next flags. */
  function PageFor(ordered: seq<Edgar.FirmSummary>, query: string, website: string, page: int): ResultsPage {
    ResultsPage(PageOf(ordered, page), query, website, page, page > 1, |ordered| > PageEnd(page))
  }

  /** The search asks EDGAR for ten results per page up to and including the next page. */
  function Wanted(page: int): int {
    PerPage * (page + 1)
  }

  /** The page-one reordering: the CIKs of the curated firms found for the name (limit 5) move to the front. */
  method PrioritizeCurated(allResults: seq<Edgar.FirmSummary>, query: string, table: seq<Curated.Firm>)
    returns (ordered: seq<Edgar.FirmSummary>)
    ensures ordered == CuratedFirst(allResults, CikSet(Curated.CuratedMatches(query, 5, table)))
  {
    var curatedResults := Curated.SearchCuratedVcs(query, 5, table);
    var curatedCiks := CuratedCiks(curatedResults);
    ordered := CuratedFirst(allResults, curatedCiks);
  }

  /** `search_firm_redirect`: the EDGAR search for a name, curated firms first on page one, ten per page. */
  method SearchFirmRedirect(name: string, website: string, page: int, table: seq<Curated.Firm>,
                            candidates: seq<string>, lookup: string -> Option<Edgar.FirmSummary>)
    returns (r: Response<ResultsPage>)
    ensures r == ResultsFor(Strip(name), Strip(website), page,
                            Edgar.FirmsFound(Strip(name), Wanted(page), candidates, lookup),
                            CikSet(Curated.CuratedMatches(Strip(name), 5, table)))
  {
    var query := Strip(name);
    var site := Strip(website);
    if query == [] {
      return Failure(400, "No firm name provided");
    }
    var allResults := Edgar.SearchFirms(query, Wanted(page), candidates, lookup);
    ghost var found := allResults;
    ghost var ciks := CikSet(Curated.CuratedMatches(query, 5, table));
    if page == 1 {
      allResults := PrioritizeCurated(allResults, query, table);
    }
    assert allResults == if page == 1 then CuratedFirst(found, ciks) else found;
    var start := PageStart(page);
    var end := PageEnd(page);
    var results := Slice(allResults, start, end);
    r := Page(ResultsPage(results, query, site, page, page > 1, |allResults| > end));
    assert r.body == PageFor(allResults, query, site, page);
  }

  /**
   * From page one on, a page holds the (at most ten) results that start at
   * index (page-1)*10, and there is a next page iff results remain past it.
   */
  lemma PageOfSlice<T>(all: seq<T>, page: int)
    requires page >= 1
    ensures var start := (page - 1) * PerPage;
            && |PageOf(all, page)| == (if start >= |all| then 0 else Min(PerPage, |all| - start))
            && (forall k :: 0 <= k < |PageOf(all, page)| ==> PageOf(all, page)[k] == all[start + k])
            && (|all| > page * PerPage <==> PageOf(all, page + 1) != [])
  {
  }

  /** Consecutive pages follow each other in the list without gap or overlap. */
  lemma PagesConsecutive<T>(all: seq<T>, page: int)
    requires page >= 1 && |all| >= page * PerPage
    ensures PageOf(all, page) + PageOf(all, page + 1) == all[(page - 1) * PerPage .. Min(|all|, (page + 1) * PerPage)]
  {
  }

  /**
   * On page one the curated firms come first: the ordering is a permutation
   * of the EDGAR results, a firm is curated iff it comes before all others,
   * and curated and other firms each keep their EDGAR order.
   */
  lemma CuratedFirstStable(all: seq<Edgar.FirmSummary>, ciks: set<string>)
    ensures var r := CuratedFirst(all, ciks);
            var p := (f: Edgar.FirmSummary) => IsCurated(ciks, f);
            && multiset(r) == multiset(all)
            && (forall i, j :: 0 <= i < j < |r| && r[j].cik in ciks ==> r[i].cik in ciks)
            && Filter(r, p) == Filter(all, p)
            && Reject(r, p) == Reject(all, p)
  {
    var p := (f: Edgar.FirmSummary) => IsCurated(ciks, f);
    PartitionPermutation(all, p);
    PartitionFront(all, p);
    PartitionStable(all, p);
  }

  /**
   * The result page: an empty name is a 400; otherwise has_prev holds iff
   * the page is past the first, a page holds at most ten of the results, and
   * on page one no curated firm is listed after a non-curated one.
   */
  lemma ResultsPageShape(query: string, website: string, page: int, found: seq<Edgar.FirmSummary>, ciks: set<string>)
    ensures var r := ResultsFor(query, website, page, found, ciks);
            && (query == [] <==> r == Failure(400, "No firm name provided"))
            && (r.Page? ==> r.body.hasPrev == (page > 1) && r.body.page == page)
            && (r.Page? && page >= 1 ==> |r.body.results| <= PerPage && |r.body.results| <= |found|)
            && (r.Page? && page == 1 ==>
                  forall i, j :: 0 <= i < j < |r.body.results| && r.body.results[j].cik in ciks ==> r.body.results[i].cik in ciks)
  {
    if query != [] && page >= 1 {
      var ordered := if page == 1 then CuratedFirst(found, ciks) else found;
      PageOfSlice(ordered, page);
      if page == 1 {
        CuratedFirstStable(found, ciks);
        forall i, j | 0 <= i < j < |PageOf(ordered, 1)| && PageOf(ordered, 1)[j].cik in ciks
          ensures PageOf(ordered, 1)[i].cik in ciks
        {
          assert PageOf(ordered, 1)[i] == ordered[i] && PageOf(ordered, 1)[j] == ordered[j];
        }
      }
    }
  }

  // ---------------------------------------------------------------------------
  // Firm profile
  // ---------------------------------------------------------------------------

  /** The submissions request for the firm's name: it raised, or it answered with the name if the JSON held one. */
  datatype NameLookup = Unreachable | Answered(name: Option<string>)

  /** What the profile page is rendered with. */
  datatype Profile = Profile(
    cik: string,
    name: string,
    secEntityName: string,
    curated: Option<Curated.Firm>,
    website: Option<string>,
    filings: seq<Edgar.FormDFiling>,
    people: seq<Edgar.RelatedPerson>,
    metrics: Metrics.FirmMetrics,
    pressReleases: seq<Rss.PressRelease>)

  const MaxProfileFilings: nat := 20
  const MaxPeople: nat := 15
  const MaxPressReleases: nat := 5

  /** The curated entry as the profile uses it: the `website` argument fills in a missing website. */
  function WithWebsite(curated: Option<Curated.Firm>, websiteParam: string): Option<Curated.Firm> {
    if websiteParam != "" && curated.Some? && curated.value.website == "" then
      Some(curated.value.(website := websiteParam))
    else curated
  }

  /** `(curated_vc.get("website") if curated_vc else None) or external_website`. */
  function WebsiteOf(curated: Option<Curated.Firm>, websiteParam: string): Option<string> {
    if curated.Some? then (if curated.value.website != "" then Some(curated.value.website) else None)
    else Some(websiteParam)
  }

  /** The name from the submissions request, else the curated name, else "Unknown". */
  function FirmName(lookup: NameLookup, curated: Option<Curated.Firm>): string {
    if lookup.Answered? then (if lookup.name.Some? then lookup.name.value else "Unknown")
    else if curated.Some? then curated.value.name
    else "Unknown"
  }

  function PersonName(p: Edgar.RelatedPerson): string {
    p.name
  }

  predicate AnyPerson(p: Edgar.RelatedPerson) {
    true
  }

  /** The related persons of the filings, filing after filing. */
  function PersonsOf(filings: seq<Edgar.FormDFiling>): seq<Edgar.RelatedPerson> {
    if filings == [] then []
    else PersonsOf(filings[..|filings| - 1]) + filings[|filings| - 1].relatedPersons
  }

  /** The people of the profile, before truncation: the first person of each name, in encounter order. */
  function People(filings: seq<Edgar.FormDFiling>): seq<Edgar.RelatedPerson> {
    FirstOfEachKey(PersonsOf(filings), PersonName, AnyPerson)
  }

  /**
   * The profile for the zero-stripped CIK and the stripped `website`
   * argument, given the curated entry for the CIK, the submissions lookup,
   * the CIK's filings and the releases found for the display name.
   */
  function ProfileFor(cik: string, websiteParam: string, curatedEntry: Option<Curated.Firm>, lookup: NameLookup,
                      filings: seq<Edgar.FormDFiling>, metrics: Metrics.FirmMetrics, releases: seq<Rss.PressRelease>)
    : Response<Profile>
  {
    var curated := WithWebsite(curatedEntry, websiteParam);
    if filings == [] && curated.None? then Failure(404, "No Form D filings found for CIK " + cik)
    else Page(ProfileOf(cik, websiteParam, curated, FirmName(lookup, curated), filings, metrics, releases))
  }

  /** The profile once the 404 rule has passed, given the curated entry with its website filled in. */
  function ProfileOf(cik: string, websiteParam: string, curated: Option<Curated.Firm>, firmName: string,
                     filings: seq<Edgar.FormDFiling>, metrics: Metrics.FirmMetrics, releases: seq<Rss.PressRelease>)
    : Profile
  {
    var secEntityName := if filings != [] then filings[0].issuerName else firmName;
    var displayName := if curated.Some? then curated.value.name else firmName;
    Profile(cik, displayName, secEntityName, curated, WebsiteOf(curated, websiteParam),
            Take(filings, MaxProfileFilings), Take(People(filings), MaxPeople), metrics,
            Take(releases, MaxPressReleases))
  }

  /** The name the profile shows: the curated name, else the firm name. */
  function DisplayName(curatedEntry: Option<Curated.Firm>, lookup: NameLookup): string {
    if curatedEntry.Some? then curatedEntry.value.name else FirmName(lookup, curatedEntry)
  }

  lemma FirstOfEachKeyAppend(xs: seq<Edgar.RelatedPerson>, x: Edgar.RelatedPerson)
    ensures FirstOfEachKey(xs + [x], PersonName, AnyPerson)
            == if x.name in Keys(FirstOfEachKey(xs, PersonName, AnyPerson), PersonName)
               then FirstOfEachKey(xs, PersonName, AnyPerson)
               else FirstOfEachKey(xs, PersonName, AnyPerson) + [x]
  {
    assert (xs + [x])[..|xs + [x]| - 1] == xs;
  }

  lemma PersonsOfNext(filings: seq<Edgar.FormDFiling>, i: nat)
    requires i < |filings|
    ensures PersonsOf(filings[..i + 1]) == PersonsOf(filings[..i]) + filings[i].relatedPersons
  {
    assert filings[..i + 1][..i] == filings[..i];
  }

  /** The inner loop: the persons of one filing, each added unless its name was seen. */
  method AddPersons(before: seq<Edgar.RelatedPerson>, persons: seq<Edgar.RelatedPerson>,
                    people0: seq<Edgar.RelatedPerson>, seen0: set<string>)
    returns (people: seq<Edgar.RelatedPerson>, peopleSeen: set<string>)
    requires people0 == FirstOfEachKey(before, PersonName, AnyPerson) && seen0 == Keys(people0, PersonName)
    ensures people == FirstOfEachKey(before + persons, PersonName, AnyPerson)
    ensures peopleSeen == Keys(people, PersonName)
  {
    people, peopleSeen := people0, seen0;
    ghost var walked := before;
    assert persons[..0] == [];
    for j := 0 to |persons|
      invariant walked == before + persons[..j]
      invariant people == FirstOfEachKey(walked, PersonName, AnyPerson)
      invariant peopleSeen == Keys(people, PersonName)
    {
      var p := persons[j];
      PersonStep(walked, p, people, peopleSeen);
      if p.name !in peopleSeen {
        peopleSeen := peopleSeen + {p.name};
        people := people + [p];
      }
      WalkStep(before, persons, j);
      walked := walked + [p];
    }
    assert persons[..|persons|] == persons;
  }

  lemma WalkStep<T>(before: seq<T>, xs: seq<T>, j: nat)
    requires j < |xs|
    ensures before + xs[..j + 1] == (before + xs[..j]) + [xs[j]]
  {
    assert xs[..j + 1] == xs[..j] + [xs[j]];
  }

  /** One step of the inner loop keeps the kept list and the `people_seen` set in step. */
  lemma PersonStep(walked: seq<Edgar.RelatedPerson>, p: Edgar.RelatedPerson, people: seq<Edgar.RelatedPerson>, seen: set<string>)
    requires people == FirstOfEachKey(walked, PersonName, AnyPerson) && seen == Keys(people, PersonName)
    ensures p.name in seen ==> FirstOfEachKey(walked + [p], PersonName, AnyPerson) == people
    ensures p.name !in seen ==>
              FirstOfEachKey(walked + [p], PersonName, AnyPerson) == people + [p]
              && Keys(people + [p], PersonName) == seen + {p.name}
  {
    FirstOfEachKeyAppend(walked, p);
    KeysAppend(people, p, PersonName);
  }

  /** The loops over the filings' related persons with the `people_seen` set. */
  method CollectPeople(filings: seq<Edgar.FormDFiling>) returns (people: seq<Edgar.RelatedPerson>)
    ensures people == People(filings)
  {
    var peopleSeen: set<string> := {};
    people := [];
    for i := 0 to |filings|
      invariant people == People(filings[..i])
      invariant peopleSeen == Keys(people, PersonName)
    {
      PersonsOfNext(filings, i);
      people, peopleSeen := AddPersons(PersonsOf(filings[..i]), filings[i].relatedPersons, people, peopleSeen);
    }
    assert filings[..|filings|] == filings;
  }

  /** `firm_profile`: 404 when the CIK has neither filings nor a curated entry, else the profile. */
  method FirmProfile(cikArg: string, websiteArg: string, table: seq<Curated.Firm>, lookup: NameLookup,
                     filingsFor: string -> seq<Edgar.FormDFiling>, feeds: seq<Rss.Feed>, now: Rss.Time, today: int)
    returns (r: Response<Profile>)
    ensures var cik := LStripChar(cikArg, '0');
            var entry := Curated.CuratedByCik(cik, table);
            var websiteParam := Strip(websiteArg);
            r == ProfileFor(cik, websiteParam, entry, lookup, filingsFor(cik),
                            Metrics.CalculateMetrics(filingsFor(cik), today),
                            Rss.Matched(DisplayName(WithWebsite(entry, websiteParam), lookup), feeds, now))
  {
    var cik := LStripChar(cikArg, '0');
    var websiteParam := Strip(websiteArg);
    var curatedVc := Curated.CuratedByCik(cik, table);
    ghost var entry := curatedVc;
    if websiteParam != "" && curatedVc.Some? && curatedVc.value.website == "" {
      curatedVc := Some(curatedVc.value.(website := websiteParam));
    }
    assert curatedVc == WithWebsite(entry, websiteParam);
    var firmName := FirmName(lookup, curatedVc);
    var filings := filingsFor(cik);
    if filings == [] && curatedVc.None? {
      return Failure(404, "No Form D filings found for CIK " + cik);
    }
    var profile := BuildProfile(cik, websiteParam, curatedVc, firmName, filings, feeds, now, today);
    assert DisplayName(curatedVc, lookup) == if curatedVc.Some? then curatedVc.value.name else firmName;
    r := Page(profile);
  }

  /** The rest of `firm_profile` once the 404 rule has passed: people, metrics, press releases, truncation. */
  method BuildProfile(cik: string, websiteParam: string, curatedVc: Option<Curated.Firm>, firmName: string,
                      filings: seq<Edgar.FormDFiling>, feeds: seq<Rss.Feed>, now: Rss.Time, today: int)
    returns (profile: Profile)
    ensures profile == ProfileOf(cik, websiteParam, curatedVc, firmName, filings, Metrics.CalculateMetrics(filings, today),
                                 Rss.Matched(if curatedVc.Some? then curatedVc.value.name else firmName, feeds, now))
  {
    var secEntityName := if filings != [] then filings[0].issuerName else firmName;
    var displayName := if curatedVc.Some? then curatedVc.value.name else firmName;
    var people := CollectPeople(filings);
    var metrics := Metrics.CalculateMetrics(filings, today);
    var pressReleases := Rss.SearchReleases(displayName, feeds, now);
    profile := Profile(cik, displayName, secEntityName, curatedVc, WebsiteOf(curatedVc, websiteParam),
                       Take(filings, MaxProfileFilings), Take(people, MaxPeople), metrics,
                       Take(pressReleases, MaxPressReleases));
  }


  /**
   * The 404 rule and the profile's header: a 404 iff there are no filings
   * and no curated entry for the zero-stripped CIK; otherwise the SEC entity
   * name is the first filing's issuer, or the firm name when there is no
   * filing, and at most 20 filings are shown, the first ones.
   */
  lemma ProfileShape(cik: string, websiteParam: string, curatedEntry: Option<Curated.Firm>, lookup: NameLookup,
                     filings: seq<Edgar.FormDFiling>, metrics: Metrics.FirmMetrics, releases: seq<Rss.PressRelease>)
    ensures var r := ProfileFor(cik, websiteParam, curatedEntry, lookup, filings, metrics, releases);
            && (r.Failure? <==> filings == [] && curatedEntry.None?)
            && (r.Failure? ==> r.status == 404)
            && (r.Page? ==>
                  && r.body.cik == cik
                  && (filings != [] ==> r.body.secEntityName == filings[0].issuerName)
                  && (filings == [] ==> r.body.secEntityName == FirmName(lookup, WithWebsite(curatedEntry, websiteParam)))
                  && |r.body.filings| <= MaxProfileFilings
                  && r.body.filings <= filings
                  && |r.body.people| <= MaxPeople
                  && r.body.people <= People(filings)
                  && |r.body.pressReleases| <= MaxPressReleases
                  && r.body.pressReleases <= releases)
  {
  }

  /**
   * The `website` argument is used only when the curated entry has no
   * website, or when there is no curated entry at all.
   */
  lemma WebsitePreference(curated: Option<Curated.Firm>, websiteParam: string)
    ensures curated.Some? && curated.value.website != "" ==>
              WebsiteOf(WithWebsite(curated, websiteParam), websiteParam) == Some(curated.value.website)
    ensures curated.Some? && curated.value.website == "" && websiteParam != "" ==>
              WebsiteOf(WithWebsite(curated, websiteParam), websiteParam) == Some(websiteParam)
    ensures curated.Some? && curated.value.website == "" && websiteParam == "" ==>
              WebsiteOf(WithWebsite(curated, websiteParam), websiteParam) == None
    ensures curated.None? ==> WebsiteOf(WithWebsite(curated, websiteParam), websiteParam) == Some(websiteParam)
  {
  }

  /** Every related person of the filings, filing after filing: `p` is listed by filing `k`. */
  ghost predicate ListedBy(filings: seq<Edgar.FormDFiling>, p: Edgar.RelatedPerson) {
    exists k :: 0 <= k < |filings| && p in filings[k].relatedPersons
  }

  lemma {:induction false} PersonsOfExactly(filings: seq<Edgar.FormDFiling>)
    ensures forall p :: p in PersonsOf(filings) <==> ListedBy(filings, p)
  {
    if filings != [] {
      var n := |filings| - 1;
      PersonsOfExactly(filings[..n]);
      forall p ensures p in PersonsOf(filings) <==> ListedBy(filings, p) {
        if ListedBy(filings[..n], p) {
          var k :| 0 <= k < n && p in filings[..n][k].relatedPersons;
          assert filings[k] == filings[..n][k];
        }
        if ListedBy(filings, p) {
          var k :| 0 <= k < |filings| && p in filings[k].relatedPersons;
          if k < n {
            assert filings[..n][k] == filings[k];
            assert ListedBy(filings[..n], p);
          }
        }
      }
    }
  }

  /**
   * The people list: each person is listed by some filing, no two share a
   * name, every name listed by a filing is among them, and each is the first
   * person with that name in filing order.
   */
  lemma PeopleDistinct(filings: seq<Edgar.FormDFiling>)
    ensures forall p :: p in People(filings) ==> ListedBy(filings, p)
    ensures DistinctKeys(People(filings), PersonName)
    ensures forall k, p :: 0 <= k < |filings| && p in filings[k].relatedPersons ==> p.name in Keys(People(filings), PersonName)
    ensures People(filings) == FirstOccurrences(PersonsOf(filings), PersonName, AnyPerson)
  {
    var all := PersonsOf(filings);
    PersonsOfExactly(filings);
    KeptAccepted(all, PersonName, AnyPerson);
    KeptDistinct(all, PersonName, AnyPerson);
    KeptComplete(all, PersonName, AnyPerson);
    KeptIsFirstOccurrences(all, PersonName, AnyPerson);
    forall k, p | 0 <= k < |filings| && p in filings[k].relatedPersons
      ensures p.name in Keys(People(filings), PersonName)
    {
      assert ListedBy(filings, p);
      var i :| 0 <= i < |all| && all[i] == p;
      assert AnyPerson(all[i]);
    }
  }
}
