/**
 * S-1 mining: which IPO registration statements mention a venture firm, and
 * what ownership snippets a statement holds.  The full-text search response
 * and each fetched page are parameters; the two regular-expression scans of a
 * page are represented by the lists of captures they return.
 */
module S1Mining {
  import opened Strings
  import opened Sorting
  import opened Dedup

  /** A request that raised, or a response with its status code and decoded body. */
  datatype Fetched<T> = Raised | Ok(status: int, body: T)

  /**
   * One search hit: its `_id` and the `_source` keys the code reads, each
   * missing key already replaced by the default it is read with.
   */
  datatype SourceHit = SourceHit(
    id: string,
    fileType: string,
    displayNames: seq<string>,
    ciks: seq<string>,
    fileDate: string,
    adsh: string)

  /** An S-1 filing that mentions the firm. */
  datatype S1Hit = S1Hit(
    companyName: string,
    cik: string,
    filingDate: string,
    formType: string,
    accession: string,
    url: DocumentUrl)

  const ArchivesBase := "https://www.sec.gov/Archives/edgar/data/"

  /** A main registration document (not an exhibit) that names a company. */
  predicate MainDocument(h: SourceHit) {
    (h.fileType == "S-1" || h.fileType == "S-1/A") && h.displayNames != []
  }

  /** The display name up to its first "(CIK", stripped. */
  function CompanyName(displayName: string): string {
    Strip(BeforeFirst(displayName, "(CIK"))
  }

  /** A company name never carries the "(CIK" tag, and has no blank at either end. */
  lemma CompanyNameUntagged(displayName: string)
    ensures var r := CompanyName(displayName);
            !Contains(r, "(CIK") && (r == [] || (!IsSpace(r[0]) && !IsSpace(r[|r| - 1])))
  {
    var head := BeforeFirst(displayName, "(CIK");
    var r := Strip(head);
    StripShape(head);
    BeforeFirstUntagged(displayName, "(CIK");
    if Contains(r, "(CIK") {
      ContainsTransitive(head, r, "(CIK");
    }
  }

  /** The company a hit is about ("" when it names none; such hits are never kept). */
  function HitCompany(h: SourceHit): string {
    if h.displayNames == [] then "" else CompanyName(h.displayNames[0])
  }

  /** The first CIK without its leading zeros, or "" when there is none. */
  function CikOf(ciks: seq<string>): (r: string)
    ensures r == [] || r[0] != '0'
  {
    if ciks == [] then "" else LStripChar(ciks[0], '0')
  }

  /** An archive address: the CIK, the accession without dashes and the file name. */
  datatype DocumentUrl = DocumentUrl(cik: string, accession: string, fileName: string) {
    function Text(): string {
      ArchivesBase + cik + "/" + accession + "/" + fileName
    }
  }

  /** The address of a hit's document: the file name is what follows the last ':' of the hit id. */
  function DocumentUrlOf(cik: string, accession: string, id: string): DocumentUrl {
    DocumentUrl(cik, Replace(accession, "-", ""), AfterLast(id, ':'))
  }

  function ToS1Hit(h: SourceHit): S1Hit {
    var cik := CikOf(h.ciks);
    S1Hit(HitCompany(h), cik, h.fileDate, h.fileType, h.adsh, DocumentUrlOf(cik, h.adsh, h.id))
  }

  function ToS1Hits(hs: seq<SourceHit>): (r: seq<S1Hit>)
    ensures |r| == |hs|
  {
    if hs == [] then [] else ToS1Hits(hs[..|hs| - 1]) + [ToS1Hit(hs[|hs| - 1])]
  }

  lemma ToS1HitsSnoc(hs: seq<SourceHit>, h: SourceHit)
    ensures ToS1Hits(hs + [h]) == ToS1Hits(hs) + [ToS1Hit(h)]
  {
    assert (hs + [h])[..|hs|] == hs;
  }

  lemma {:induction false} ToS1HitsAt(hs: seq<SourceHit>)
    ensures forall k :: 0 <= k < |hs| ==> ToS1Hits(hs)[k] == ToS1Hit(hs[k])
  {
    if hs != [] {
      ToS1HitsAt(hs[..|hs| - 1]);
    }
  }

  /** The main-document hits whose company has not been seen yet, in hit order. */
  function Kept(hits: seq<SourceHit>): seq<SourceHit> {
    FirstOfEachKey(hits, HitCompany, MainDocument)
  }

  /** The loop stops once the list holds `limit` entries, checked only after an append. */
  function Quota(limit: int): (n: nat)
    ensures n >= 1 && (limit >= 1 ==> n == limit)
  {
    if limit < 1 then 1 else limit
  }

  /** `search_s1_mentions(vc_name, limit)` given the search response for the firm's name. */
  function S1Results(response: Fetched<seq<SourceHit>>, limit: int): (r: seq<S1Hit>)
    ensures response.Raised? || response.status != 200 ==> r == []
    ensures |r| <= Quota(limit)
  {
    if response.Raised? || response.status != 200 then []
    else ToS1Hits(Take(Kept(response.body), Quota(limit)))
  }

  lemma KeptNext(hits: seq<SourceHit>, i: nat)
    requires i < |hits|
    ensures var prev := Kept(hits[..i]);
            Kept(hits[..i + 1])
            == if HitCompany(hits[i]) !in Keys(prev, HitCompany) && MainDocument(hits[i])
               then prev + [hits[i]] else prev
  {
    assert hits[..i + 1][..i] == hits[..i];
  }

  /** Once the kept prefix fills the quota, later hits change nothing. */
  lemma QuotaReached(hits: seq<SourceHit>, i: nat, limit: int)
    requires i <= |hits| && |Kept(hits[..i])| == Quota(limit)
    ensures Take(Kept(hits), Quota(limit)) == Kept(hits[..i])
  {
    KeptGrows(hits, i, HitCompany, MainDocument);
  }

  /** One pass of the loop of `search_s1_mentions` over a hit: the `continue` checks, then the append. */
  method VisitHit(source: SourceHit, results: seq<S1Hit>, seenCompanies: set<string>, ghost kept: seq<SourceHit>)
    returns (results': seq<S1Hit>, seenCompanies': set<string>, appended: bool)
    requires results == ToS1Hits(kept) && seenCompanies == Keys(kept, HitCompany)
    ensures appended == (MainDocument(source) && HitCompany(source) !in Keys(kept, HitCompany))
    ensures appended ==> results' == ToS1Hits(kept + [source]) && seenCompanies' == Keys(kept + [source], HitCompany)
    ensures !appended ==> results' == results && seenCompanies' == seenCompanies
  {
    results', seenCompanies', appended := results, seenCompanies, false;
    var fileType := source.fileType;
    if fileType != "S-1" && fileType != "S-1/A" {
      return;
    }
    var displayNames := source.displayNames;
    if displayNames == [] {
      return;
    }
    var companyName := CompanyName(displayNames[0]);
    var cik := CikOf(source.ciks);
    if companyName in seenCompanies {
      return;
    }
    seenCompanies' := seenCompanies + {companyName};
    var accession := source.adsh;
    var url := DocumentUrlOf(cik, accession, source.id);
    var hit := S1Hit(companyName, cik, source.fileDate, fileType, accession, url);
    ToS1HitsSnoc(kept, source);
    KeysAppend(kept, source, HitCompany);
    results' := results + [hit];
    appended := true;
  }

  /** The hit loop: filter, deduplicate by company name, build the URL, stop at the limit. */
  method SearchS1Mentions(limit: int, response: Fetched<seq<SourceHit>>) returns (results: seq<S1Hit>)
    ensures results == S1Results(response, limit)
  {
    if response.Raised? || response.status != 200 {
      return [];
    }
    var hits := response.body;
    results := [];
    ghost var kept: seq<SourceHit> := [];
    var seenCompanies: set<string> := {};
    for i := 0 to |hits|
      invariant kept == Kept(hits[..i])
      invariant results == ToS1Hits(kept)
      invariant seenCompanies == Keys(kept, HitCompany)
      invariant |kept| < Quota(limit)
    {
      KeptNext(hits, i);
      var appended;
      results, seenCompanies, appended := VisitHit(hits[i], results, seenCompanies, kept);
      if appended {
        kept := kept + [hits[i]];
        if |results| >= limit {
          QuotaReached(hits, i + 1, limit);
          return;
        }
      }
    }
    assert hits[..|hits|] == hits;
    assert Take(kept, Quota(limit)) == kept;
  }

  /** Reference reading: the first main-document hit of each company, in hit order, up to the quota. */
  lemma S1ResultsAreFirstOccurrences(hits: seq<SourceHit>, limit: int)
    ensures S1Results(Ok(200, hits), limit)
            == ToS1Hits(Take(FirstOccurrences(hits, HitCompany, MainDocument), Quota(limit)))
  {
    KeptIsFirstOccurrences(hits, HitCompany, MainDocument);
  }

  /** Every result is built from a main-document hit of the response. */
  lemma S1ResultsFromMainDocuments(hits: seq<SourceHit>, limit: int)
    ensures var r := S1Results(Ok(200, hits), limit);
            forall k :: 0 <= k < |r| ==> exists i :: 0 <= i < |hits| && MainDocument(hits[i]) && r[k] == ToS1Hit(hits[i])
  {
    var kept := Kept(hits);
    KeptAccepted(hits, HitCompany, MainDocument);
    var taken := Take(kept, Quota(limit));
    ToS1HitsAt(taken);
    var r := S1Results(Ok(200, hits), limit);
    forall k | 0 <= k < |r| ensures exists i :: 0 <= i < |hits| && MainDocument(hits[i]) && r[k] == ToS1Hit(hits[i]) {
      assert taken[k] == kept[k] && kept[k] in kept;
      var i :| 0 <= i < |hits| && hits[i] == kept[k];
      assert r[k] == ToS1Hit(hits[i]);
    }
  }

  /** No two results name the same company. */
  lemma S1ResultsDistinctCompanies(response: Fetched<seq<SourceHit>>, limit: int)
    ensures var r := S1Results(response, limit);
            forall i, j :: 0 <= i < j < |r| ==> r[i].companyName != r[j].companyName
  {
    if response.Ok? && response.status == 200 {
      var kept := Kept(response.body);
      KeptDistinct(response.body, HitCompany, MainDocument);
      var taken := Take(kept, Quota(limit));
      ToS1HitsAt(taken);
      var r := S1Results(response, limit);
      forall i, j | 0 <= i < j < |r| ensures r[i].companyName != r[j].companyName {
        assert r[i] == ToS1Hit(kept[i]) && r[j] == ToS1Hit(kept[j]);
      }
    }
  }

  /** Below the quota, every company with a main-document hit appears among the results. */
  lemma S1ResultsComplete(hits: seq<SourceHit>, limit: int)
    requires |S1Results(Ok(200, hits), limit)| < Quota(limit)
    ensures var r := S1Results(Ok(200, hits), limit);
            forall k :: 0 <= k < |hits| && MainDocument(hits[k]) ==>
              exists j :: 0 <= j < |r| && r[j].companyName == HitCompany(hits[k])
  {
    var kept := Kept(hits);
    KeptComplete(hits, HitCompany, MainDocument);
    var r := S1Results(Ok(200, hits), limit);
    assert Take(kept, Quota(limit)) == kept;
    ToS1HitsAt(kept);
    forall k | 0 <= k < |hits| && MainDocument(hits[k])
      ensures exists j :: 0 <= j < |r| && r[j].companyName == HitCompany(hits[k])
    {
      var m :| 0 <= m < |kept| && HitCompany(kept[m]) == HitCompany(hits[k]);
      assert r[m] == ToS1Hit(kept[m]);
    }
  }

  /** Any main-document hit yields a result, whatever the limit (0 and negative limits included). */
  lemma S1ResultsNonEmpty(hits: seq<SourceHit>, limit: int, k: nat)
    requires k < |hits| && MainDocument(hits[k])
    ensures |S1Results(Ok(200, hits), limit)| >= 1
  {
    KeptNonEmpty(hits, k, HitCompany, MainDocument);
    var kept := Kept(hits);
    assert |Take(kept, Quota(limit))| >= 1;
  }

  /** The CIK has no leading zero; the address has no dash in its accession part and no ':' in its file name, which ends the hit id. */
  lemma S1HitFields(h: SourceHit)
    ensures var r := ToS1Hit(h);
            && (r.cik == [] || r.cik[0] != '0')
            && r.url.Text() == ArchivesBase + r.cik + "/" + Replace(h.adsh, "-", "") + "/" + AfterLast(h.id, ':')
            && (forall i :: 0 <= i < |r.url.accession| ==> r.url.accession[i] != '-')
            && (forall i :: 0 <= i < |r.url.fileName| ==> r.url.fileName[i] != ':')
            && |r.url.fileName| <= |h.id| && r.url.fileName == h.id[|h.id| - |r.url.fileName|..]
  {
    ReplaceCharRemovesAll(h.adsh, '-');
    AfterLastShape(h.id, ':');
  }

  /** The captures of the share-count and percentage patterns over a page, in page order. */
  datatype PatternMatches = PatternMatches(shares: seq<string>, percentages: seq<string>)

  const MaxShareMentions := 5
  const MaxPercentMentions := 3

  /** Each element followed by `suffix`. */
  function Suffixed(xs: seq<string>, suffix: string): (r: seq<string>)
    ensures |r| == |xs|
  {
    if xs == [] then [] else Suffixed(xs[..|xs| - 1], suffix) + [xs[|xs| - 1] + suffix]
  }

  lemma {:induction false} SuffixedAt(xs: seq<string>, suffix: string)
    ensures forall k :: 0 <= k < |xs| ==> Suffixed(xs, suffix)[k] == xs[k] + suffix
  {
    if xs != [] {
      SuffixedAt(xs[..|xs| - 1], suffix);
    }
  }

  /** `extract_ownership_mentions` given the fetched page. */
  function OwnershipMentions(page: Fetched<PatternMatches>): (r: seq<string>)
    ensures page.Raised? || page.status != 200 ==> r == []
  {
    if page.Raised? || page.status != 200 then []
    else
      Suffixed(Take(page.body.shares, MaxShareMentions), " shares")
        + Suffixed(Take(page.body.percentages, MaxPercentMentions), "% ownership")
  }

  /** At most five share counts in page order, then at most three percentages, so at most eight snippets. */
  lemma MentionsLayout(m: PatternMatches)
    ensures var r := OwnershipMentions(Ok(200, m));
            var a := Min(|m.shares|, MaxShareMentions);
            var b := Min(|m.percentages|, MaxPercentMentions);
            && |r| == a + b <= 8
            && (forall k :: 0 <= k < a ==> r[k] == m.shares[k] + " shares")
            && (forall k :: 0 <= k < b ==> r[a + k] == m.percentages[k] + "% ownership")
  {
    var a := Suffixed(Take(m.shares, MaxShareMentions), " shares");
    var b := Suffixed(Take(m.percentages, MaxPercentMentions), "% ownership");
    SuffixedAt(Take(m.shares, MaxShareMentions), " shares");
    SuffixedAt(Take(m.percentages, MaxPercentMentions), "% ownership");
    assert forall k :: 0 <= k < |b| ==> (a + b)[|a| + k] == b[k];
  }

  method ExtractOwnershipMentions(page: Fetched<PatternMatches>) returns (mentions: seq<string>)
    ensures mentions == OwnershipMentions(page)
  {
    if page.Raised? || page.status != 200 {
      return [];
    }
    mentions := [];
    var shares := Take(page.body.shares, MaxShareMentions);
    for k := 0 to |shares|
      invariant mentions == Suffixed(shares[..k], " shares")
    {
      assert shares[..k + 1][..k] == shares[..k];
      mentions := mentions + [shares[k] + " shares"];
    }
    assert shares[..|shares|] == shares;
    ghost var fromShares := mentions;
    var percentages := Take(page.body.percentages, MaxPercentMentions);
    for k := 0 to |percentages|
      invariant mentions == fromShares + Suffixed(percentages[..k], "% ownership")
    {
      assert percentages[..k + 1][..k] == percentages[..k];
      mentions := mentions + [percentages[k] + "% ownership"];
    }
    assert percentages[..|percentages|] == percentages;
  }

  /** One portfolio exit: the company, its S-1 date and address, and the ownership snippets. */
  datatype Exit = Exit(company: string, ipoDate: string, s1Url: DocumentUrl, mentions: seq<string>)

  /** The exit entry for one S-1 hit. */
  function ExitFor(hit: S1Hit, pages: DocumentUrl -> Fetched<PatternMatches>): Exit {
    Exit(hit.companyName, hit.filingDate, hit.url, OwnershipMentions(pages(hit.url)))
  }

  /** The loop of `get_portfolio_exits`: one entry per hit, in order. */
  method ExitsFor(hits: seq<S1Hit>, pages: DocumentUrl -> Fetched<PatternMatches>) returns (results: seq<Exit>)
    ensures |results| == |hits|
    ensures forall k :: 0 <= k < |results| ==> results[k] == ExitFor(hits[k], pages)
  {
    results := [];
    for i := 0 to |hits|
      invariant |results| == i
      invariant forall j :: 0 <= j < i ==> results[j] == ExitFor(hits[j], pages)
    {
      var hit := hits[i];
      var mentions := ExtractOwnershipMentions(pages(hit.url));
      results := results + [Exit(hit.companyName, hit.filingDate, hit.url, mentions)];
    }
  }

  /** `get_portfolio_exits`: one entry per S-1 hit, in hit order; `pages` gives the fetch of each address. */
  method GetPortfolioExits(limit: int, search: Fetched<seq<SourceHit>>, pages: DocumentUrl -> Fetched<PatternMatches>)
    returns (results: seq<Exit>)
    ensures |results| == |S1Results(search, limit)|
    ensures forall k :: 0 <= k < |results| ==> results[k] == ExitFor(S1Results(search, limit)[k], pages)
  {
    var hits := SearchS1Mentions(limit, search);
    results := ExitsFor(hits, pages);
  }
}
