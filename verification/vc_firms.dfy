/**
 * The curated database of well-known VC firms (`data/vc_firms.py`): substring
 * search with first-wins deduplication, and two first-match lookups.  The
 * firm table is a parameter; `Sample` holds a few of its real entries.
 */
module Curated {
  import opened Options
  import opened Strings
  import opened Sorting
  import opened Dedup

  /** One entry of the table; a key the entry lacks is "" or []. */
  datatype Firm = Firm(
    name: string,
    aliases: seq<string>,
    website: string,
    cik: string,
    location: string,
    focus: seq<string>,
    aumEstimate: string,
    notablePartners: seq<string>)

  /** The name used for deduplication: lower-cased, then stripped. */
  function Normalized(name: string): string {
    Strip(Lower(name))
  }

  /** The lower-cased query occurs in the lower-cased name or in one of the lower-cased aliases. */
  predicate Matches(firm: Firm, query: string) {
    Contains(Lower(firm.name), query) || exists a :: a in firm.aliases && Contains(Lower(a), query)
  }

  function NormalizedName(firm: Firm): string {
    Normalized(firm.name)
  }

  /**
   * The firms the search loop collects from `firms` for the prepared query:
   * each matching firm whose normalised name has not been collected yet.
   */
  function Selected(firms: seq<Firm>, query: string): seq<Firm> {
    FirstOfEachKey(firms, NormalizedName, (f: Firm) => Matches(f, query))
  }

  /** The search's order: shorter names first, then by name. */
  predicate ShorterFirst(a: Firm, b: Firm) {
    |a.name| < |b.name| || (|a.name| == |b.name| && LexLe(a.name, b.name))
  }

  lemma ShorterFirstIsPreorder()
    ensures TotalPreorder(ShorterFirst)
  {
    forall a: Firm, b: Firm ensures ShorterFirst(a, b) || ShorterFirst(b, a) {
      LexLeTotalOrder(a.name, b.name, b.name);
    }
    forall a: Firm, b: Firm, c: Firm | ShorterFirst(a, b) && ShorterFirst(b, c)
      ensures ShorterFirst(a, c)
    {
      LexLeTotalOrder(a.name, b.name, c.name);
    }
  }

  predicate DifferentNames(a: Firm, b: Firm) {
    Normalized(a.name) != Normalized(b.name)
  }

  /** Whether one firm matches the query, its name checked before its aliases. */
  method MatchFirm(firm: Firm, query: string) returns (matched: bool)
    ensures matched == Matches(firm, query)
  {
    if Contains(Lower(firm.name), query) {
      return true;
    }
    matched := false;
    for j := 0 to |firm.aliases|
      invariant forall k :: 0 <= k < j ==> !Contains(Lower(firm.aliases[k]), query)
    {
      if Contains(Lower(firm.aliases[j]), query) {
        return true;
      }
    }
  }

  /** One more table entry is collected exactly when it matches and its name is new. */
  lemma SelectedNext(firms: seq<Firm>, i: nat, q: string)
    requires i < |firms|
    ensures var prev := Selected(firms[..i], q);
            Selected(firms[..i + 1], q)
            == if NormalizedName(firms[i]) !in Keys(prev, NormalizedName) && Matches(firms[i], q)
               then prev + [firms[i]] else prev
  {
    assert firms[..i + 1][..i] == firms[..i];
  }

  /** `search_curated_vcs(query, limit)` over the table `firms`. */
  method SearchCuratedVcs(query: string, limit: int, firms: seq<Firm>) returns (results: seq<Firm>)
    ensures results == CuratedMatches(query, limit, firms)
  {
    var q := Strip(Lower(query));
    if |q| < 2 {
      return [];
    }
    var found: seq<Firm> := [];
    var seenNames: set<string> := {};
    for i := 0 to |firms|
      invariant found == Selected(firms[..i], q)
      invariant seenNames == Keys(found, NormalizedName)
    {
      SelectedNext(firms, i, q);
      var firm := firms[i];
      var normalized := Normalized(firm.name);
      if normalized !in seenNames {
        var matched := MatchFirm(firm, q);
        if matched {
          KeysAppend(found, firm, NormalizedName);
          seenNames := seenNames + {normalized};
          found := found + [firm];
        }
      }
    }
    assert firms[..|firms|] == firms;
    results := Ranked(found, limit);
  }

  /** What `search_curated_vcs(query, limit)` returns. */
  function CuratedMatches(query: string, limit: int, firms: seq<Firm>): seq<Firm> {
    var q := Strip(Lower(query));
    if |q| < 2 then [] else Ranked(Selected(firms, q), limit)
  }

  /** `results.sort(key=...)` then `results[:limit]`. */
  function Ranked(found: seq<Firm>, limit: int): seq<Firm> {
    Take(SortBy(found, ShorterFirst), limit)
  }

  /** Ranking keeps only elements of the list, in order, at most `limit`, and keeps names distinct. */
  lemma RankedKeeps(found: seq<Firm>, limit: int)
    ensures forall f :: f in Ranked(found, limit) ==> f in found
    ensures Sorted(Ranked(found, limit), ShorterFirst)
    ensures limit >= 0 ==> |Ranked(found, limit)| <= limit
    ensures Pairwise(found, DifferentNames) ==> Pairwise(Ranked(found, limit), DifferentNames)
  {
    var sorted := SortBy(found, ShorterFirst);
    if Pairwise(found, DifferentNames) {
      SortByPairwise(found, ShorterFirst, DifferentNames);
    }
    ShorterFirstIsPreorder();
    SortBySorted(found, ShorterFirst);
    SortByMembers(found, ShorterFirst);
    TakePrefix(sorted, limit, ShorterFirst, DifferentNames);
  }

  /** With a limit of at least the table's size nothing is cut: every collected firm is returned. */
  lemma RankedAll(found: seq<Firm>, limit: int)
    requires limit >= |found|
    ensures forall f :: f in found ==> f in Ranked(found, limit)
  {
    SortByMembers(found, ShorterFirst);
  }

  /**
   * What the search collects for a prepared query `q`: table entries matching
   * it, no two with the same normalised name, each the earliest matching entry
   * with its name.
   */
  lemma SelectedResults(firms: seq<Firm>, q: string)
    ensures forall f :: f in Selected(firms, q) ==> f in firms && Matches(f, q)
    ensures Pairwise(Selected(firms, q), DifferentNames)
    ensures forall f :: f in Selected(firms, q) ==>
              exists i :: 0 <= i < |firms| && firms[i] == f &&
                forall j :: 0 <= j < i && Matches(firms[j], q) ==> NormalizedName(firms[j]) != NormalizedName(f)
  {
    var accept := (f: Firm) => Matches(f, q);
    var selected := Selected(firms, q);
    KeptAccepted(firms, NormalizedName, accept);
    KeptDistinct(firms, NormalizedName, accept);
    KeptEarliest(firms, NormalizedName, accept);
    assert Pairwise(selected, DifferentNames);
    forall f | f in selected
      ensures exists i :: 0 <= i < |firms| && firms[i] == f &&
                forall j :: 0 <= j < i && Matches(firms[j], q) ==> NormalizedName(firms[j]) != NormalizedName(f)
    {
      var k :| 0 <= k < |selected| && selected[k] == f;
      var i :| 0 <= i < |firms| && firms[i] == selected[k] && EarliestOfKey(firms, i, NormalizedName, accept);
    }
  }

  /** Every matching entry has its normalised name among the collected firms. */
  lemma SelectedComplete(firms: seq<Firm>, q: string)
    ensures forall i :: 0 <= i < |firms| && Matches(firms[i], q) ==>
              exists f :: f in Selected(firms, q) && NormalizedName(f) == NormalizedName(firms[i])
  {
    var accept := (f: Firm) => Matches(f, q);
    var selected := Selected(firms, q);
    KeptComplete(firms, NormalizedName, accept);
    forall i | 0 <= i < |firms| && Matches(firms[i], q)
      ensures exists f :: f in selected && NormalizedName(f) == NormalizedName(firms[i])
    {
      assert accept(firms[i]);
      var k :| 0 <= k < |selected| && NormalizedName(selected[k]) == NormalizedName(firms[i]);
      assert selected[k] in selected;
    }
  }

  // ---------------------------------------------------------------------------
  // First-match lookups
  // ---------------------------------------------------------------------------

  predicate SameCik(firm: Firm, cik: string) {
    LStripChar(firm.cik, '0') == LStripChar(cik, '0')
  }

  /** `get_curated_vc_by_cik(cik)`: the first entry whose zero-stripped CIK equals the zero-stripped argument. */
  function CuratedByCik(cik: string, firms: seq<Firm>): (r: Option<Firm>)
    ensures r.None? <==> forall k :: 0 <= k < |firms| ==> !SameCik(firms[k], cik)
    ensures r.Some? ==>
      exists i :: 0 <= i < |firms| && firms[i] == r.value && SameCik(firms[i], cik) &&
        forall j :: 0 <= j < i ==> !SameCik(firms[j], cik)
  {
    First(firms, (f: Firm) => SameCik(f, cik))
  }

  /** The name or one of the aliases equals `name` once both are lower-cased. */
  predicate NamedAs(firm: Firm, name: string) {
    Lower(firm.name) == Lower(name) || exists a :: a in firm.aliases && Lower(a) == Lower(name)
  }

  /** `get_curated_vc_by_name(name)`: the first entry whose name or an alias equals `name`, ignoring case. */
  function CuratedByName(name: string, firms: seq<Firm>): (r: Option<Firm>)
    ensures r.None? <==> forall k :: 0 <= k < |firms| ==> !NamedAs(firms[k], name)
    ensures r.Some? ==>
      exists i :: 0 <= i < |firms| && firms[i] == r.value && NamedAs(firms[i], name) &&
        forall j :: 0 <= j < i ==> !NamedAs(firms[j], name)
  {
    First(firms, (f: Firm) => Lower(f.name) == Lower(name) || AliasNamed(f.aliases, name))
  }

  /** The alias loop of `get_curated_vc_by_name`, in order. */
  function AliasNamed(aliases: seq<string>, name: string): (b: bool)
    ensures b <==> exists a :: a in aliases && Lower(a) == Lower(name)
  {
    if aliases == [] then false
    else
      assert forall a :: a in aliases <==> a == aliases[0] || a in aliases[1..];
      Lower(aliases[0]) == Lower(name) || AliasNamed(aliases[1..], name)
  }

  // ---------------------------------------------------------------------------
  // Entries of the real table
  // ---------------------------------------------------------------------------

  /** The entries at data/vc_firms.py lines 140, 332, 366, 538 and 568, in table order. */
  function Sample(): seq<Firm> {
    [ Firm("Bessemer Venture Partners", ["bessemer", "bvp"], "https://www.bvp.com", "1389941", "", [], "", []),
      Firm("DST Global", ["dst"], "https://dst.global", "1536486", "", [], "", []),
      Firm("Bessemer Venture Partners", ["bessemer", "bvp"], "https://www.bvp.com", "1391131",
           "San Francisco, CA", ["Enterprise", "Consumer", "Healthcare"], "$20B+",
           ["Byron Deeter", "Ethan Kurzweil", "Mary D'Onofrio"]),
      Firm("Coatue Management", ["coatue"], "https://www.coatue.com", "1536486", "New York, NY",
           ["Growth", "Technology"], "$75B+", ["Philippe Laffont", "Thomas Laffont", "Caryn Marooney"]),
      Firm("a]fin Capital", ["fin", "a]fin vc"], "https://www.fin.vc", "", "San Francisco, CA",
           ["Fintech", "B2B"], "$500M+", ["Logan Allin", "Matthew Witheiler"]) ]
  }

  /** Two firms share the CIK 1536486; the lookup returns the earlier, DST Global. */
  lemma CikLookupFirstWins()
    ensures CuratedByCik("1536486", Sample()) == Some(Sample()[1])
  {
    assert !SameCik(Sample()[0], "1536486") by {
      assert LStripChar("1389941", '0') == "1389941";
      assert LStripChar("1536486", '0') == "1536486";
    }
    assert SameCik(Sample()[1], "1536486") by {
      assert LStripChar("1536486", '0') == "1536486";
    }
  }

  /** Without an emptiness check, an empty or all-zero CIK finds the entry whose CIK is "". */
  lemma EmptyCikMatchesEmptyEntry(zeros: nat)
    ensures CuratedByCik(seq(zeros, _ => '0'), Sample()) == Some(Sample()[4])
  {
    var z := seq(zeros, _ => '0');
    var s := Sample();
    assert LStripChar(z, '0') == [];
    forall k | 0 <= k < 4 ensures !SameCik(s[k], z) {
      assert s[k].cik[0] != '0';
    }
    assert SameCik(s[4], z);
  }

  lemma LowerBvp()
    ensures Lower("BVP") == "bvp" && Lower("bvp") == "bvp"
  {
    var u := Lower("BVP");
    assert u[0] == 'b' && u[1] == 'v' && u[2] == 'p';
    var l := Lower("bvp");
    assert l[0] == 'b' && l[1] == 'v' && l[2] == 'p';
  }

  /** An alias names the firm, whatever its case; the first of the two Bessemer entries is the one found. */
  lemma NameLookupByAlias()
    ensures CuratedByName("BVP", Sample()) == Some(Sample()[0])
  {
    var s := Sample();
    LowerBvp();
    assert s[0].aliases[1] == "bvp";
    assert AliasNamed(s[0].aliases, "BVP");
  }

  /** The table lists Bessemer twice; a search for "bessemer" never returns the later entry (CIK 1391131). */
  lemma LaterDuplicateDropped()
    ensures Sample()[2] !in Selected(Sample(), "bessemer")
  {
    var s := Sample();
    assert Lower("bessemer") == "bessemer" by {
      var l := Lower("bessemer");
      assert forall k :: 0 <= k < 8 ==> l[k] == "bessemer"[k];
    }
    assert s[0].aliases[0] == "bessemer";
    ContainsAt("bessemer", "bessemer", 0);
    assert Matches(s[0], "bessemer");
    assert forall k :: 0 <= k < |s| && s[k] == s[2] ==> k == 2;
    LaterDuplicateNotKept(s, 0, 2, NormalizedName, (f: Firm) => Matches(f, "bessemer"));
  }
}
