/**
 * The import script that builds the curated firm table from an OpenVC CSV
 * export: money parsing, the row filter, and the entries of the generated
 * table (sorted by lower-cased name, with a quoted name and simple aliases).
 * Reading the file and writing the generated text are outside the model; the
 * CSV arrives as a list of rows of fields.
 */
module ImportVcs {
  import opened Options
  import opened Strings
  import opened Sorting
  import opened Numbers
  import opened Lists

  /** `parse_money`: "" is 0; otherwise '$' and ',' are dropped, the rest stripped and read by `int()`, 0 when unreadable. */
  function ParseMoney(val: string): int {
    if val == [] then 0
    else
      var n := IntLiteral(Strip(Replace(Replace(val, "$", ""), ",", "")));
      if n.Some? then n.value else 0
  }

  /** A text without `c` holds no occurrence of it. */
  lemma CharAbsent(s: string, c: char)
    requires forall i :: 0 <= i < |s| ==> s[i] != c
    ensures !Contains(s, [c])
  {
    forall i | 0 <= i <= |s| ensures !StartsWith(s[i..], [c]) {
      if i < |s| {
        assert s[i..][0] == s[i];
      }
    }
  }

  /** A text without '$' or ',' is read by `int()` after stripping. */
  lemma ParseMoneyPlain(val: string)
    requires val != [] && forall i :: 0 <= i < |val| ==> val[i] != '$' && val[i] != ','
    ensures ParseMoney(val) == (if IntLiteral(Strip(val)).Some? then IntLiteral(Strip(val)).value else 0)
  {
    CharAbsent(val, '$');
    CharAbsent(val, ',');
    ReplaceAbsent(val, "$", "");
    ReplaceAbsent(val, ",", "");
  }

  /** A plain run of digits reads as its value. */
  lemma ParseMoneyDigits(d: string)
    requires AllDigits(d) && |d| >= 1
    ensures ParseMoney(d) == DigitsValue(d)
  {
    assert IsDigit(d[0]) && IsDigit(d[|d| - 1]);
    DigitNotSpace(d[0]);
    DigitNotSpace(d[|d| - 1]);
    StripUnchanged(d);
    IntLiteralDigits(d);
    forall i | 0 <= i < |d| ensures d[i] != '$' && d[i] != ',' {
      assert IsDigit(d[i]);
    }
    ParseMoneyPlain(d);
  }

  lemma DigitNotSpace(c: char)
    requires IsDigit(c)
    ensures !IsSpace(c)
  {
  }

  /** A leading '$' is dropped: "$100000" reads as 100000. */
  lemma ParseMoneyDollars(d: string)
    requires AllDigits(d) && |d| >= 1
    ensures ParseMoney("$" + d) == DigitsValue(d)
  {
    var s := "$" + d;
    assert StartsWith(s, "$") && s[1..] == d;
    assert Replace(s, "$", "") == Replace(d, "$", "");
    ParseMoneyDigits(d);
  }

  /** What `str(n)` writes after a '$', `parse_money` reads back. */
  lemma ParseMoneyRoundTrip(n: nat)
    ensures ParseMoney("$" + Decimal(n)) == n
  {
    ParseMoneyDollars(Decimal(n));
    DecimalRoundTrip(n);
  }

  /** A field that is not a number, such as "N/A" or "TBD", counts as 0. */
  lemma ParseMoneyUnreadable(val: string)
    requires val != [] && forall i :: 0 <= i < |val| ==> val[i] != '$' && val[i] != ','
    requires !IsSpace(val[0]) && !IsSpace(val[|val| - 1])
    requires !IsDigit(val[0]) && val[0] != '+' && val[0] != '-'
    ensures ParseMoney(val) == 0
  {
    ParseMoneyPlain(val);
    StripUnchanged(val);
    assert SplitSign(val) == (false, val);
    assert !DigitPart(val);
  }

  /** One CSV row: its fields in order. */
  type Row = seq<string>

  /** A firm kept from the CSV. */
  datatype Candidate = Candidate(name: string, website: string, minCheck: int)

  /** Investor types that plausibly file Form D. */
  const IncludeTypes: set<string> :=
    {"vc", "angel network", "family office", "pe fund", "startup studio", "accelerator", "cvc", "micro vc"}

  /** Investor types named as unwanted. */
  const ExcludeTypes: set<string> := {"angel", "solo angel", "individual"}

  predicate TypeOk(investorType: string) {
    exists t :: t in IncludeTypes && Contains(investorType, t)
  }

  predicate TypeBad(investorType: string) {
    exists t :: t in ExcludeTypes && Contains(investorType, t)
  }

  /** The firm a row yields, or None when the row is dropped. */
  function RowCandidate(row: Row): Option<Candidate> {
    if |row| < 7 then None
    else
      var name := Strip(row[0]);
      var website := Strip(row[1]);
      var minCheck := if |row| > 7 then ParseMoney(row[7]) else 0;
      if name == [] || !TypeOk(Lower(Strip(row[6]))) then None
      else Some(Candidate(name, if StartsWith(website, "http") then website else "", minCheck))
  }

  /** The firms the rows yield, in row order. */
  function Candidates(rows: seq<Row>): (r: seq<Candidate>)
    ensures |r| <= |rows|
  {
    FilterMap(rows, RowCandidate)
  }

  /**
   * `process_csv`: the first line is the header, and a file without one raises
   * (None). The exclusion check runs as in the script; it never decides
   * anything, since a row it rejects is rejected by the inclusion check too.
   */
  method ProcessCsv(lines: seq<Row>) returns (vcs: Option<seq<Candidate>>)
    ensures lines == [] ==> vcs.None?
    ensures lines != [] ==> vcs == Some(Candidates(lines[1..]))
  {
    if lines == [] {
      return None;
    }
    var rows := lines[1..];
    var found: seq<Candidate> := [];
    for i := 0 to |rows|
      invariant found == Candidates(rows[..i])
    {
      FilterMapNext(rows, i, RowCandidate);
      var row := rows[i];
      if |row| < 7 {
        continue;
      }
      var name := Strip(row[0]);
      var website := Strip(row[1]);
      var investorType := Lower(Strip(row[6]));
      var minCheck := if |row| > 7 then ParseMoney(row[7]) else 0;
      if name == [] {
        continue;
      }
      var typeOk := TypeOk(investorType);
      var typeBad := TypeBad(investorType);
      if typeBad && !typeOk {
        continue;
      }
      if !typeOk {
        continue;
      }
      found := found + [Candidate(name, if StartsWith(website, "http") then website else "", minCheck)];
    }
    assert rows[..|rows|] == rows;
    return Some(found);
  }

  /** A kept row has a non-blank stripped name and a website that is empty or starts with "http". */
  lemma RowCandidateWellFormed(row: Row)
    requires RowCandidate(row).Some?
    ensures var c := RowCandidate(row).value;
            && c.name != [] && !IsSpace(c.name[0]) && !IsSpace(c.name[|c.name| - 1])
            && (c.website == [] || StartsWith(c.website, "http"))
  {
    StripShape(row[0]);
  }

  /**
   * The firms kept are exactly those of the rows with seven fields, a name and
   * an included investor type: each comes from such a row, and each such row
   * gives one.
   */
  lemma CandidatesExactly(rows: seq<Row>)
    ensures forall k :: 0 <= k < |Candidates(rows)| ==> Produced(rows, RowCandidate, Candidates(rows)[k])
    ensures forall i :: 0 <= i < |rows| && |rows[i]| >= 7 && Strip(rows[i][0]) != [] && TypeOk(Lower(Strip(rows[i][6]))) ==>
              RowCandidate(rows[i]).Some? && RowCandidate(rows[i]).value in Candidates(rows)
  {
    FilterMapSound(rows, RowCandidate);
    FilterMapComplete(rows, RowCandidate);
  }

  /** Each kept firm is well formed. */
  lemma CandidatesWellFormed(rows: seq<Row>)
    ensures forall k :: 0 <= k < |Candidates(rows)| ==>
              var c := Candidates(rows)[k];
              && c.name != [] && !IsSpace(c.name[0]) && !IsSpace(c.name[|c.name| - 1])
              && (c.website == [] || StartsWith(c.website, "http"))
  {
    FilterMapSound(rows, RowCandidate);
    forall k | 0 <= k < |Candidates(rows)|
      ensures var c := Candidates(rows)[k];
              && c.name != [] && !IsSpace(c.name[0]) && !IsSpace(c.name[|c.name| - 1])
              && (c.website == [] || StartsWith(c.website, "http"))
    {
      assert Produced(rows, RowCandidate, Candidates(rows)[k]);
      var i :| 0 <= i < |rows| && RowCandidate(rows[i]) == Some(Candidates(rows)[k]);
      RowCandidateWellFormed(rows[i]);
    }
  }

  /** "angel network" names an excluded type and an included one, and the inclusion wins. */
  lemma AngelNetworkKept()
    ensures TypeBad("angel network") && TypeOk("angel network")
  {
    assert StartsWith("angel network", "angel");
    assert "angel network"[0..] == "angel network";
    assert Contains("angel network", "angel");
    assert StartsWith("angel network", "angel network");
    assert Contains("angel network", "angel network");
  }

  /** `vcs.sort(key=lambda x: x["name"].lower())`. */
  predicate LowerNameFirst(a: Candidate, b: Candidate) {
    LexLe(Lower(a.name), Lower(b.name))
  }

  lemma LowerNameFirstIsPreorder()
    ensures TotalPreorder(LowerNameFirst)
  {
    forall a: Candidate, b: Candidate ensures LowerNameFirst(a, b) || LowerNameFirst(b, a) {
      LexLeTotalOrder(Lower(a.name), Lower(b.name), Lower(b.name));
    }
    forall a: Candidate, b: Candidate, c: Candidate | LowerNameFirst(a, b) && LowerNameFirst(b, c)
      ensures LowerNameFirst(a, c)
    {
      LexLeTotalOrder(Lower(a.name), Lower(b.name), Lower(c.name));
    }
  }

  /** One entry of the generated table: the name as written between quotes, the aliases and the website. */
  datatype Entry = Entry(quotedName: string, aliases: seq<string>, website: string)

  /** The alias obtained by dropping " <word>" from the lower-cased name, when `word` occurs in it. */
  function AliasFor(nameLower: string, word: string): seq<string>
    requires |word| > 0
  {
    if Contains(nameLower, word) then [Strip(Replace(nameLower, " " + word, ""))] else []
  }

  /** The aliases of a name: one per word among "ventures", "capital", "partners" that occurs in it, in that order. */
  function Aliases(name: string): (r: seq<string>)
    ensures |r| <= 3
  {
    var nameLower := Lower(name);
    Take(AliasFor(nameLower, "ventures") + AliasFor(nameLower, "capital") + AliasFor(nameLower, "partners"), 3)
  }

  predicate NoUpper(s: string) {
    forall i :: 0 <= i < |s| ==> !('A' <= s[i] <= 'Z')
  }

  lemma LowerHasNoUpper(s: string)
    ensures NoUpper(Lower(s))
  {
  }

  /** Deleting a pattern from a text without upper-case letters leaves none. */
  lemma {:induction false} DeleteKeepsNoUpper(s: string, pat: string)
    requires |pat| > 0 && NoUpper(s)
    ensures NoUpper(Replace(s, pat, ""))
    decreases |s|
  {
    if s != [] {
      if StartsWith(s, pat) {
        DeleteKeepsNoUpper(s[|pat|..], pat);
        assert Replace(s, pat, "") == Replace(s[|pat|..], pat, "");
      } else {
        DeleteKeepsNoUpper(s[1..], pat);
      }
    }
  }

  /** Stripping a text without upper-case letters leaves none. */
  lemma StripKeepsNoUpper(s: string)
    requires NoUpper(s)
    ensures NoUpper(Strip(s))
  {
    var l := StripLeft(s);
    assert NoUpper(l);
  }

  /** What is left of a lower-cased name once " <word>" is deleted and the ends stripped. */
  lemma AliasPieceShape(nameLower: string, pat: string)
    requires |pat| > 0 && NoUpper(nameLower)
    ensures var a := Strip(Replace(nameLower, pat, ""));
            NoUpper(a) && (a == [] || (!IsSpace(a[0]) && !IsSpace(a[|a| - 1])))
  {
    var deleted := Replace(nameLower, pat, "");
    DeleteKeepsNoUpper(nameLower, pat);
    StripKeepsNoUpper(deleted);
    StripShape(deleted);
  }

  /** An alias never holds an upper-case ASCII letter and has no blank at either end. */
  lemma AliasShape(name: string, word: string)
    requires |word| > 0
    ensures forall a :: a in AliasFor(Lower(name), word) ==>
              NoUpper(a) && (a == [] || (!IsSpace(a[0]) && !IsSpace(a[|a| - 1])))
  {
    var nameLower := Lower(name);
    LowerHasNoUpper(name);
    AliasPieceShape(nameLower, " " + word);
  }

  /** Every alias of a name is lower-case and stripped, and there is one per suffix word the name holds, at most three. */
  lemma AliasesShape(name: string)
    ensures forall a :: a in Aliases(name) ==>
              NoUpper(a) && (a == [] || (!IsSpace(a[0]) && !IsSpace(a[|a| - 1])))
  {
    var nameLower := Lower(name);
    var all := AliasFor(nameLower, "ventures") + AliasFor(nameLower, "capital") + AliasFor(nameLower, "partners");
    AliasShape(name, "ventures");
    AliasShape(name, "capital");
    AliasShape(name, "partners");
    assert Aliases(name) == all[..Min(3, |all|)];
    forall a | a in Aliases(name) ensures a in all {
      var k :| 0 <= k < |Aliases(name)| && Aliases(name)[k] == a;
      assert all[k] == a;
    }
  }

  /** The generated table's entries: the firms sorted by lower-cased name, each with its quoted name and aliases. */
  function Entries(vcs: seq<Candidate>): seq<Entry> {
    EntriesOf(SortBy(vcs, LowerNameFirst))
  }

  function EntryFor(c: Candidate): Entry {
    Entry(QuoteName(c.name), Aliases(c.name), c.website)
  }

  function EntriesOf(sorted: seq<Candidate>): seq<Entry> {
    Map(sorted, EntryFor)
  }

  lemma EntriesOfAt(sorted: seq<Candidate>)
    ensures |EntriesOf(sorted)| == |sorted|
    ensures forall k :: 0 <= k < |sorted| ==> EntriesOf(sorted)[k] == EntryFor(sorted[k])
  {
    MapAt(sorted, EntryFor);
  }

  lemma EntriesOfNext(sorted: seq<Candidate>, k: nat)
    requires k < |sorted|
    ensures EntriesOf(sorted[..k + 1]) == EntriesOf(sorted[..k]) + [EntryFor(sorted[k])]
  {
    MapNext(sorted, k, EntryFor);
  }

  /** `generate_python_file` without the text layout: sort, then one entry per firm. */
  method GeneratePythonFile(vcs: seq<Candidate>) returns (entries: seq<Entry>)
    ensures entries == Entries(vcs)
  {
    var sorted := SortBy(vcs, LowerNameFirst);
    entries := EntriesLoop(sorted);
  }

  /** The loop of `generate_python_file` over the sorted firms. */
  method EntriesLoop(sorted: seq<Candidate>) returns (entries: seq<Entry>)
    ensures entries == EntriesOf(sorted)
  {
    entries := [];
    for k := 0 to |sorted|
      invariant entries == EntriesOf(sorted[..k])
    {
      EntriesOfNext(sorted, k);
      var vc := sorted[k];
      var nameEscaped := QuoteName(vc.name);
      var aliases := Aliases(vc.name);
      entries := entries + [Entry(nameEscaped, aliases, vc.website)];
    }
    assert sorted[..|sorted|] == sorted;
  }

  /**
   * The table lists every firm once (as a permutation of the input), in
   * non-decreasing order of lower-cased name, and firms whose lower-cased
   * names are equal keep their input order.
   */
  lemma EntriesSorted(vcs: seq<Candidate>)
    ensures var sorted := SortBy(vcs, LowerNameFirst);
            && multiset(sorted) == multiset(vcs)
            && Sorted(sorted, LowerNameFirst)
            && (forall z :: SameKey(sorted, z, LowerNameFirst) == SameKey(vcs, z, LowerNameFirst))
            && |Entries(vcs)| == |vcs|
            && forall k :: 0 <= k < |vcs| ==> Entries(vcs)[k] == EntryFor(sorted[k])
  {
    LowerNameFirstIsPreorder();
    SortBySorted(vcs, LowerNameFirst);
    forall z ensures SameKey(SortBy(vcs, LowerNameFirst), z, LowerNameFirst) == SameKey(vcs, z, LowerNameFirst) {
      SortByStable(vcs, z, LowerNameFirst);
    }
    EntriesOfAt(SortBy(vcs, LowerNameFirst));
  }

  // Quoting a name for the generated Python source.

  /** The script as written: every '"' becomes '\"', and nothing else is escaped. */
  function EscapeQuotes(name: string): string {
    Replace(name, "\"", "\\\"")
  }

  /** One character as it is written inside a double-quoted literal. */
  function EscapeChar(c: char): string {
    if c == '\\' then "\\\\"
    else if c == '"' then "\\\""
    else if c == '\n' then "\\n"
    else if c == '\r' then "\\r"
    else if c == '\0' then "\\x00"
    else [c]
  }

  /**
   * Quoting that also escapes backslashes, line breaks and NUL (which Python
   * source cannot hold), so the literal always reads back as the name.
   */
  function QuoteName(name: string): string {
    if name == [] then [] else EscapeChar(name[0]) + QuoteName(name[1..])
  }

  /**
   * Reading a double-quoted one-line Python literal after its opening quote:
   * the value up to the closing quote and the text after it.  None when the
   * line ends first or a NUL character occurs.  The escapes \\, \", \', \n,
   * \r, \t and \x00 are resolved; any other escape is not modelled and also
   * gives None.
   */
  function ReadLiteral(s: string): Option<(string, string)> {
    if s == [] || s[0] == '\n' || s[0] == '\r' || s[0] == '\0' then None
    else if s[0] == '"' then Some(([], s[1..]))
    else if s[0] != '\\' then
      var r := ReadLiteral(s[1..]);
      if r.Some? then Some(([s[0]] + r.value.0, r.value.1)) else None
    else if |s| == 1 then None
    else if |s| >= 4 && s[1..4] == "x00" then
      var r := ReadLiteral(s[4..]);
      if r.Some? then Some((['\0'] + r.value.0, r.value.1)) else None
    else
      var e := s[1];
      if e !in {'\\', '"', '\'', 'n', 'r', 't'} then None
      else
        var c := if e == 'n' then '\n' else if e == 'r' then '\r' else if e == 't' then '\t' else e;
        var r := ReadLiteral(s[2..]);
        if r.Some? then Some(([c] + r.value.0, r.value.1)) else None
  }

  /** The corrected quoting reads back as the name, whatever follows the closing quote. */
  lemma {:induction false} QuoteNameRoundTrip(name: string, tail: string)
    ensures ReadLiteral(QuoteName(name) + "\"" + tail) == Some((name, tail))
  {
    if name == [] {
      assert QuoteName(name) + "\"" + tail == "\"" + tail;
      assert ("\"" + tail)[1..] == tail;
    } else {
      var rest := QuoteName(name[1..]) + "\"" + tail;
      QuoteNameRoundTrip(name[1..], tail);
      ReadEscapedChar(name[0], rest);
      assert QuoteName(name) + "\"" + tail == EscapeChar(name[0]) + rest;
      assert [name[0]] + name[1..] == name;
    }
  }

  /** Reading the escape of one character gives back that character, then reads on. */
  lemma ReadEscapedChar(c: char, rest: string)
    ensures ReadLiteral(EscapeChar(c) + rest) ==
      (var r := ReadLiteral(rest); if r.Some? then Some(([c] + r.value.0, r.value.1)) else None)
  {
    var t := EscapeChar(c) + rest;
    if c == '\0' {
      assert t[1..4] == "x00" && t[4..] == rest;
    } else if c == '\\' || c == '"' || c == '\n' || c == '\r' {
      assert t[0] == '\\' && t[2..] == rest;
      assert |t| < 4 || t[1..4][0] == t[1] != 'x';
    } else {
      assert t[0] == c && t[1..] == rest;
    }
  }

  /** As written, a name that ends in a backslash gives a literal that swallows its closing quote. */
  lemma EscapeQuotesBreaksLiteral()
    ensures ReadLiteral(EscapeQuotes("A\\") + "\",\n") == None
    ensures ReadLiteral(QuoteName("A\\") + "\",\n") == Some(("A\\", ",\n"))
  {
    CharAbsent("A\\", '"');
    ReplaceAbsent("A\\", "\"", "\\\"");
    var t := EscapeQuotes("A\\") + "\",\n";
    assert t == ['A', '\\', '"', ',', '\n'];
    assert t[4..] == ['\n'] && ReadLiteral(t[4..]) == None;
    assert t[3..][1..] == t[4..] && ReadLiteral(t[3..]) == None;
    assert t[1..][2..] == t[3..] && ReadLiteral(t[1..]) == None;
    QuoteNameRoundTrip("A\\", ",\n");
    assert QuoteName("A\\") + "\"" + ",\n" == QuoteName("A\\") + "\",\n";
  }

  /** A name holding no backslash, line break or NUL: only its quotes need escaping. */
  predicate Plain(name: string) {
    forall i :: 0 <= i < |name| ==> name[i] != '\\' && name[i] != '\n' && name[i] != '\r' && name[i] != '\0'
  }

  /** On a plain name the script's escaping is the corrected quoting: each '"' becomes '\"', the rest is kept. */
  lemma {:induction false} EscapeQuotesOnPlainNames(name: string)
    requires Plain(name)
    ensures EscapeQuotes(name) == QuoteName(name)
  {
    if name != [] {
      assert Plain(name[1..]) by {
        forall i | 0 <= i < |name[1..]| ensures name[1..][i] == name[i + 1] { }
      }
      EscapeQuotesOnPlainNames(name[1..]);
      if name[0] == '"' {
        assert StartsWith(name, "\"");
        assert name[|"\""|..] == name[1..];
      } else {
        assert !StartsWith(name, "\"");
      }
    }
  }

  /** As written, the generated literal of a plain name reads back as the name. */
  lemma EscapeQuotesRoundTrip(name: string, tail: string)
    requires Plain(name)
    ensures ReadLiteral(EscapeQuotes(name) + "\"" + tail) == Some((name, tail))
  {
    EscapeQuotesOnPlainNames(name);
    QuoteNameRoundTrip(name, tail);
  }
}
