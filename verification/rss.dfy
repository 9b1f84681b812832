/**
 * Press releases from RSS feeds: one release per feed entry, and the search
 * that keeps the releases of every readable feed whose title or summary
 * mentions a firm, newest first.  Fetching and parsing a feed is outside the
 * model: a feed arrives as its parsed entries, or as the exception it raised.
 */
module Rss {
  import opened Options
  import opened Strings
  import opened Sorting
  import opened Lists

  /** A publication time, as a number ordered like the datetime it stands for. */
  type Time = int

  datatype PressRelease = PressRelease(source: string, title: string, url: string, publishedAt: Time, summary: string)

  /**
   * One parsed feed entry.  A field the entry lacks is None; `published` is
   * None when the entry has no parsed publication date or an empty one.
   */
  datatype FeedEntry = FeedEntry(title: Option<string>, link: Option<string>, summary: Option<string>, published: Option<Time>)

  /** A configured feed: the entries read from it, or the exception fetching it raised. */
  datatype Feed = Raised(source: string) | Read(source: string, entries: seq<FeedEntry>)

  /** `entry.get(key, "")`. */
  function OrEmpty(field: Option<string>): string {
    if field.Some? then field.value else ""
  }

  /** The release built for one entry; `now` is the clock reading used when the entry is undated. */
  function ReleaseOf(source: string, e: FeedEntry, now: Time): PressRelease {
    PressRelease(source, OrEmpty(e.title), OrEmpty(e.link), if e.published.Some? then e.published.value else now, OrEmpty(e.summary))
  }

  /** The releases of a feed's entries, in entry order. */
  function Releases(source: string, entries: seq<FeedEntry>, now: Time): (r: seq<PressRelease>)
    ensures |r| == |entries|
  {
    if entries == [] then []
    else Releases(source, entries[..|entries| - 1], now) + [ReleaseOf(source, entries[|entries| - 1], now)]
  }

  /**
   * Release `k` comes from entry `k`: it carries the feed's name, the entry's
   * title, link and summary ("" where missing), and the entry's date, or
   * `now` where it has none.
   */
  lemma {:induction false} ReleasesAt(source: string, entries: seq<FeedEntry>, now: Time)
    ensures forall k :: 0 <= k < |entries| ==>
              var r := Releases(source, entries, now)[k];
              && r.source == source
              && (entries[k].title.Some? ==> r.title == entries[k].title.value)
              && (entries[k].title.None? ==> r.title == "")
              && (entries[k].link.Some? ==> r.url == entries[k].link.value)
              && (entries[k].link.None? ==> r.url == "")
              && (entries[k].summary.Some? ==> r.summary == entries[k].summary.value)
              && (entries[k].summary.None? ==> r.summary == "")
              && (entries[k].published.Some? ==> r.publishedAt == entries[k].published.value)
              && (entries[k].published.None? ==> r.publishedAt == now)
  {
    if entries != [] {
      ReleasesAt(source, entries[..|entries| - 1], now);
    }
  }

  lemma ReleasesNext(source: string, entries: seq<FeedEntry>, i: nat, now: Time)
    requires i < |entries|
    ensures Releases(source, entries[..i + 1], now) == Releases(source, entries[..i], now) + [ReleaseOf(source, entries[i], now)]
  {
    assert entries[..i + 1][..i] == entries[..i];
  }

  /** `fetch_feed`: one release appended per entry. */
  method FetchFeed(source: string, entries: seq<FeedEntry>, now: Time) returns (releases: seq<PressRelease>)
    ensures releases == Releases(source, entries, now)
  {
    releases := [];
    for i := 0 to |entries|
      invariant releases == Releases(source, entries[..i], now)
    {
      ReleasesNext(source, entries, i, now);
      var entry := entries[i];
      var published := if entry.published.Some? then entry.published.value else now;
      releases := releases + [PressRelease(source, OrEmpty(entry.title), OrEmpty(entry.link), published, OrEmpty(entry.summary))];
    }
    assert entries[..|entries|] == entries;
  }

  /** The releases of the readable feeds, feed after feed; a feed that raised adds nothing. */
  function Collected(feeds: seq<Feed>, now: Time): seq<PressRelease> {
    if feeds == [] then []
    else
      var last := feeds[|feeds| - 1];
      Collected(feeds[..|feeds| - 1], now) + if last.Read? then Releases(last.source, last.entries, now) else []
  }

  lemma {:induction false} CollectedAppend(a: seq<Feed>, b: seq<Feed>, now: Time)
    ensures Collected(a + b, now) == Collected(a, now) + Collected(b, now)
    decreases |b|
  {
    if b == [] {
      assert a + b == a;
    } else {
      var init, last := b[..|b| - 1], b[|b| - 1];
      calc {
        Collected(a + b, now);
      == { assert a + b == (a + init) + [last]; }
        Collected((a + init) + [last], now);
      == { CollectedSnoc(a + init, last, now); }
        Collected(a + init, now) + Collected([last], now);
      == { CollectedAppend(a, init, now); }
        (Collected(a, now) + Collected(init, now)) + Collected([last], now);
      ==
        Collected(a, now) + (Collected(init, now) + Collected([last], now));
      == { CollectedSnoc(init, last, now); assert b == init + [last]; }
        Collected(a, now) + Collected(b, now);
      }
    }
  }

  lemma CollectedSnoc(feeds: seq<Feed>, last: Feed, now: Time)
    ensures Collected(feeds + [last], now) == Collected(feeds, now) + Collected([last], now)
  {
    assert (feeds + [last])[..|feeds|] == feeds;
    assert [last][..0] == [];
  }

  /** A feed that raises is skipped, and the feeds around it still contribute all their releases. */
  lemma RaisingFeedSkipped(before: seq<Feed>, source: string, after: seq<Feed>, now: Time)
    ensures Collected(before + [Raised(source)] + after, now) == Collected(before, now) + Collected(after, now)
  {
    CollectedAppend(before + [Raised(source)], after, now);
    CollectedAppend(before, [Raised(source)], now);
    assert [Raised(source)][..0] == [];
  }

  /** `r` is the release built for some entry of some readable feed. */
  ghost predicate FromSomeFeed(feeds: seq<Feed>, now: Time, r: PressRelease) {
    exists k, i :: 0 <= k < |feeds| && feeds[k].Read? && 0 <= i < |feeds[k].entries| &&
                   r == ReleaseOf(feeds[k].source, feeds[k].entries[i], now)
  }

  /** Every collected release was built for an entry of a readable feed. */
  lemma {:induction false} CollectedSound(feeds: seq<Feed>, now: Time, r: PressRelease)
    requires r in Collected(feeds, now)
    ensures FromSomeFeed(feeds, now, r)
  {
    var n := |feeds| - 1;
    var init := feeds[..n];
    var last := feeds[n];
    if r in Collected(init, now) {
      CollectedSound(init, now, r);
      var k, i :| 0 <= k < |init| && init[k].Read? && 0 <= i < |init[k].entries| &&
                  r == ReleaseOf(init[k].source, init[k].entries[i], now);
      assert feeds[k] == init[k];
    } else {
      var own := Releases(last.source, last.entries, now);
      ReleasesAt(last.source, last.entries, now);
      var i :| 0 <= i < |own| && own[i] == r;
      assert r == ReleaseOf(feeds[n].source, feeds[n].entries[i], now);
    }
  }

  /** Every entry of every readable feed gives a collected release. */
  lemma {:induction false} CollectedComplete(feeds: seq<Feed>, now: Time, k: nat, i: nat)
    requires k < |feeds| && feeds[k].Read? && i < |feeds[k].entries|
    ensures ReleaseOf(feeds[k].source, feeds[k].entries[i], now) in Collected(feeds, now)
  {
    var n := |feeds| - 1;
    var init := feeds[..n];
    if k < n {
      assert init[k] == feeds[k];
      CollectedComplete(init, now, k, i);
    } else {
      ReleasesAt(feeds[n].source, feeds[n].entries, now);
      assert Releases(feeds[n].source, feeds[n].entries, now)[i] == ReleaseOf(feeds[k].source, feeds[k].entries[i], now);
    }
  }

  /** The collected releases are exactly those of the entries of the readable feeds. */
  lemma CollectedExactly(feeds: seq<Feed>, now: Time)
    ensures forall r :: r in Collected(feeds, now) <==> FromSomeFeed(feeds, now, r)
  {
    forall r ensures r in Collected(feeds, now) <==> FromSomeFeed(feeds, now, r) {
      if r in Collected(feeds, now) {
        CollectedSound(feeds, now, r);
      }
      if FromSomeFeed(feeds, now, r) {
        var k, i :| 0 <= k < |feeds| && feeds[k].Read? && 0 <= i < |feeds[k].entries| &&
                    r == ReleaseOf(feeds[k].source, feeds[k].entries[i], now);
        CollectedComplete(feeds, now, k, i);
      }
    }
  }

  /** The release's title or summary, lower-cased, contains the lower-cased firm name. */
  predicate Mentions(firmLower: string, r: PressRelease) {
    Contains(Lower(r.title), firmLower) || Contains(Lower(r.summary), firmLower)
  }

  /** The comprehension of `search_releases`. */
  function Mentioning(releases: seq<PressRelease>, firmLower: string): seq<PressRelease> {
    Filter(releases, (r: PressRelease) => Mentions(firmLower, r))
  }

  /** `matched.sort(key=lambda x: x.published_at, reverse=True)`: a stable sort, later dates first. */
  predicate LaterFirst(a: PressRelease, b: PressRelease) {
    a.publishedAt >= b.publishedAt
  }

  lemma LaterFirstIsPreorder()
    ensures TotalPreorder(LaterFirst)
  {
  }

  /** What `search_releases` returns. */
  function Matched(firmName: string, feeds: seq<Feed>, now: Time): seq<PressRelease> {
    SortBy(Mentioning(Collected(feeds, now), Lower(firmName)), LaterFirst)
  }

  lemma CollectedNext(feeds: seq<Feed>, i: nat, now: Time)
    requires i < |feeds|
    ensures Collected(feeds[..i + 1], now)
            == Collected(feeds[..i], now) + if feeds[i].Read? then Releases(feeds[i].source, feeds[i].entries, now) else []
  {
    assert feeds[..i + 1][..i] == feeds[..i];
  }

  /** `search_releases`: gather the releases of every feed that can be read, keep the mentions, newest first. */
  method SearchReleases(firmName: string, feeds: seq<Feed>, now: Time) returns (matched: seq<PressRelease>)
    ensures matched == Matched(firmName, feeds, now)
  {
    var allReleases: seq<PressRelease> := [];
    for i := 0 to |feeds|
      invariant allReleases == Collected(feeds[..i], now)
    {
      CollectedNext(feeds, i, now);
      if feeds[i].Raised? {
        continue;
      }
      var releases := FetchFeed(feeds[i].source, feeds[i].entries, now);
      allReleases := allReleases + releases;
    }
    assert feeds[..|feeds|] == feeds;
    var firmLower := Lower(firmName);
    matched := Mentioning(allReleases, firmLower);
    matched := SortBy(matched, LaterFirst);
  }

  /**
   * The search returns exactly the releases of the readable feeds whose
   * lower-cased title or summary contains the lower-cased firm name.
   */
  lemma MatchedExactly(firmName: string, feeds: seq<Feed>, now: Time)
    ensures forall r :: r in Matched(firmName, feeds, now) <==> FromSomeFeed(feeds, now, r) && Mentions(Lower(firmName), r)
  {
    var all := Collected(feeds, now);
    CollectedExactly(feeds, now);
    FilterMembers(all, (r: PressRelease) => Mentions(Lower(firmName), r));
    SortByMembers(Mentioning(all, Lower(firmName)), LaterFirst);
  }

  /**
   * The result is ordered by publication time, latest first, lists each
   * matching release as often as the feeds do, and releases published at the
   * same time keep their feed order.
   */
  lemma MatchedNewestFirst(firmName: string, feeds: seq<Feed>, now: Time)
    ensures var m := Matched(firmName, feeds, now);
            && (forall i, j :: 0 <= i < j < |m| ==> m[i].publishedAt >= m[j].publishedAt)
            && multiset(m) == multiset(Mentioning(Collected(feeds, now), Lower(firmName)))
            && forall z :: SameKey(m, z, LaterFirst) == SameKey(Mentioning(Collected(feeds, now), Lower(firmName)), z, LaterFirst)
  {
    var found := Mentioning(Collected(feeds, now), Lower(firmName));
    LaterFirstIsPreorder();
    SortBySorted(found, LaterFirst);
    forall z ensures SameKey(SortBy(found, LaterFirst), z, LaterFirst) == SameKey(found, z, LaterFirst) {
      SortByStable(found, z, LaterFirst);
    }
  }
}
