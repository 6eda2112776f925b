/**
 * `getAdsFromPage`: collect the rows of a results page, and while the page has
 * a "next page" link and the operator confirms, append the rows of the pages
 * that follow.
 */
module Listing {
  import opened Wrappers
  import opened Site
  import opened Gate

  /** One `Page N: found K` log line, with the URL that page was fetched from. */
  datatype Visit = Visit(page: nat, url: Url, found: nat)

  /** The rows collected, the pages visited in order, and the answer lines not yet read. */
  datatype Crawled = Crawled(ads: seq<Ad>, visits: seq<Visit>, rest: seq<string>)

  /** The recursion of `getAdsFromPage(url, page)` as a function. */
  function Crawl(web: Web, url: Url, page: nat, automatic: bool, answers: seq<string>): Result<Crawled, Error>
    decreases |answers|
  {
    if url !in web.results then Failure(FetchFailed(url))
    else
      var p := web.results[url];
      var here := Visit(page, url, |p.ads|);
      if p.next.None? then Success(Crawled(p.ads, [here], answers))
      else if answers == [] then Failure(NoOperatorInput)
      else if !Confirm(automatic, answers[0]) then Success(Crawled(p.ads, [here], answers[1..]))
      else
        match Crawl(web, p.next.value, page + 1, automatic, answers[1..])
        case Failure(e) => Failure(e)
        case Success(c) => Success(Crawled(p.ads + c.ads, [here] + c.visits, c.rest))
  }

  /** The rows of the visited pages, page after page, each in document order. */
  function AdsOf(web: Web, visits: seq<Visit>): seq<Ad>
    requires forall i :: 0 <= i < |visits| ==> visits[i].url in web.results
  {
    if visits == [] then [] else web.results[visits[0].url].ads + AdsOf(web, visits[1..])
  }

  /** The sum of the counts the log lines report. */
  function TotalFound(visits: seq<Visit>): nat
  {
    if visits == [] then 0 else visits[0].found + TotalFound(visits[1..])
  }

  /** Every visited page was fetched, the pages are numbered from `page` up by one, and each log line counts its page's rows. */
  predicate Numbered(web: Web, visits: seq<Visit>, page: nat) {
    forall i :: 0 <= i < |visits| ==>
      visits[i].url in web.results && visits[i].page == page + i
      && visits[i].found == |web.results[visits[i].url].ads|
  }

  /** Visited page i links to page i + 1, and the answer read for page i confirmed. */
  predicate FollowedAt(web: Web, visits: seq<Visit>, automatic: bool, answers: seq<string>, i: nat)
    requires i + 1 < |visits| && visits[i].url in web.results
  {
    web.results[visits[i].url].next == Some(visits[i + 1].url)
    && i < |answers| && Confirm(automatic, answers[i])
  }

  /** Each visited page but the last links to its successor, and the answer read for it confirmed. */
  predicate Followed(web: Web, visits: seq<Visit>, automatic: bool, answers: seq<string>)
    requires forall i :: 0 <= i < |visits| ==> visits[i].url in web.results
  {
    forall i: nat | i + 1 < |visits| :: FollowedAt(web, visits, automatic, answers, i)
  }

  /**
   * The crawl stops at page k = |visits| - 1: either it has no next link and
   * no answer is read for it, or its answer declined.
   */
  predicate Stopped(web: Web, visits: seq<Visit>, automatic: bool, answers: seq<string>, rest: seq<string>)
    requires |visits| >= 1 && visits[|visits| - 1].url in web.results
  {
    var k := |visits| - 1;
    var last := web.results[visits[k].url];
    || (last.next.None? && k <= |answers| && rest == answers[k..])
    || (last.next.Some? && k < |answers| && !Confirm(automatic, answers[k]) && rest == answers[k + 1..])
  }

  /**
   * What a successful crawl from url is: a chain of visited pages starting at
   * url and numbered from `page` up by one, where each page but the last has a
   * next link to its successor and the answer read for it confirmed, and the
   * last page either has no next link (no answer read) or its answer declined.
   * The rows are those of the visited pages, in order.
   */
  lemma {:induction false} CrawlShape(web: Web, url: Url, page: nat, automatic: bool, answers: seq<string>, c: Crawled)
    requires Crawl(web, url, page, automatic, answers) == Success(c)
    ensures |c.visits| >= 1 && c.visits[0].url == url
    ensures Numbered(web, c.visits, page)
    ensures Followed(web, c.visits, automatic, answers)
    ensures Stopped(web, c.visits, automatic, answers, c.rest)
    ensures c.ads == AdsOf(web, c.visits)
    decreases |answers|
  {
    var p := web.results[url];
    var here := Visit(page, url, |p.ads|);
    if p.next.Some? && Confirm(automatic, answers[0]) {
      var next := p.next.value;
      var c' := Crawl(web, next, page + 1, automatic, answers[1..]).value;
      CrawlShape(web, next, page + 1, automatic, answers[1..], c');
      assert c.visits == [here] + c'.visits;
      assert c.visits[1..] == c'.visits;
      assert Numbered(web, c.visits, page) by {
        forall i | 1 <= i < |c.visits|
          ensures c.visits[i].url in web.results && c.visits[i].page == page + i
            && c.visits[i].found == |web.results[c.visits[i].url].ads|
        {
          assert c.visits[i] == c'.visits[i - 1];
        }
      }
      assert Followed(web, c.visits, automatic, answers) by {
        forall i: nat | 1 <= i && i + 1 < |c.visits|
          ensures FollowedAt(web, c.visits, automatic, answers, i)
        {
          assert FollowedAt(web, c'.visits, automatic, answers[1..], i - 1);
          assert c.visits[i] == c'.visits[i - 1] && c.visits[i + 1] == c'.visits[i];
          assert answers[i] == answers[1..][i - 1];
        }
      }
      var k := |c.visits| - 1;
      assert c.visits[k] == c'.visits[k - 1];
      assert answers[1..][k - 1..] == answers[k..];
      if k < |answers| {
        assert answers[1..][k..] == answers[k + 1..];
      }
    }
  }

  /** The number of rows collected equals the sum of the counts over the visited pages. */
  lemma {:induction false} AdsOfLength(web: Web, visits: seq<Visit>)
    requires forall i :: 0 <= i < |visits| ==> visits[i].url in web.results
    requires forall i :: 0 <= i < |visits| ==> visits[i].found == |web.results[visits[i].url].ads|
    ensures |AdsOf(web, visits)| == TotalFound(visits)
  {
    if visits != [] {
      AdsOfLength(web, visits[1..]);
    }
  }

  /** The crawl's rows number exactly the sum of the per-page counts it logs. */
  lemma CrawlLength(web: Web, url: Url, page: nat, automatic: bool, answers: seq<string>)
    requires Crawl(web, url, page, automatic, answers).Success?
    ensures var c := Crawl(web, url, page, automatic, answers).value;
      |c.ads| == TotalFound(c.visits)
  {
    var c := Crawl(web, url, page, automatic, answers).value;
    CrawlShape(web, url, page, automatic, answers, c);
    AdsOfLength(web, c.visits);
  }

  /**
   * Three pages with 3, 2 and 0 rows, the last without a next link, and an
   * operator who confirms: five rows in page order, three pages visited, and
   * no answer read after the last page.
   */
  lemma {:induction false} ThreePages(a1: Ad, a2: Ad, a3: Ad, b1: Ad, b2: Ad)
    ensures var web := Web(map["p1" := ResultsPage([a1, a2, a3], Some("p2")),
                                "p2" := ResultsPage([b1, b2], Some("p3")),
                                "p3" := ResultsPage([], None)], map[]);
      Crawl(web, "p1", 1, false, ["y", "", "n"])
        == Success(Crawled([a1, a2, a3, b1, b2], [Visit(1, "p1", 3), Visit(2, "p2", 2), Visit(3, "p3", 0)], ["n"]))
  {
    var web := Web(map["p1" := ResultsPage([a1, a2, a3], Some("p2")),
                       "p2" := ResultsPage([b1, b2], Some("p3")),
                       "p3" := ResultsPage([], None)], map[]);
    assert ["y", "", "n"][1..] == ["", "n"] && ["", "n"][1..] == ["n"];
    assert web.results["p1"].next == Some("p2") && web.results["p2"].next == Some("p3");
    assert web.results["p2"].ads == [b1, b2] && web.results["p3"] == ResultsPage([], None);
    assert [b1, b2] + [] == [b1, b2] && [a1, a2, a3] + [b1, b2] == [a1, a2, a3, b1, b2];
    assert Crawl(web, "p3", 3, false, ["n"]) == Success(Crawled([], [Visit(3, "p3", 0)], ["n"]));
    assert Confirm(false, ["", "n"][0]) && Confirm(false, ["y", "", "n"][0]);
    assert [Visit(2, "p2", 2)] + [Visit(3, "p3", 0)] == [Visit(2, "p2", 2), Visit(3, "p3", 0)];
    assert [Visit(1, "p1", 3)] + [Visit(2, "p2", 2), Visit(3, "p3", 0)] == [Visit(1, "p1", 3), Visit(2, "p2", 2), Visit(3, "p3", 0)];
    assert Crawl(web, "p2", 2, false, ["", "n"]) == Success(Crawled([b1, b2], [Visit(2, "p2", 2), Visit(3, "p3", 0)], ["n"]));
  }

  /** `getAdsFromPage(url, page)`: push the current page's rows, then maybe recurse on the next page. */
  method GetAdsFromPage(web: Web, url: Url, page: nat, automatic: bool, answers: seq<string>)
    returns (r: Result<Crawled, Error>)
    ensures r == Crawl(web, url, page, automatic, answers)
    decreases |answers|
  {
    if url !in web.results {
      return Failure(FetchFailed(url));
    }
    var p := web.results[url];
    var result: seq<Ad> := [];
    for i := 0 to |p.ads|
      invariant result == p.ads[..i]
    {
      result := result + [p.ads[i]];
    }
    assert p.ads[..|p.ads|] == p.ads;
    var visits := [Visit(page, url, |p.ads|)];
    var rest := answers;
    if p.next.Some? {
      if rest == [] {
        return Failure(NoOperatorInput);
      }
      var yes := Confirm(automatic, rest[0]);
      rest := rest[1..];
      if yes {
        var nextAds := GetAdsFromPage(web, p.next.value, page + 1, automatic, rest);
        if nextAds.Failure? {
          return Failure(nextAds.error);
        }
        result := result + nextAds.value.ads;
        visits := visits + nextAds.value.visits;
        rest := nextAds.value.rest;
      }
    }
    return Success(Crawled(result, visits, rest));
  }
}
