/**
 * `run`: gather the rows of every confirmed results page, then for each row
 * ask whether to open it; an opened row becomes an offer (its price and
 * normalised href merged with the details of its page), a declined one is
 * skipped, and the `total` counter counts down once per row either way.
 */
module Crawler {
  import opened Wrappers
  import opened Text
  import opened Site
  import opened Gate
  import opened Listing
  import opened Details

  const HTML: string := ".html"

  /**
   * `href.replace` of the regex `\.html.*` by ".html": the first ".html" and what follows it
   * up to the next line terminator (the regex `.` stops there) become ".html".
   */
  function NormalizeHref(href: string): string
  {
    match IndexOf(href, HTML, 0)
    case None => href
    case Some(i) => href[..i + |HTML|] + href[LineEnd(href, i + |HTML|)..]
  }

  /**
   * A string without ".html" is unchanged. Otherwise the prefix up to and
   * including the first ".html" is kept, and when no line terminator follows
   * it (as in any ordinary URL) nothing else remains.
   */
  lemma NormalizeHrefSpec(href: string)
    ensures IndexOf(href, HTML, 0).None? ==> NormalizeHref(href) == href
    ensures IndexOf(href, HTML, 0).Some? ==>
      var i := IndexOf(href, HTML, 0).value;
      && NormalizeHref(href)[..i + |HTML|] == href[..i + |HTML|]
      && NormalizeHref(href)[i..i + |HTML|] == HTML
      && ((forall k :: i < k < |href| ==> !IsLineTerminator(href[k])) ==> NormalizeHref(href) == href[..i + |HTML|])
  {
    match IndexOf(href, HTML, 0)
    case None =>
    case Some(i) =>
      var r := NormalizeHref(href);
      var e := LineEnd(href, i + |HTML|);
      assert r[..i + |HTML|] == href[..i + |HTML|];
      assert r[i..i + |HTML|] == href[i..i + |HTML|];
      if forall k :: i < k < |href| ==> !IsLineTerminator(href[k]) {
        assert e == |href|;
      }
  }

  /** Normalising a normalised href changes nothing. */
  lemma NormalizeHrefIdempotent(href: string)
    ensures NormalizeHref(NormalizeHref(href)) == NormalizeHref(href)
  {
    match IndexOf(href, HTML, 0)
    case None =>
    case Some(i) =>
      var r := NormalizeHref(href);
      var n := i + |HTML|;
      var e := LineEnd(href, n);
      assert r[..n] == href[..n];
      assert OccursAt(r, HTML, i) by {
        assert r[i..n] == href[i..n];
      }
      forall j | 0 <= j < i
        ensures !OccursAt(r, HTML, j)
      {
        assert !OccursAt(href, HTML, j);
        assert r[j..j + |HTML|] == href[j..j + |HTML|];
      }
      assert IndexOf(r, HTML, 0) == Some(i) by {
        IndexOfLeftmost(r, HTML, 0, i);
      }
      assert LineEnd(r, n) == n by {
        assert r[n..] == href[e..];
      }
      assert r[..n] + r[n..] == r;
  }

  /** When pat occurs at i and nowhere in [from, i), IndexOf finds i. */
  lemma {:induction false} IndexOfLeftmost(s: string, pat: string, from: nat, i: nat)
    requires from <= i <= |s| && OccursAt(s, pat, i)
    requires forall j :: from <= j < i ==> !OccursAt(s, pat, j)
    ensures IndexOf(s, pat, from) == Some(i)
    decreases i - from
  {
    if from < i {
      IndexOfLeftmost(s, pat, from + 1, i);
    }
  }

  /** The merged object pushed onto `result`: `price`, `href` and the fields of `getDetails`. */
  datatype Offer = Offer(price: string, href: string, detail: Detail)

  /** Build the offer for one opened row: read price and href, then fetch the details at the normalised href. */
  function OfferFor(web: Web, ad: Ad): Result<Offer, Error>
  {
    match ad.href
    case None => Failure(MissingHref)
    case Some(h) =>
      var href := NormalizeHref(h);
      match DetailsOf(web, href)
      case Failure(e) => Failure(e)
      case Success(d) => Success(Offer(Trim(ad.priceText), href, d))
  }

  /** The state of `run`'s loop: offers so far, the `left: N ads` values logged, and unread answers. */
  datatype Tally = Tally(offers: seq<Offer>, left: seq<int>, rest: seq<string>)

  /** One iteration for ad, when `left` is the value `--total` produces for it. */
  function StepAd(web: Web, automatic: bool, t: Tally, ad: Ad, left: int): Result<Tally, Error>
  {
    if t.rest == [] then Failure(NoOperatorInput)
    else if !Confirm(automatic, t.rest[0]) then Success(Tally(t.offers, t.left + [left], t.rest[1..]))
    else
      match OfferFor(web, ad)
      case Failure(e) => Failure(e)
      case Success(o) => Success(Tally(t.offers + [o], t.left + [left], t.rest[1..]))
  }

  /** The loop over ads, with the counter starting at total; the first error aborts it. */
  function OpenAds(web: Web, automatic: bool, ads: seq<Ad>, answers: seq<string>, total: int): Result<Tally, Error>
  {
    if ads == [] then Success(Tally([], [], answers))
    else
      match OpenAds(web, automatic, ads[..|ads| - 1], answers, total)
      case Failure(e) => Failure(e)
      case Success(t) => StepAd(web, automatic, t, ads[|ads| - 1], total - |ads|)
  }

  /** The ads whose answer confirmed, in their original order (answer i goes with ad i). */
  function Accepted(automatic: bool, ads: seq<Ad>, answers: seq<string>): seq<Ad>
    requires |ads| <= |answers|
  {
    if ads == [] then []
    else
      var n := |ads| - 1;
      Accepted(automatic, ads[..n], answers) + (if Confirm(automatic, answers[n]) then [ads[n]] else [])
  }

  /** Accepted keeps a sub-sequence: never more ads than there are, and none when every answer declines. */
  lemma {:induction false} AcceptedBounds(automatic: bool, ads: seq<Ad>, answers: seq<string>)
    requires |ads| <= |answers|
    ensures |Accepted(automatic, ads, answers)| <= |ads|
    ensures (forall i :: 0 <= i < |ads| ==> !Confirm(automatic, answers[i])) ==> Accepted(automatic, ads, answers) == []
    ensures (forall i :: 0 <= i < |ads| ==> Confirm(automatic, answers[i])) ==> Accepted(automatic, ads, answers) == ads
  {
    if ads != [] {
      var n := |ads| - 1;
      AcceptedBounds(automatic, ads[..n], answers);
      assert ads[..n] + [ads[n]] == ads;
    }
  }

  /**
   * What a completed loop is: one answer read per ad, the `left` log counting
   * down from total - 1 once per ad whether accepted or not, and exactly one
   * offer per accepted ad, in order, each the offer built from that ad.
   */
  lemma {:induction false} OpenAdsShape(web: Web, automatic: bool, ads: seq<Ad>, answers: seq<string>, total: int, t: Tally)
    requires OpenAds(web, automatic, ads, answers, total) == Success(t)
    ensures |ads| <= |answers| && t.rest == answers[|ads|..]
    ensures |t.left| == |ads| && forall i :: 0 <= i < |ads| ==> t.left[i] == total - 1 - i
    ensures |t.offers| == |Accepted(automatic, ads, answers)|
    ensures forall j :: 0 <= j < |t.offers| ==> OfferFor(web, Accepted(automatic, ads, answers)[j]) == Success(t.offers[j])
  {
    if ads != [] {
      var n := |ads| - 1;
      var t0 := OpenAds(web, automatic, ads[..n], answers, total).value;
      OpenAdsShape(web, automatic, ads[..n], answers, total, t0);
      assert answers[n..][1..] == answers[n + 1..];
      assert ads[..n][..n] == ads[..n];
    }
  }

  /** Once the loop has failed, processing more ads does not undo the failure. */
  lemma {:induction false} OpenAdsFailure(web: Web, automatic: bool, ads: seq<Ad>, k: nat, answers: seq<string>, total: int)
    requires k <= |ads| && OpenAds(web, automatic, ads[..k], answers, total).Failure?
    ensures OpenAds(web, automatic, ads, answers, total) == OpenAds(web, automatic, ads[..k], answers, total)
    decreases |ads| - k
  {
    if k < |ads| {
      assert ads[..k + 1][..k] == ads[..k];
      OpenAdsFailure(web, automatic, ads, k + 1, answers, total);
    } else {
      assert ads[..k] == ads;
    }
  }

  /** The whole crawl: the visited pages, the number of rows found, and the loop's tally. */
  datatype Ran = Ran(visits: seq<Visit>, found: nat, tally: Tally)

  /** `run(url)`: pagination from page 1, then the loop over every row found with the counter at that count. */
  function RunOf(web: Web, url: Url, automatic: bool, answers: seq<string>): Result<Ran, Error>
  {
    match Crawl(web, url, 1, automatic, answers)
    case Failure(e) => Failure(e)
    case Success(c) =>
      match OpenAds(web, automatic, c.ads, c.rest, |c.ads|)
      case Failure(e) => Failure(e)
      case Success(t) => Success(Ran(c.visits, |c.ads|, t))
  }

  /**
   * A completed run keeps exactly the confirmed rows as offers, in order, at
   * most one per row found; the counter is decremented once per row and ends
   * at 0; declining every row gives no offers.
   */
  lemma RunShape(web: Web, url: Url, automatic: bool, answers: seq<string>, r: Ran)
    requires RunOf(web, url, automatic, answers) == Success(r)
    ensures var c := Crawl(web, url, 1, automatic, answers).value;
      && r.found == |c.ads| && |c.ads| <= |c.rest|
      && |r.tally.offers| == |Accepted(automatic, c.ads, c.rest)| <= r.found
      && (forall j :: 0 <= j < |r.tally.offers| ==>
            OfferFor(web, Accepted(automatic, c.ads, c.rest)[j]) == Success(r.tally.offers[j]))
      && |r.tally.left| == r.found
      && (r.found > 0 ==> r.tally.left[r.found - 1] == 0)
      && ((forall i :: 0 <= i < r.found ==> !Confirm(automatic, c.rest[i])) ==> r.tally.offers == [])
  {
    var c := Crawl(web, url, 1, automatic, answers).value;
    OpenAdsShape(web, automatic, c.ads, c.rest, |c.ads|, r.tally);
    AcceptedBounds(automatic, c.ads, c.rest);
  }

  /** The body of `run`'s loop for one ad, with `total` the counter before `--total`. */
  method OpenAd(web: Web, automatic: bool, t: Tally, ad: Ad, total: int) returns (r: Result<Tally, Error>)
    ensures r == StepAd(web, automatic, t, ad, total - 1)
  {
    if t.rest == [] {
      return Failure(NoOperatorInput);
    }
    var yes := Confirm(automatic, t.rest[0]);
    var rest := t.rest[1..];
    if !yes {
      return Success(Tally(t.offers, t.left + [total - 1], rest));
    }
    var price := Trim(ad.priceText);
    if ad.href.None? {
      return Failure(MissingHref);
    }
    var href := NormalizeHref(ad.href.value);
    var details := GetDetails(web, href);
    if details.Failure? {
      return Failure(details.error);
    }
    return Success(Tally(t.offers + [Offer(price, href, details.value)], t.left + [total - 1], rest));
  }

  /**
   * `run(url)` as the source writes it: a `for ... of` loop pushing offers and
   * counting `total` down. The source runs it with `automatic` set to
   * `Gate.AUTOMATIC`, that is `Run(web, url, AUTOMATIC, answers)`.
   */
  method Run(web: Web, url: Url, automatic: bool, answers: seq<string>) returns (r: Result<Ran, Error>)
    ensures r == RunOf(web, url, automatic, answers)
  {
    var crawled := GetAdsFromPage(web, url, 1, automatic, answers);
    if crawled.Failure? {
      return Failure(crawled.error);
    }
    var ads := crawled.value.ads;
    var total := |ads|;
    var tally := Tally([], [], crawled.value.rest);
    for i := 0 to |ads|
      invariant OpenAds(web, automatic, ads[..i], crawled.value.rest, |ads|) == Success(tally)
      invariant total == |ads| - i
    {
      assert ads[..i + 1][..i] == ads[..i];
      var step := OpenAd(web, automatic, tally, ads[i], total);
      if step.Failure? {
        OpenAdsFailure(web, automatic, ads, i + 1, crawled.value.rest, |ads|);
        return Failure(step.error);
      }
      tally := step.value;
      total := total - 1;
    }
    assert ads[..|ads|] == ads;
    return Success(Ran(crawled.value.visits, |ads|, tally));
  }
}
