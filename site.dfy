/**
 * The web site as the crawler sees it. `getPage` issues an HTTP GET and loads
 * the body with cheerio; here the site is a finite map from URL to the parts of
 * a page the selectors pick out, and a URL missing from the map is a request
 * that fails (the promise of `getPage` rejects, which aborts the whole crawl).
 */
module Site {
  import opened Wrappers

  type Url = string

  /** One `#offers_table table` row of a results page: the texts and the `href` its inner selectors read. */
  datatype Ad = Ad(linkText: string, priceText: string, href: Option<string>)

  /** A results page: its rows in document order and the `href` of `a[data-cy="page-link-next"]`, if present. */
  datatype ResultsPage = ResultsPage(ads: seq<Ad>, next: Option<Url>)

  /** One `.descriptioncontent table.item` row: the untrimmed `th` and `td` texts. */
  datatype TableRow = TableRow(th: string, td: string)

  /** One `.photo-glow img` element; `src` is absent when the element has no such attribute. */
  datatype Image = Image(src: Option<string>)

  /** What `moment` makes of the date text: a valid date, or the empty string when invalid. */
  datatype DateValue = NoDate | Date(epochMillis: int)

  /**
   * A detail page, as the texts of the selectors `getDetails` reads, in the order it reads them.
   * `parsedDate` is the outcome of the locale-dependent `moment` parse of the matched date text.
   */
  datatype DetailPage = DetailPage(
    titleText: string,      // div.offer-titlebox h1
    strongText: string,     // .offer-titlebox__details strong
    emText: string,         // .offer-titlebox__details em
    parsedDate: DateValue,
    smallText: string,      // .offer-titlebox__details small
    rows: seq<TableRow>,    // .descriptioncontent table.item
    contentText: string,    // #textContent
    sellerText: string,     // .offer-user__details
    images: seq<Image>)     // .photo-glow img

  datatype Web = Web(results: map<Url, ResultsPage>, details: map<Url, DetailPage>)

  /** Everything that aborts the crawl. */
  datatype Error =
    | FetchFailed(url: Url)      // the request for url reported an error
    | NoOperatorInput            // a question was asked and no answer line remains
    | MissingHref                // `.attr('href')` gave undefined, so `.replace` throws
    | DateNotFound(url: Url)     // the date regex did not match, so `dateParts[0]` throws
    | IdNotFound(url: Url)       // the id regex did not match, so `idParts[0]` throws
}
