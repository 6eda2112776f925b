# Listing crawler: a Dafny model of its decision and extraction logic

The crawler walks the result pages of a real-estate listing site. It asks an
operator before following each "next page" link and before opening each
listing. For every opened listing it reads a fixed set of fields from the
detail page, and it returns the offers it collected, in order.

This project models the deterministic part of `parser.js` over abstract
inputs:

- The site is a map from URL to page (`Site.Web`). A results page is its rows
  plus an optional next-page URL. A detail page is the raw texts its selectors
  pick out. A URL missing from the map is a failed request.
- The operator is a scripted sequence of answer lines. Each question reads one
  line, even in automatic mode, because the answer callback runs only after a
  line is read.
- Exceptions that abort the crawl are `Failure` values of `Site.Error`. A
  failure carries no partial results, since the source unwinds past them.
- The log lines `Page N: found K` and `left: N ads` are returned as traces
  (`Listing.Visit`, `Crawler.Tally.left`).

Modules, leaf first:

- `Wrappers`: `Option` and `Result`.
- `Text`: the JavaScript built-ins used: `trim`, `split` on one character, and
  the regexes `\d{6,}`, `\.html.*` and the date pattern.
- `Site`: pages, the site and the error kinds.
- `Gate`: the answer predicate of `askQuestion`.
- `Listing`: `getAdsFromPage`, as the spec function `Crawl` and the recursive
  method `GetAdsFromPage` with its push loop.
- `Details`: `getDetails`, as the spec function `DetailsOf` and the method
  `GetDetails` with its table loop and photo loop.
- `Crawler`: href normalisation and `run`, as the spec function `RunOf` and the
  method `Run` with its loop.

Two places where the code does less than it appears to:

- No id match. The `|| ''` in `id = idParts[0] || ''` suggests an empty id
  when nothing matches. In fact `match` then returns `null`, so `idParts[0]`
  throws and the crawl aborts (`IdNotFound`). A match has at least six
  characters, so the fallback never applies.
- Href normalisation. `\.html.*` looks as if it drops everything after the
  first `.html`. But `.` does not match line terminators, so text from the
  first line terminator after `.html` onward survives.
  `Crawler.NormalizeHrefSpec` proves that nothing survives when the href holds
  no line terminator after `.html`, which is the case for ordinary URLs.

## Model

| member | source | states |
|---|---|---|
| Gate.ConfirmAnswers | parser.js:24-28 | automatic mode always confirms; otherwise an answer confirms exactly when it is "" or "y", so "Y", "yes", "n" and " " decline |
| Text.TrimSpec | parser.js:109 | `trim` gives the slice of the text between its leading and trailing white space; it neither starts nor ends with white space, and only white space is cut off |
| Text.TrimIdempotent | parser.js:111 | trimming an already trimmed text changes nothing |
| Text.Split | parser.js:109 | `split(',')` gives one part more than there are commas; no part holds a comma; joining the parts with commas gives the text back |
| Text.SplitUnique | parser.js:109 | any comma-free parts that join to a text are exactly that text's split, so a split is determined by the comma positions |
| Text.MatchDigits | parser.js:122 | the regex `\d{n,}` finds nothing exactly when no n digits stand together; otherwise it finds the leftmost such run, whole and of length at least n |
| Listing.CrawlShape | parser.js:66-85 | a successful crawl visits a chain of pages from the start URL, numbered from the start page up by one. Each page but the last links to the next and its answer confirmed. The last page has no next link (no answer read) or its answer declined. The rows are the visited pages' rows, page after page |
| Listing.CrawlLength | parser.js:71-81 | the number of rows collected is the sum of the per-page counts that are logged |
| Listing.ThreePages | parser.js:66-85 | pages of 3, 2 and 0 rows, the last with no next link, with the operator confirming: five rows in page order, three pages visited, and the third answer left unread |
| Listing.GetAdsFromPage | parser.js:66-85 | the recursive method with its push loop returns exactly what `Crawl` specifies, errors included |
| Details.DistrictThirdSegment | parser.js:109-112 | when the trimmed location text is `a,b,seg` followed by nothing or a comma, the district is `seg` trimmed, or "" when `seg` is empty |
| Details.DistrictMissing | parser.js:109-112 | with fewer than two commas in the trimmed location text, the district stays "" |
| Details.IdOf | parser.js:122-123 | the id regex has no match exactly when no six digits stand together in the trimmed text (then `idParts[0]` throws); a match is at least six ASCII digits and is the leftmost whole run of digits in the trimmed text: no six digits start before it and no digit stands just before or after it |
| Details.StepRowField | parser.js:129-137 | one table row sets only the dedicated field whose label equals its trimmed label exactly; the other three keep their values |
| Details.FoldRowsProps | parser.js:125-140 | `props` has exactly one entry per table row, in row order, holding that row's trimmed label and value, whether or not the label is special |
| Details.FoldRowsField | parser.js:129-137 | each dedicated field holds the value of the last row whose trimmed label equals its label exactly, and stays "" when no row's label does |
| Details.SourcesSpec | parser.js:145-148 | `photos` has one entry per gallery image, in order and with duplicates kept: that image's `src` |
| Details.DetailsOf | parser.js:93-164 | `getDetails` succeeds exactly when the page is fetched, the date regex matches and the id regex matches. On success `props` has one entry per row, `photos` one per image, and the id has at least six characters |
| Details.ReadTable | parser.js:125-140 | the table loop's `props` and its four overwritten fields are the fold that the two lemmas above characterise |
| Details.CollectPhotos | parser.js:145-148 | the gallery loop yields the `src` list that `SourcesSpec` characterises |
| Details.GetDetails | parser.js:93-164 | the method, in the source's order of reads and throws, returns exactly `DetailsOf` |
| Crawler.NormalizeHrefSpec | parser.js:187 | an href without ".html" is unchanged. Otherwise the prefix up to and including the first ".html" is kept, and nothing else remains when no line terminator follows |
| Crawler.NormalizeHrefIdempotent | parser.js:187 | normalising twice is the same as normalising once |
| Crawler.AcceptedBounds | parser.js:179-183 | at most as many ads are accepted as there are; none when every answer declines; all when every answer confirms |
| Crawler.OpenAdsShape | parser.js:176-196 | a completed loop reads one answer per ad. The `--total` values count down from total - 1 once per ad, accepted or declined. There is exactly one offer per accepted ad, in order, and each is the offer built from that ad |
| Crawler.OpenAdsFailure | parser.js:179-196 | once the loop has thrown on an ad, the later ads change nothing: the crawl ends with that error |
| Crawler.RunShape | parser.js:172-199 | a completed run keeps exactly the confirmed rows as offers, in order, at most one per row found. `total` is decremented once per row and ends at 0. Declining every row gives no offers |
| Crawler.OpenAd | parser.js:180-195 | one loop iteration: read an answer; skip on decline; otherwise read price and href, normalise the href and fetch the details. Its result is the step that `OpenAds` specifies |
| Crawler.Run | parser.js:172-199 | the `for ... of` loop over the collected rows returns exactly `RunOf`: the crawl followed by the per-ad loop with the counter starting at the number of rows |

## Left out

- `getPage` (parser.js:39-57): the HTTP request, its User-Agent header and `cheerio.load` with `decodeEntities: false`. A page is an abstract value, and a failed request is a URL missing from the site map. A non-2xx answer still yields a page, as in the source.
- CSS selector evaluation: the texts, row lists and attributes each selector would yield are given as fields of the page values.
- A next-page anchor without an `href` (the source then calls `getPage(undefined)`): the next link is modelled as a URL or nothing.
- readline I/O in `askQuestion` (parser.js:9-12, 22-23) and the prompt texts: only the answer predicate and the consumption of one line per question are modelled. A question with no line left is the error `NoOperatorInput`; the source would block forever there.
- Date parsing with `moment` and the global locale switch (parser.js:114-120): only the throw condition is modelled (`Text.HasDateMatch`: if `\d{1,} .+? \d{4}` finds nothing, `dateParts[0]` throws). The parsed value is given as the page's `parsedDate`.
- `console.log` of `Total ads found` (parser.js:177): that count is the `found` field of the result; the other log lines are returned as traces.
- The rethrowing wrapper (parser.js:201-208) and index.js, which only call `run` with a fixed URL and exit.
- `Object.assign` (parser.js:192) is modelled as an offer that holds the price, the href and the detail record side by side; the detail object has no `price` or `href` key, so nothing is overwritten.
