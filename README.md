# Amazon laptop scraper: the decision logic, in Dafny

The original program drives a web browser through the laptop search results of a
retail site. It works out how many result pages there are, visits them in order, reads
five fields from every product card, keeps the cards that have a title, and writes the
records to a CSV file. This project models the decision logic of the scraper class,
with the browser replaced by the answers it gives:

- a **card** (`Fields.Card`) holds the outcome of each per-card lookup. The image source,
  heading text, rating text, primary price text and off-screen price text are each
  `None` when the element is missing. The card also holds, for each descendant element,
  the string that XPath 1.0's `contains(text(), ...)` looks at: only the element's first
  text-node child. So `Sponsored` in a later text node of the same element does not make
  the card an `Ad`;
- a **page** (`Scraper.Page`) is `TimedOut` when waiting for the product cards fails,
  or `Loaded(scrollHeight, cards)`: the document height read before scrolling and the
  cards the query returns afterwards, in document order;
- the **pagination lookup** is `None` when the wait for the pagination labels, or the
  reading of them, fails, and otherwise the labels' texts;
- the **site** is a function from page number to page;
- the **browser requests** the scraper makes (load a URL, scroll to a height) are
  recorded, in order, in the `trace` field of the scraper object. This is what lets the
  model state that no page after the stopping page is loaded.

Modules:

- `Wrappers` (wrappers.dfy): the `Option` type.
- `Text` (text.dfy): the Python string operations used. These are `strip()`,
  `split()[0]`, `isdigit()` restricted to ASCII, `int()` of a digit string, `str()` of an
  integer, and XPath `contains()`. Whitespace is the set of characters for which
  Python's `str.isspace()` is true.
- `Fields` (fields.dfy): the card and record datatypes and the five extractors with
  their sentinel fallbacks.
- `Scraper` (scraper.dfy): the search URL, scroll targets, page-count rule, per-page
  collection and pagination loop. The class `AmazonScraper` has the `products` list,
  which grows across pages, and the `trace`.

Four behaviours of the code are easy to misread; the model follows the code:

- A heading that is present but empty, or whitespace only, gives the title `""`. That
  card is kept, not treated as titleless. A heading whose text is literally `No Title` is
  dropped.
- The page count is the largest digit label even when that is `0`. So the labels
  `["0"]` give 0 pages, and the loop then visits nothing. The fallback 1 is used
  only when no label is all digits, or when the lookup fails (labels such as
  `["1", "Next"]` also give 1, but through `max`).
- The price prefix is the three characters U+00E2 U+201A U+00B9, which is how the
  source file spells it (line 141). They are the UTF-8 bytes of the rupee sign read as
  Windows-1252. The model uses them as written.
- The whitespace-only rating text reaches the sentinel through the exception handler
  (`split()[0]` raises). Empty text reaches it through the conditional.

## Model

| member | source | states |
|---|---|---|
| `Text.Strip` | amazon/amazon_scraper.py:70 | `strip()`; what it yields is given by `Text.StripSpec` and `Text.StripUnique` |
| `Text.FirstToken` | amazon/amazon_scraper.py:135 | `split()[0]`, or nothing where it raises; its contract is `Text.FirstTokenSpec` |
| `Text.StripSpec` | amazon/amazon_scraper.py:70 | `strip()` yields a slice of its input that has no whitespace at either end, with only whitespace before and after it |
| `Text.StripUnique` | amazon/amazon_scraper.py:70 | any slice with those three properties is `Strip(s)`, so `StripSpec` fully determines `strip()` |
| `Text.StripIdempotent` | amazon/amazon_scraper.py:127 | stripping twice is the same as stripping once |
| `Text.StripFixedPoint` | amazon/amazon_scraper.py:70 | `strip()` leaves a string unchanged exactly when it has no whitespace at either end |
| `Text.StripAllSpace` | amazon/amazon_scraper.py:127 | text that is all whitespace strips to the empty string |
| `Text.FirstTokenSpec` | amazon/amazon_scraper.py:135 | `split()[0]` fails exactly on whitespace-only text; otherwise it is the first word: non-empty, with no whitespace in it, whitespace before it and whitespace or the end after it |
| `Text.ContainsAt` | amazon/amazon_scraper.py:151 | XPath `contains(hay, needle)` holds exactly when `needle` occurs at some offset of `hay` (both directions) |
| `Text.DigitsRoundTrip` | amazon/amazon_scraper.py:55 | `int()` of the decimal text `str(n)` gives `n` back |
| `Text.IntToStringInjective` | amazon/amazon_scraper.py:55 | two integers have the same decimal text exactly when they are equal |
| `Scraper.SearchUrl` | amazon/amazon_scraper.py:54-55 | `get_search_url`; its contract is `Scraper.SearchUrlInjective` and `Scraper.SearchUrlPage` |
| `Scraper.SearchUrlInjective` | amazon/amazon_scraper.py:54-55 | two page numbers give the same search URL exactly when they are equal |
| `Scraper.SearchUrlPage` | amazon/amazon_scraper.py:54-55 | a search URL is the fixed query followed by digits, and those digits parse back to the page number |
| `Scraper.ScrollTargetsSpec` | amazon/amazon_scraper.py:57-60 | the targets are `(i+1)*(h//3)` for i = 0, 1, 2: three equal floor-division steps, nondecreasing, at most `h` and less than 3 short of it when `h >= 0` |
| `Scraper.AmazonScraper.ScrollPage` | amazon/amazon_scraper.py:57-61 | the three scroll requests go to the browser in order, after the earlier requests; only the trace may change, so the products are untouched |
| `Scraper.Max` | amazon/amazon_scraper.py:74-75 | `max` of a non-empty list is an element of it and is at least every element |
| `Scraper.AmazonScraper.GetTotalPages` | amazon/amazon_scraper.py:63-82 | 1 when the lookup fails and 1 when no stripped label is all digits; otherwise the number of some all-digit label that is at least the number of every all-digit label |
| `Scraper.PageCountExample` | amazon/amazon_scraper.py:67-77 | the labels 1, 2, an ellipsis, 7 and Next give 7 pages |
| `Fields.ExtractImage` | amazon/amazon_scraper.py:119-123 | `extract_image`; its contract is `Fields.ImageSpec` |
| `Fields.ExtractTitle` | amazon/amazon_scraper.py:125-129 | `extract_title`; its contract is `Fields.TitleSpec` |
| `Fields.ExtractRating` | amazon/amazon_scraper.py:131-137 | `extract_rating`; its contract is `Fields.RatingSpec` |
| `Fields.ExtractPrice` | amazon/amazon_scraper.py:139-147 | `extract_price`; its contract is `Fields.PriceSpec` |
| `Fields.CheckSponsored` | amazon/amazon_scraper.py:149-154 | `check_sponsored`; its contract is `Fields.SponsoredSpec` |
| `Fields.ExtractRecord` | amazon/amazon_scraper.py:99-105 | the record built from one card; which records are kept is given by `Fields.TitledExactly` and `Scraper.CollectedExactly` |
| `Fields.ImageSpec` | amazon/amazon_scraper.py:119-123 | the image is the `src` read, and `No Image` exactly when the image is missing (or its `src` is that literal text) |
| `Fields.TitleSpec` | amazon/amazon_scraper.py:125-129 | the title is the stripped heading text; it is `No Title` exactly when the heading is missing or strips to that literal text |
| `Fields.RatingSpec` | amazon/amazon_scraper.py:131-137 | the rating is the first word of the rating text; it is `No Rating` exactly when the element is missing or its text is empty or whitespace only |
| `Fields.PriceSpec` | amazon/amazon_scraper.py:139-147 | the primary price is the prefix followed by the stripped primary text; otherwise the off-screen text exactly as read, with no prefix; `No Price` exactly when both are missing (or the off-screen text is that literal text) |
| `Fields.SponsoredSpec` | amazon/amazon_scraper.py:149-154 | the result type is `Ad` or `Organic`, never anything else, and it is `Ad` exactly when `Sponsored` occurs in some descendant text |
| `Fields.TitledExactly` | amazon/amazon_scraper.py:107-108 | a card is kept exactly when it has a heading whose stripped text is not `No Title`; a present heading that is empty or whitespace gives a kept record with title `""` |
| `Scraper.Collected` | amazon/amazon_scraper.py:97-108 | a page contributes no more records than it has cards, and none of them has the title `No Title` |
| `Scraper.CollectedAppend` | amazon/amazon_scraper.py:97-108 | collecting from two card lists one after the other gives the records of the first list followed by the records of the second (card order is kept) |
| `Scraper.CollectedExactly` | amazon/amazon_scraper.py:97-108 | there is one record per titled card; each titled card's record is there; every record is the record of some titled card |
| `Scraper.AmazonScraper.ExtractProductsFromPage` | amazon/amazon_scraper.py:84-117 | on a timeout it answers false and changes nothing; on a loaded page it scrolls, appends exactly the titled cards' records in card order after the earlier products, and answers true |
| `Scraper.LastVisitedSpec` | amazon/amazon_scraper.py:157-165 | the loop stops no later than the last page; every page before the stopping page loaded; it stops before the last page only on a timeout; it visits nothing exactly when the start is past the last page |
| `Scraper.AllPagesLoaded` | amazon/amazon_scraper.py:157-165 | when every page loads, all pages 1..total are visited |
| `Scraper.HaltOnFirstTimeout` | amazon/amazon_scraper.py:157-165 | when page k is the first to time out, pages 1..k are visited and the records are those of pages 1..k-1 |
| `Scraper.ThirdOfFivePagesTimesOut` | amazon/amazon_scraper.py:157-165 | with 5 pages where page 3 times out: pages 1, 2 and 3 are loaded, no other page is, and the records are those of pages 1 and 2 |
| `Scraper.HarvestPrefix` | amazon/amazon_scraper.py:108 | the records of pages 1..m are a prefix of those of pages 1..n for m <= n: earlier records are never lost or reordered |
| `Scraper.SessionNavigates` | amazon/amazon_scraper.py:157-161 | while scraping pages 1..n, the URL of page q is loaded exactly when 1 <= q <= n |
| `Scraper.NoLaterPageVisited` | amazon/amazon_scraper.py:157-165 | the URL of page q is loaded exactly when q is between 1 and the stopping page: nothing later is requested and nothing earlier is skipped |
| `Scraper.AmazonScraper.ScrapeMultiplePages` | amazon/amazon_scraper.py:156-168 | the products only grow, by the records of pages 1 up to the stopping page in page order; the browser is asked to load those pages' URLs in increasing order, each followed by its scrolling |
| `Scraper.AmazonScraper.constructor` | amazon/amazon_scraper.py:51 | a new scraper starts with no products and no browser requests |

## Left out

- Browser start-up (Chrome options, user-agent, the script that hides the automation flag) and `close()` (lines 15-52, 186-187). These are process control through a library that is not part of this model.
- How elements are found and waited for. CSS and XPath matching, `WebDriverWait` polling and `TimeoutException` are represented only by their outcomes, as `Option` values and `TimedOut`.
- The `time.sleep` pauses: the randomised ones at lines 61, 162 and 168, and the fixed one at line 198 in `main`. They are wall-clock time and randomness, and they have no effect on the results.
- What scrolling does in the browser (lazy loading). The cards of a loaded page are taken to be the ones present after scrolling.
- `save_to_csv` (lines 170-184). It does DataFrame construction, file naming from the clock, UTF-8-BOM encoding and file I/O. It writes nothing when `products` is empty.
- `print` output and `main` (lines 190-208), which loads page 1, counts pages, scrapes, saves and closes.
- Python `isdigit()` on non-ASCII digits. Superscripts make `int()` raise, so the page count falls back to 1. Other Unicode decimal digits parse. The model accepts only ASCII `0`-`9`.
- Selenium's own whitespace normalisation of `.text`. The model applies `strip()` and `split()` to the text exactly as given.
- The default `page=1` of `get_search_url` (line 54). Both callers pass the page, so `SearchUrl` always takes one.
- Very long page labels: CPython refuses `int()` on digit strings longer than 4300 digits, so such a label makes line 72 raise and the bare `except` answer 1; `Scraper.PageNumber` reads any length of digits as its number.
- Fields.ImageSpec: an image element with no `src` attribute makes `get_attribute` return Python `None`, which ends up in the record. The model has no such value: an image lookup either finds a source string or finds nothing.
- The per-card handler at lines 110-111. Every extractor wraps its whole lookup in a bare `except` (lines 122, 128, 136, 143 and 146, 153), so nothing an extractor raises reaches it: a dropped browser connection mid-card turns into sentinel values, and the `No Title` filter at line 107 then drops the card. The handler is in practice unreachable, and the model has no path to it.
- The fatal paths. An exception other than a timeout in `extract_products_from_page`, or a stale element in `get_total_pages`, is outside the model. The first ends the run; the second is one of the failures that `None` stands for.
