# Amazon price tracker core, modelled in Dafny

This project models the logic at the heart of a small Rocket web application that tracks
Amazon listings. It covers six parts of the program:

- **Scraper parsing.** How scraped text becomes values:
  - `PriceUSD` amounts in cents;
  - offer `Condition`s;
  - `Offer`, `Department`, `DepartmentHierarchy` and `Product` records read out of an
    HTML tree;
  - the ASIN found in a product URL.
- **`AmazonApi`'s request logic.** Which URLs it asks for and how it turns the pages it
  gets back into results:
  - ASIN validation;
  - product lookup;
  - the paged collection of offers, with its warnings and its error paths.
- **The `url_for` template function.** It renders a Rocket route as a URL:
  - it picks a route by name, HTTP method and rank;
  - it fills the path and query placeholders from the template arguments;
  - it adds the scheme, host and anchor;
  - it tidies the query separators.
- **The `UserCredentials` form.** Its address pattern and its password-length rule.
- **The validation that opens the `POST /signup` handler.**

Every module is one Dafny file:

| file | module | models |
|---|---|---|
| `common.dfy` | `Common` | `Option`, `Result`, and the iterator idioms `filter_map(..).next()` and `.ok()` collection |
| `strings.dfy` | `Strings` | `trim`, `strip_prefix`, `strip_suffix`, `split_once` and string concatenation |
| `ints.dfy` | `Ints` | `i32`/`u32`/`u64`, decimal display and `str::parse`, truncating `/` and `%` |
| `html.dfy` | `Html` | a document tree with the `find`, `attr`, `as_text` and `inner_html` queries the scraper uses |
| `price.dfy` | `Price` | `src/scraper/price.rs` |
| `offer.dfy` | `Offers` | `src/scraper/offer.rs` |
| `product.dfy` | `Products` | `src/scraper/product.rs` |
| `asin.dfy` | `Asin` | `extract_asin` in `src/scraper/mod.rs` |
| `api.dfy` | `Api` | `src/scraper/api.rs` |
| `url_for.dfy` | `UrlFor`, `UrlForExamples` | `src/templates/url_for.rs` and its unit tests |
| `email.dfy` | `EmailPattern` | the address regular expression of `src/forms.rs` |
| `forms.dfy` | `Forms` | `src/forms.rs` |
| `user_routes.dfy` | `UserRoutes` | the validation prefix of `sign_up` in `src/routes/user.rs` |

The parsing code is written with iterators and `?`, so it is modelled as functions and lemmas.

Two operations are imperative in the source, and the model keeps them imperative:

- **`url_for`.** It writes into a growing `String` buffer. It is modelled as methods with
  loops:
  - `WritePathParameters`, `WriteQueryParameters` and `CleanQueryParameters`;
  - `WriteTarget` and `Call`, which sequence them.

  Each method is proved equal to a specification function (`RenderPath`,
  `RenderQuery`, `Clean`, `Target`, `UrlFor`). The properties are then proved about
  those functions.
- **`get_offers_for_asin`.** It pushes offers into a vector in two loops. `ParseOffers`,
  `ParseLaterPage`, `GetOffersForAsin` and `CollectLaterPages` are proved against the function
  `GetOffers`.

Network requests and their outcomes are parameters. A page is either a `Fetched`
document or a `TransportFailure`. `IsValidAsin` and `GetProductInfo` report the URL they
asked for. `GetOffersForAsin` returns the offer-page URLs it requests:
`OfferRequests(asin, LaterPagesOf(first))`. The order in which the later pages arrive is the
parameter `picks`. `buffer_unordered` keeps at most 20 requests in flight (`MAX_IN_FLIGHT`, the
limiter's permits), so each arrival is one of the first 20 pages still pending. The model gives
exactly those orders (`ArrivalIsInFlightOrder`, `EveryOrderCanArrive`). With at most 20 later
pages, every order is possible (`FewPagesAnyOrder`). With more, page 22 cannot arrive first
(`FirstArrivalIsInFlight`).

## Model

| member | source | states |
|---|---|---|
| `Price.PriceUSD.New` | src/scraper/price.rs:11-13 | for parts whose `100 * dollars` and `100 * dollars + cents` both fit an `i32` (`NewFits`), the price holds exactly `100 * dollars + cents` cents |
| `Price.PriceUSD.DebugText` | src/scraper/price.rs:16-21 | parsing the `Debug` text of any price, negative ones included, gives that price back |
| `Price.PriceUSD.FromStr` | src/scraper/price.rs:30-51 | a text without `.` that parses is a whole number of dollars |
| `Price.PriceUSD.StripDollar` | src/scraper/price.rs:31-33 | the result is the text itself or the text after one leading `$` |
| `Price.PriceUSD.SplitParts` | src/scraper/price.rs:35-47 | without a `.` the cents part is 0 |
| `Price.PriceUSD.FromParts` | src/scraper/price.rs:37-50 | no parts is `InvalidPrice`; parts whose `100 * dollars` or `100 * dollars + cents` leaves `i32` (`NewFits` fails) are `Overflow`, and exactly those; other parts give `100 * dollars + cents` cents |
| `Price.PriceUSD.Compare` | src/scraper/price.rs:7 | the derived order is the order of the cent amounts, and `Equal` is equality |
| `Price.CompareIsTotalOrder` | src/scraper/price.rs:7 | the order is antisymmetric and transitive |
| `Price.NewShowsParts` | src/scraper/price.rs:11-21 | for `d >= 0` and `0 <= c < 100` (with `100 * d + c` in `i32`), `Debug` of `new(d, c)` shows `$d.c` |
| `Price.DollarSignIsOptional` | src/scraper/price.rs:31-33 | a leading `$` does not change the parse |
| `Price.TwoDollarSignsAreInvalid` | src/scraper/price.rs:31-47 | only one `$` is stripped, so `$$…` is invalid |
| `Price.BothHalvesMustParse` | src/scraper/price.rs:36-41 | if either side of the `.` is no `i32`, the text is invalid |
| `Price.DotExamplesAreInvalid` | src/scraper/price.rs:35-41 | `1.2.3`, `1.` and `.5` are invalid |
| `Price.WordIsInvalid` | src/scraper/price.rs:42-46 | `abc` is invalid |
| `Price.WholeDollars` | src/scraper/price.rs:42-50 | an integer text gives that many whole dollars |
| `Price.SplitPartsAt` | src/scraper/price.rs:35-41 | the text splits at its first `.` into two parsed integers |
| `Price.FromStrStages` | src/scraper/price.rs:30-51 | parsing is: strip `$`, split, then combine |
| `Price.FromPartsInRange` | src/scraper/price.rs:50 | parts satisfying `NewFits` give exactly `100 * dollars + cents` |
| `Price.DottedParts` | src/scraper/price.rs:30-50 | for `d >= 0`, `$d.c` and `d.c` parse as the parts `d` and `c`, with or without the `$` |
| `Price.DollarsOverflowFirst` | src/scraper/price.rs:37-50 | a dollar part whose hundredfold leaves `i32` overflows, whatever the cents (`21474837.-100`) |
| `Price.DollarsAndCents` | src/scraper/price.rs:30-51 | for `d >= 0`, `$d.c` and `d.c` both parse to `100 * d + c` cents whenever `100 * d` and `100 * d + c` fit an `i32` (`NewFits`) |
| `Price.DollarsAndCentsExample` | src/scraper/price.rs:30-51 | `$12.34` is 1234 cents |
| `Price.ShortFractionIsNotScaled` | src/scraper/price.rs:38-50 | `12.5` is 1205 cents: the fraction is read as a count of cents |
| `Price.LongFractionCarries` | src/scraper/price.rs:38-50 | `1.150` is 250 cents |
| `Price.DebugTextWithoutDollar` | src/scraper/price.rs:16-21 | `Debug` is `$`, the truncated quotient, `.`, and the truncated remainder |
| `Price.DebugTextParts` | src/scraper/price.rs:16-21 | splitting the `Debug` text gives back the quotient and the remainder |
| `Price.DebugTextValue` | src/scraper/price.rs:16-21 | the quotient and remainder recombine to the same price |
| `Offers.Condition.FromStr` | src/scraper/offer.rs:122-143 | only a non-empty text names a condition |
| `Offers.Condition.ParseTrimmed` | src/scraper/offer.rs:125-142 | only a non-empty trimmed text names a condition |
| `Offers.UsedLabel` | src/scraper/offer.rs:133-137 | every used condition's label starts with `-` |
| `Offers.UsedCondition` | src/scraper/offer.rs:132-139 | the text after `Used` names exactly the condition whose label it is |
| `Offers.ParsesNewExactly` | src/scraper/offer.rs:123-127 | `New` is parsed iff the trimmed text is exactly `New` |
| `Offers.ParsesUsed` | src/scraper/offer.rs:123-139 | a used condition is parsed iff the trimmed text is `Used`, whitespace, then its label |
| `Offers.ParsedUsedHasLabel` | src/scraper/offer.rs:129-139 | a parsed used condition has `Used`, whitespace, then its label |
| `Offers.TrimmedUsedHasLabel` | src/scraper/offer.rs:129-139 | the whitespace between `Used` and the label is returned as a witness |
| `Offers.LabelledUsedParses` | src/scraper/offer.rs:123-139 | `Used`, any whitespace, then a label parses to that condition |
| `Offers.LabelledTrimmedParses` | src/scraper/offer.rs:129-139 | the same, for a text that is already trimmed |
| `Offers.UnknownExamples` | src/scraper/offer.rs:138-142 | `Mint` and `Used - Mint` are unknown conditions |
| `Offers.MintIsUnknown` | src/scraper/offer.rs:142 | `Mint` is not a condition |
| `Offers.UsedMintIsUnknown` | src/scraper/offer.rs:138 | `Used - Mint` is not a condition |
| `Offers.PaddedUsedExample` | src/scraper/offer.rs:123-134 | surrounding and inner whitespace are ignored: `"\n  Used   - Like New "` is `UsedLikeNew` |
| `Offers.Offer.TryFrom` | src/scraper/offer.rs:24-102 | the outcome is `Ok` iff price, condition, a non-empty ships-from and a seller cell are found, and each error names the first field missing in source order; an `Ok` holds exactly the values read |
| `Offers.PriceIsFirstParsable` | src/scraper/offer.rs:25-32 | the price is the first offscreen text that parses, and none means there is no price |
| `Offers.ShipsFromEmptyIffBlank` | src/scraper/offer.rs:50-60 | ships-from is empty iff every text in its right column trims to nothing |
| `Offers.SellerPageComesFromLink` | src/scraper/offer.rs:68-91 | the seller page is the `href` of the first link, and there is none without a link |
| `Products.NodeCaptureFrom` | src/scraper/product.rs:87-96 | the capture from position `i` exists iff there is a `?node=`/`&node=` match with digits to the end, and it is that match's digits |
| `Products.NodeCapture` | src/scraper/product.rs:87-96 | `[?&]node=(\d+)$` captures from a match iff one exists |
| `Products.NoSeparatorAfterMatch` | src/scraper/product.rs:87 | no `?` or `&` follows a match |
| `Products.NodeMatchUnique` | src/scraper/product.rs:87 | there is at most one match |
| `Products.TrailingDigitsCaptured` | src/scraper/product.rs:87-94 | a link ending in `?node=` or `&node=` plus digits captures those digits |
| `Products.TrailingNodeParses` | src/scraper/product.rs:87-96 | a displayed `u64` node id is read back |
| `Products.OverflowingNodeFails` | src/scraper/product.rs:95-96 | a node id above `u64::MAX` gives no department |
| `Products.Department.Url` | src/scraper/product.rs:77-79 | the node id is read back from the URL `https://amazon.com/b/?node=<node>` |
| `Products.LinkToUrlRoundTrip` | src/scraper/product.rs:77-101 | a link to a department's URL parses to that department's node, named by its trimmed inner HTML |
| `Products.MissingHrefFails` | src/scraper/product.rs:90 | a link without `href` is no department |
| `Products.Department.TryFrom` | src/scraper/product.rs:85-102 | `Ok` iff `href` exists and ends in a node id that parses; the name is the trimmed inner HTML |
| `Products.DepartmentHierarchy.TryFrom` | src/scraper/product.rs:113-121 | it never fails, and it holds exactly the departments parsed from the breadcrumb links |
| `Products.ParseLinks` | src/scraper/product.rs:115-118 | one parse result per link, in order |
| `Products.ParsedDepartments` | src/scraper/product.rs:117-118 | a department is kept exactly when some breadcrumb link parses to it; links that fail to parse are dropped |
| `Products.BreadcrumbsKeepOrder` | src/scraper/product.rs:115-119 | departments keep the order of their links |
| `Products.UnparsableLinkIsDropped` | src/scraper/product.rs:118 | a link that does not parse contributes nothing |
| `Products.RowsWithKey` | src/scraper/product.rs:51-59 | a row is kept exactly when it is a detail row whose header trims to the key, and no rows are added |
| `Products.ReadProductInfo` | src/scraper/product.rs:50-65 | the value is the first trimmed data-cell text of the first row whose header is the key and that has one, in document order |
| `Products.KeyedValue` | src/scraper/product.rs:52-64 | the source's flat chain of cell texts and the row-by-row reading give the same first value |
| `Products.FirstCellText` | src/scraper/product.rs:60-62 | the first data-cell text of a row is a text node inside one of its `td` cells |
| `Products.ProductInfoComesFromKeyedRow` | src/scraper/product.rs:50-65 | no value iff no keyed row has a data-cell text; a value is the trimmed first cell text of a keyed row, and every earlier keyed row has no cell text |
| `Products.TitleOf` | src/scraper/product.rs:32-38 | there is no title iff the `productTitle` element has no text |
| `Products.Product.TryFrom` | src/scraper/product.rs:21-47 | `Ok` iff ASIN, manufacturer and title are found; the product holds exactly those and the hierarchy |
| `Asin.AsinFrom` | src/scraper/mod.rs:14-17 | from position `i`, the result exists iff there is a match; it is that match's ten characters, each `[0-9A-Z]` |
| `Asin.ExtractAsin` | src/scraper/mod.rs:12-18 | `/dp/([\dA-Z]{10})/*[^/]*?$` gives a capture iff there is a match, and the capture is the ten characters after a `/dp/` |
| `Asin.NoSlashAfterName` | src/scraper/mod.rs:14 | after `/*` and a non-slash, no further slash can follow |
| `Asin.NoDpAfterMatch` | src/scraper/mod.rs:14 | no `/dp/` starts after a match |
| `Asin.AsinMatchUnique` | src/scraper/mod.rs:14 | there is at most one match, so the regex's leftmost choice does not matter |
| `Asin.ExtractsEmbeddedAsin` | src/scraper/mod.rs:12-18 | any prefix, `/dp/`, an ASIN, slashes and a slash-free tail give that ASIN |
| `Asin.AsciiAsin` | src/scraper/mod.rs:14 | ASCII digits and capitals are ASIN characters |
| `Asin.ShortUrlExample` | src/scraper/mod.rs:23-26 | the short product URL gives `B07VGRJDFY` |
| `Asin.LongUrlExample` | src/scraper/mod.rs:28-29 | the long URL with tracking parameters gives `B096S3QHWL` |
| `Api.OfferPageUrlInjective` | src/scraper/api.rs:95-105 | different page numbers ask for different URLs |
| `Api.OfferPageUrlRef` | src/scraper/api.rs:95-102 | up to its first `?`, the URL is `ref=dp_aod_ALL_mbc` for page 1 and `ref=aod_page_<page>` for every later page |
| `Api.IsValidAsin` | src/scraper/api.rs:78-93 | a non-alphanumeric character gives `false` with no request; otherwise one request to the product page, whose failure is the error and whose `Page Not Found` title gives `false` |
| `Api.ProductUrlCarriesAsin` | src/scraper/api.rs:83 | the product-page URL gives back its ASIN |
| `Api.GetProductInfo` | src/scraper/api.rs:107-117 | one request to the product page; a transport error is the error, and a failed parse is `Ok(None)` |
| `Api.CountOf` | src/scraper/api.rs:138-141 | a count is the `u32` before the ` options` suffix |
| `Api.CountOfDisplay` | src/scraper/api.rs:138-141 | the counter text `<N> options` is read back as exactly N, for every `u32` N |
| `Api.PageCount` | src/scraper/api.rs:153 | the page count is the `u32` ceiling of `total / 10`, and it overflows exactly for the ten largest totals |
| `Api.LaterPages` | src/scraper/api.rs:156 | the later pages are `2..=count`, in order |
| `Api.FewOffersNeedOnePage` | src/scraper/api.rs:119-176 | up to ten offers give one page: only page 1 is requested, and the result is page 1's offers with its parse warnings |
| `Api.TwentyFiveOptions` | src/scraper/api.rs:134-157 | `25 options` means three pages: page 1, 2 and 3 are requested, and pages 2 and 3 arrive in one order or the other |
| `Api.PagesForTwentyFive` | src/scraper/api.rs:153-156 | 25 offers make 3 pages, so the later pages are 2 and 3 |
| `Api.TwoLaterPages` | src/scraper/api.rs:125-156 | with pages 2 and 3 to follow, the requests are the URLs of pages 1, 2 and 3 |
| `Api.TryAll` | src/scraper/api.rs:127-131 | one `Offer::try_from` result per offer node, in order |
| `Api.FailureWarnings` | src/scraper/api.rs:127-131 | each result is either an offer or a warning |
| `Api.FailureWarningsInOrder` | src/scraper/api.rs:127-131 | there is one parse-failure warning per failed node, carrying its error, in node order |
| `Api.PageWarnings` | src/scraper/api.rs:170-172 | a page reports "no offers" iff it has no offer nodes |
| `Api.AddPage` | src/scraper/api.rs:159-173 | after an error nothing changes; a failed page ends with its error; a fetched page appends its offers and warnings |
| `Api.ErrorIsFinal` | src/scraper/api.rs:162 | once a transport error ends the collection, later pages do not change it |
| `Api.ParseStep` | src/scraper/api.rs:127-131 | one more node appends its offer or its warning |
| `Api.FailureWarningsAreParseFailures` | src/scraper/api.rs:130 | per-node warnings are all parse failures |
| `Api.ParseOffers` | src/scraper/api.rs:127-131 | the loop collects the parsed offers and warns about each failure, in order |
| `Api.CollectStep` | src/scraper/api.rs:159-173 | each arrival updates the collection as `AddPage` says |
| `Api.CollectFailedPage` | src/scraper/api.rs:162 | the first failed page's error is the result |
| `Api.GetOffersForAsin` | src/scraper/api.rs:119-176 | the method's result and warnings are exactly `GetOffers` of the pages, and the URLs it requests are page 1's followed by those of pages `2..=count` |
| `Api.GetOffers` | src/scraper/api.rs:119-176 | overflow of the page count is the error exactly when a count is read and overflows; a transport error is that of page 1 or of a requested later page; page 1's parse warnings come first; an `Ok` result starts with page 1's offers |
| `Api.LaterPagesOf` | src/scraper/api.rs:134-156 | the later pages requested are numbered 2, 3, … in order |
| `Api.Arrival` | src/scraper/api.rs:155-159 | the later pages arrive each once: the arrival order is a permutation of the requests |
| `Api.InFlight` | src/scraper/api.rs:155-157 | `buffer_unordered(max_sync_usages())` has at most 20 requests in flight, and all those pending when fewer remain, at least one while any is pending |
| `Api.ArrivalIsInFlightOrder` | src/scraper/api.rs:155-159 | every arrival is one of the requests in flight at that moment |
| `Api.EveryOrderCanArrive` | src/scraper/api.rs:155-159 | every order in which each arrival is one of the requests then in flight is a possible arrival order |
| `Api.FewPagesAnyOrder` | src/scraper/api.rs:155-157 | with at most 20 later pages, every permutation of them respects the in-flight limit |
| `Api.FirstArrivalIsInFlight` | src/scraper/api.rs:155-157 | the first later page to arrive is one of pages 2 to 21, whatever the page count |
| `Api.OfferRequestsSplit` | src/scraper/api.rs:125-157 | the requests are page 1's URL followed by those of the later pages |
| `Api.EachPageRequestedOnce` | src/scraper/api.rs:125-157 | no URL is requested twice |
| `Api.LaterErrorIsAFailedPage` | src/scraper/api.rs:159-162 | an error of the later-page loop is the transport failure of one of the pages that arrived |
| `Api.FailuresWereRequested` | src/scraper/api.rs:155-162 | a transport failure among the arrivals is the response to one of the requested pages |
| `Api.ParseLaterPage` | src/scraper/api.rs:160-172 | one fetched page yields its parsed offers, a warning per failed offer, and an empty-page warning exactly when it has no offer element |
| `Api.CollectLaterPages` | src/scraper/api.rs:159-175 | the later-page loop appends the pages' offers and warnings, or stops with the first error |
| `Api.OffersInArrivalOrder` | src/scraper/api.rs:159-168 | when every later page arrives, the result is their offers in arrival order |
| `Api.AllPagesFetched` | src/scraper/api.rs:119-176 | with a count and every requested page fetched, every arrival is a page and the result is page 1's offers followed by the later pages' offers in arrival order |
| `Api.FirstTransportErrorAborts` | src/scraper/api.rs:162 | the first failed page's error is returned, whatever follows |
| `Api.NoCountNoOffers` | src/scraper/api.rs:134-149 | without an offer count only page 1 is requested, the result is empty even if offers were parsed, and a warning says so |
| `Api.BadOfferIsSkipped` | src/scraper/api.rs:128-131 | an unparsable node drops out without disturbing the others |
| `Api.FirstPageFailure` | src/scraper/api.rs:125 | a failed first page is the error, with no warnings, and no other page is requested |
| `UrlFor.JsonText` | src/templates/url_for.rs:89-94 | numbers, `null` and booleans are written as JSON |
| `UrlFor.Placeholder` | src/templates/url_for.rs:74-77 | the text splits at its first `<` and the next `>` into prefix, key and suffix |
| `UrlFor.PlaceholderAt` | src/templates/url_for.rs:74-77 | a `<key>` after a prefix without `<` is the placeholder found |
| `UrlFor.ShortKey` | src/templates/url_for.rs:83-85 | a trailing `..` is dropped from the key |
| `UrlFor.RenderPath` | src/templates/url_for.rs:72-110 | a path without placeholders is written unchanged |
| `UrlFor.PathPlaceholderReplaced` | src/templates/url_for.rs:79-95 | a placeholder with an argument is replaced by the argument's text |
| `UrlFor.PathMissingArgument` | src/templates/url_for.rs:96-102 | a placeholder without an argument is an error naming the key |
| `UrlFor.PathUnclosedPlaceholder` | src/templates/url_for.rs:104-107 | text after an unclosed `<` is copied as it is |
| `UrlFor.RenderQuery` | src/templates/url_for.rs:119-155 | a query without placeholders is written unchanged |
| `UrlFor.QueryPlaceholderReplaced` | src/templates/url_for.rs:131-150 | a query placeholder is replaced by its `key=value` text |
| `UrlFor.QueryArgumentOmitted` | src/templates/url_for.rs:136 | a missing, `null` or `false` argument writes nothing |
| `UrlFor.NonSeparators` | src/templates/url_for.rs:159 | the characters kept are exactly the non-separators of the text |
| `UrlFor.Dedup` | src/templates/url_for.rs:161-170 | deduplicating never lengthens the text |
| `UrlFor.TrimTrailingSeparators` | src/templates/url_for.rs:172-179 | only trailing separators are removed, and none remains at the end |
| `UrlFor.Clean` | src/templates/url_for.rs:158-180 | the result has no adjacent separators and no trailing one, and keeps every other character in order |
| `UrlFor.DedupHasNoAdjacent` | src/templates/url_for.rs:161-170 | after dedup no two separators are adjacent |
| `UrlFor.DedupKeepsNonSeparators` | src/templates/url_for.rs:161-170 | dedup removes only separators |
| `UrlFor.TrimKeepsNonSeparators` | src/templates/url_for.rs:172-179 | trimming removes only separators |
| `UrlFor.DedupOfNoAdjacent` | src/templates/url_for.rs:161-170 | dedup leaves a text without adjacent separators unchanged |
| `UrlFor.CleanIsIdempotent` | src/templates/url_for.rs:158-180 | cleaning twice is cleaning once |
| `UrlFor.CleanOfClean` | src/templates/url_for.rs:158-180 | a text already clean is unchanged |
| `UrlFor.CleanQueryParameters` | src/templates/url_for.rs:158-180 | the `retain` and `pop` loops compute `Clean` of the buffer |
| `UrlFor.Candidates` | src/templates/url_for.rs:44-59 | the candidates are exactly the routes with that name and, if `_method` is given, that method, and never more than the routes |
| `UrlFor.CandidatesKeepOrder` | src/templates/url_for.rs:46-59 | the filter keeps mount order: the candidates of `a + b` are those of `a`, then those of `b` |
| `UrlFor.Fold` | src/templates/url_for.rs:60-63 | the fold finds a route iff there is a candidate |
| `UrlFor.FoldPicksLastHighest` | src/templates/url_for.rs:60-63 | the fold picks the last route of highest rank |
| `UrlFor.FoldPicksLastEligible` | src/templates/url_for.rs:46-63 | the route found sits at a position after which every eligible route has a strictly smaller rank |
| `UrlFor.LastRouteStep` | src/templates/url_for.rs:60-63 | one more mounted route either keeps the earlier winner last of its rank or is itself the winner |
| `UrlFor.FoldOfCandidates` | src/templates/url_for.rs:43-64 | the route found is an eligible route of maximal rank, no eligible route after it has that rank, and none is found iff none is eligible |
| `UrlFor.TemplateUrlLoader.FindRoute` | src/templates/url_for.rs:43-64 | the route found is eligible and of maximal rank among the eligible routes, the later route wins a tie, and none is found iff none is eligible |
| `UrlFor.TemplateUrlLoader.WritePathParameters` | src/templates/url_for.rs:66-111 | the loop appends the rendered path, or stops with the missing-parameter error |
| `UrlFor.TemplateUrlLoader.WriteQueryParameters` | src/templates/url_for.rs:113-156 | with no query nothing is written; otherwise `?` and the rendered query are appended |
| `UrlFor.TemplateUrlLoader.External` | src/templates/url_for.rs:198-208 | by default the URL is external iff a server name is configured; a given `_external` must be a boolean |
| `UrlFor.TemplateUrlLoader.Origin` | src/templates/url_for.rs:212-239 | the origin is the scheme, `://` and server name; a non-string `_scheme` and a missing server name are errors |
| `UrlFor.TemplateUrlLoader.Target` | src/templates/url_for.rs:242-257 | a route found is rendered; otherwise a `.`-relative endpoint is copied (except `.` itself) and any other endpoint is an error |
| `UrlFor.TemplateUrlLoader.UrlFor` | src/templates/url_for.rs:184-276 | a missing or non-string endpoint is an error, and every URL produced has clean separators |
| `UrlFor.TemplateUrlLoader.WriteTarget` | src/templates/url_for.rs:242-257 | the method appends `Target`, or returns its error |
| `UrlFor.TemplateUrlLoader.Call` | src/templates/url_for.rs:184-276 | the method's result is exactly `UrlFor` of the arguments |
| `UrlFor.Anchor` | src/templates/url_for.rs:259-272 | a string `_anchor` adds `#` and the anchor; any other value is an error |
| `UrlForExamples.ExternalByDefault` | src/templates/url_for.rs:198-200 | with a server name and no `_external` the URL starts with the default scheme and host |
| `UrlForExamples.ExternalNeedsServerName` | src/templates/url_for.rs:225-232 | an external URL without a server name is an error |
| `UrlForExamples.RelativeEndpoint` | src/templates/url_for.rs:247-256 | an unnamed `.`-endpoint is the URL itself, and another unknown endpoint is an error |
| `UrlForExamples.PlainIsClean` | src/templates/url_for.rs:158-180 | a text without separators is clean |
| `UrlForExamples.JoinClean` | src/templates/url_for.rs:158-180 | one separator between a clean text and a plain one stays clean |
| `UrlForExamples.DoubleSeparatorCleaned` | src/templates/url_for.rs:161-170 | of two adjacent separators only the first is kept |
| `UrlForExamples.LocalRouteUrl` | src/templates/url_for.rs:184-276 | a local route's URL is the cleaned rendered path and query |
| `UrlForExamples.FindsOnlyRoute` | src/templates/url_for.rs:285-311 | each test route is found by its name |
| `UrlForExamples.FindRouteExample` | src/templates/url_for.rs:313-325 | `foo_get` gives `/bar/foo` |
| `UrlForExamples.ReplacementExample` | src/templates/url_for.rs:327-344 | `test_route` with `x = "xyz"` and `y = 123` gives `/abc/xyz/foo?y=123` |
| `UrlForExamples.OptionalAbsentExample` | src/templates/url_for.rs:346-363 | `foo_post` without `y` gives `/abc/xyz/foo?z=123` |
| `UrlForExamples.OptionalNullExample` | src/templates/url_for.rs:365-370 | `foo_post` with `y = null` gives `/abc/xyz/foo?z=123` |
| `UrlForExamples.OptionalPresentExample` | src/templates/url_for.rs:372-376 | `foo_post` with `y = 456` gives `/abc/xyz/foo?y=456&z=123` |
| `UrlForExamples.ExternalExamples` | src/templates/url_for.rs:379-404 | with a server name, `foo_get` is external by default and on request, and local with `_external = false` |
| `UrlForExamples.ExternalDefaultExample` | src/templates/url_for.rs:387-391 | external by default: `http://example.com/bar/foo` |
| `UrlForExamples.ExternalOnRequestExample` | src/templates/url_for.rs:393-397 | `_external = true` gives `http://example.com/bar/foo` |
| `UrlForExamples.ExternalOffExample` | src/templates/url_for.rs:399-403 | `_external = false` gives `/bar/foo` |
| `EmailPattern.MatchInContext` | src/forms.rs:24 | the search is unanchored: text around a match still matches |
| `EmailPattern.IsMatch` | src/forms.rs:17-24 | every text the pattern finds a match in contains `@` |
| `EmailPattern.DotAtomEndsWithAtext` | src/forms.rs:18 | a dot-atom local part ends with an atext character |
| `EmailPattern.DomainNeedsDotOrBracket` | src/forms.rs:19-22 | a domain has a `.` or a `[` |
| `EmailPattern.NoDotNoBracketNoMatch` | src/forms.rs:17-24 | a text without `.` and `[` never matches |
| `EmailPattern.ReadingsAgreeWithoutQuotesOrBrackets` | src/forms.rs:17-24 | without `"` and `[`, the pattern as written and as intended accept the same texts |
| `EmailPattern.PlainAddressMatches` | src/forms.rs:17-24 | `john@example.com` matches under both readings |
| `EmailPattern.QtextIsQuotedContent` | src/forms.rs:18-19 | a run of qtext characters is quoted content |
| `EmailPattern.NoQuotedLocalPartAsWritten` | src/forms.rs:18-19 | as written, a quoted local part must contain the literal quoted-pair class text |
| `EmailPattern.QuotedAddressRejectedAsWritten` | src/forms.rs:17-24 | as written, a quoted local part of ordinary characters with an `@`-free domain is rejected |
| `EmailPattern.QuotedLocalPartRejected` | src/forms.rs:17-24 | as written, `"john.doe"@example.com` does not match |
| `EmailPattern.QuotedLocalPartAccepted` | src/forms.rs:17-24 | as intended, `"john.doe"@example.com` matches |
| `EmailPattern.QuotedAddressMatchesWhenQuoted` | src/forms.rs:17-24 | quoted content before `@` and a host name always give a match |
| `Forms.UserCredentials.CheckPasswordForIssues` | src/forms.rs:27-38 | too short iff under 8 characters, too long iff over 512, and no issue iff 8 to 512 |
| `Forms.UserCredentials.IsValidEmail` | src/forms.rs:16-25 | the pattern as written decides; a valid email contains `@` |
| `Forms.ChecksAgreeWithoutQuotesOrBrackets` | src/forms.rs:17-24 | without `"` and `[` in the email, the check as written and as intended agree |
| `Forms.QuotedEmailOnlyValidAsIntended` | src/forms.rs:17-24 | `"john.doe"@example.com` is invalid as written and valid as intended |
| `Forms.Utf8Length` | src/forms.rs:28 | a text's UTF-8 length is 1 to 4 bytes per character |
| `Forms.WideShortPasswordIsTooShort` | src/forms.rs:28-31 | the limit counts characters: 2 to 7 astral characters are at least 8 bytes and still too short |
| `Forms.WideLongPasswordIsAccepted` | src/forms.rs:28-37 | 257 to 512 two-byte characters exceed 512 bytes and are still accepted |
| `UserRoutes.SignUpRejection` | src/routes/user.rs:113-125 | sign-up goes on iff the email passes the pattern as written and the password has 8 to 512 characters; a rejection is one of the three messages |
| `UserRoutes.BadEmailIsReportedFirst` | src/routes/user.rs:119-121 | with a bad email the message is the email message, whatever the password |
| `UserRoutes.PasswordRuleOfSignUp` | src/routes/user.rs:123-125 | with a valid email, the password rule decides the outcome |
| `UserRoutes.NoAtSignIsRejected` | src/routes/user.rs:119-121 | an email without `@` is turned away with the email message |
| `UserRoutes.PlainSignUpProceeds` | src/routes/user.rs:113-125 | `john@example.com` with an eight-character password passes both checks |
| `UserRoutes.QuotedEmailIsRejected` | src/routes/user.rs:119-121 | `"john.doe"@example.com` is turned away with the email message, whatever the password |

## Left out

- `src/scraper/rate_limit.rs` is not part of this model. Its permit count (20, from `AmazonApi::default`) is modelled only as the `buffer_unordered` limit `MAX_IN_FLIGHT`.
- HTTP transport (`get_text`, `reqwest`, lossy UTF-8 decoding) is left out. Each page is an input: `Fetched` or `TransportFailure`.
- `Api.Arrival`: the model allows every order in which each arrival is one of the 20 requests in flight. The source's orders are a subset of these. The limiter's 50 ms `cool_down` between call starts is timing and is left out. So are its semaphore permits shared with other concurrent calls, which can only hold back more requests.
- `Api.EveryOrderCanArrive`: it shows that the model can produce each order the in-flight limit allows, not that the network will. Timing is not modelled.
- After a transport error, `OfferRequests` still lists every scheduled page, although the source may not have sent the last of them.
- HTML parsing and the `select` crate's internals are left out. `Html` is an abstract tree with the queries the scraper uses.
- Logging (`warn!`, `error!`) becomes a returned list of `Warning`s for the offer collector. The `error!` lines of `get_product_info` and `get_text` are left out.
- `Api.IsAlphanumeric`: outside ASCII, `char::is_alphanumeric` follows Unicode tables. These are a parameter, not a table.
- `Api.GetOffersForAsin`: the `u32` overflow of `total + OFFERS_PER_PAGE - 1` panics in a debug build and wraps in a release build. Here it is the error `PageCountOverflow`.
- `Price.PriceUSD.New`: `100 * dollars` or `100 * dollars + cents` can overflow `i32` in the source. The function requires `NewFits` (both in range), and `FromStr` reports `Overflow` where the source would panic or wrap.
- `Price.PriceUSD.FromStr`: its own contract states only the whole-dollar case. Its meaning is stated by the lemmas beside it (`DollarsAndCents`, `DottedParts`, `DebugText`'s contract and the invalid-input lemmas).
- `Offers.Condition.FromStr`: its own contract states only that the text is non-empty. The full parse is `ParsesNewExactly` and `ParsesUsed`.
- `UrlFor.RenderPath` and `UrlFor.RenderQuery`: their own contracts state only the placeholder-free case. The placeholder cases are the `Path…` and `Query…` lemmas.
- `TemplateUrlLoader::from` (reading the server name and TLS setting from the Figment configuration) is left out. The loader's fields are given directly.
- The Rocket route table is left out. Routes are given as name, method, rank, path and query. The test loader uses Rocket's default ranks.
- `UrlFor.JsonText`: JSON display of floating-point numbers, arrays and objects is left out. Such values are an opaque `Other` text.
- The templates' `tera::Error` messages become a `UrlError` datatype that carries the same facts.
- `password_hash` (salted SHA-256) is left out, because it is a foreign hash function.
- The rest of `src/routes/user.rs` is left out: `login`, `logout`, the database queries and the session of `sign_up`. These are I/O.
- `src/routes/user.rs` declares its own `UserCredentials` with the same two validators, copied from `src/forms.rs`. Both are modelled once, by `Forms.UserCredentials`.
- `Forms.UserCredentials.IsValidEmail` uses the pattern as written, as the source does. The intended reading is `Forms.UserCredentials.IsValidEmailAsIntended`; see Findings.
- The product routes and the database layer are left out.

## Findings

| source | as written | input that shows it | evidently intended | confidence | as-written member | corrected member |
|---|---|---|---|---|---|---|
| src/forms.rs:17-22 (copied at src/routes/user.rs:26-31) | The pattern is a non-raw Rust string. Inside it, `\x5b` and `\x5d` become a bare `[` and `]`. The qtext class `[...\x23-\x5b\x5d-\x7f]` then closes at that `]`, so every quoted character must be followed by the literal `-`, DEL, `]`. The quoted pair `\\[...]` becomes the regex `\[`, a literal bracket, so it matches only one fixed ten-character text instead of a backslash and a character. | `"john.doe"@example.com` | Following the RFC 5322 pattern it copies, a quoted local part of printable characters (`"john.doe"`) is accepted | not executed | `EmailPattern.QuotedLocalPartRejected` | `EmailPattern.QuotedLocalPartAccepted` |
