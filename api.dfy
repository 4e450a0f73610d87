/** The scraper's requests and its offer-collection policy (src/scraper/api.rs).  Network
    access is not modelled: every fetch is an input, either a parsed page or a transport
    error, and the requests a call makes are part of its result. */
module Api {
  import opened Common
  import opened Strings
  import opened Ints
  import opened Html
  import opened Offers
  import opened Products
  import opened Asin

  /** The outcome of one request. */
  datatype FetchResult = Fetched(page: Document) | TransportFailure(message: string)

  datatype ApiError =
    | Transport(message: string)   // the `reqwest::Error` of a failed request
    | PageCountOverflow            // `total + OFFERS_PER_PAGE` does not fit in a `u32`

  /** The `warn!` lines of the offer collector. */
  datatype Warning =
    | OfferParseFailed(asin: string, missing: MissingOfferField)
    | MissingOfferCount(asin: string)
    | EmptyOfferPage(asin: string)

  /** A request's value together with the URLs it fetched, in order. */
  datatype Response<T> = Response(result: Result<T, ApiError>, requested: seq<string>)

  const OFFERS_PER_PAGE: int := 10

  // ---- Request URLs ----

  /** The product page of an ASIN. */
  function ProductUrl(asin: string): string {
    Host + "/dp/" + asin
  }

  const OfferPageBase: string := Host + AjaxPath

  /** `get_offer_page(asin, page)`: the first page has its own URL (it carries the header and
      side bar); later pages name their number twice. */
  function OfferPageUrl(asin: string, page: u32): string
    requires page >= 1
  {
    OfferPageBase + OfferPagePath(asin, page)
  }

  /** What an offer-page URL says before its query: the first page's own reference, or
      `aod_page_` and the page number. */
  function PageRef(page: u32): string
    requires page >= 1
  {
    if page == 1 then FirstPagePrefix else LaterPagePrefix + NatToString(page)
  }

  /** The part of an offer-page URL after `ref=`. */
  function OfferPagePath(asin: string, page: u32): string
    requires page >= 1
  {
    if page == 1 then
      "dp_aod_ALL_mbc?asin=" + asin + FirstPageQuery
    else
      "aod_page_" + NatToString(page) + "?" + LaterPageQuery(asin, NatToString(page))
  }

  /** The rest of the first offer page's query, after the ASIN. */
  const FirstPageQuery: string :=
    "&m=&qid=&smid=&sourcecustomerorglistid=&sourcecustomerorglistitemid=&sr=&pc=dp&experienceId=aodAjaxMain"

  /** The query of a later offer page, `n` being its number. */
  function LaterPageQuery(asin: string, n: string): string {
    "asin=" + asin + "&pc=dp&isonlyrenderofferlist=true&pageno=" + n + "&experienceId=aodAjaxMain"
  }

  /** Different pages are fetched from different URLs. */
  lemma {:induction false} OfferPageUrlInjective(asin: string, p: u32, q: u32)
    requires p >= 1 && q >= 1
    requires OfferPageUrl(asin, p) == OfferPageUrl(asin, q)
    ensures p == q
  {
    OfferPageUrlRef(asin, p);
    OfferPageUrlRef(asin, q);
    if p != 1 && q != 1 {
      DropPrefix(LaterPagePrefix, NatToString(p));
      DropPrefix(LaterPagePrefix, NatToString(q));
      NatToStringInjective(p, q);
    } else {
      RefMarker(p);
      RefMarker(q);
    }
  }

  lemma DropPrefix(a: string, b: string)
    ensures (a + b)[|a|..] == b
  {
  }

  /** The character after `ref=` tells the first page from the others. */
  lemma RefMarker(page: u32)
    requires page >= 1
    ensures |PageRef(page)| > |OfferPageBase|
    ensures PageRef(page)[|OfferPageBase|] == (if page == 1 then 'd' else 'a')
  {
    if page == 1 {
      HeadAfter(OfferPageBase, "dp_aod_ALL_mbc");
    } else {
      var n := NatToString(page);
      Associate(OfferPageBase, "aod_page_", n);
      HeadAfter(OfferPageBase, "aod_page_" + n);
    }
  }

  lemma HeadAfter(a: string, b: string)
    requires b != []
    ensures |a + b| > |a| && (a + b)[|a|] == b[0]
  {
  }

  /** Up to its first `?`, an offer-page URL names the page it asks for. */
  lemma OfferPageUrlRef(asin: string, page: u32)
    requires page >= 1
    ensures SplitOnce(OfferPageUrl(asin, page), '?').Some?
    ensures SplitOnce(OfferPageUrl(asin, page), '?').value.0 == PageRef(page)
  {
    NoQueryInPrefixes();
    if page == 1 {
      FirstPageRef(asin);
    } else {
      LaterPageRef(asin, page);
    }
  }

  lemma FirstPageRef(asin: string)
    requires '?' !in FirstPagePrefix
    ensures SplitOnce(OfferPageUrl(asin, 1), '?') == Some((FirstPagePrefix, "asin=" + asin + FirstPageQuery))
  {
    var ref, query := "dp_aod_ALL_mbc", "asin=";
    assert "dp_aod_ALL_mbc?asin=" == ref + ['?'] + query;
    RegroupFirstUrl(OfferPageBase, ref, ['?'], query, asin, FirstPageQuery);
    SplitOnceAt(FirstPagePrefix, '?', query + asin + FirstPageQuery);
  }

  lemma LaterPageRef(asin: string, page: u32)
    requires page > 1 && '?' !in LaterPagePrefix
    ensures SplitOnce(OfferPageUrl(asin, page), '?')
            == Some((LaterPagePrefix + NatToString(page), LaterPageQuery(asin, NatToString(page))))
  {
    var n := NatToString(page);
    var pre := LaterPagePrefix + n;
    var rest := LaterPageQuery(asin, n);
    RegroupUrl(OfferPageBase, "aod_page_", n, "?", rest);
    assert OfferPageUrl(asin, page) == pre + ['?'] + rest;
    NoQueryInNumber(page);
    assert '?' !in pre;
    SplitOnceAt(pre, '?', rest);
  }

  lemma RegroupFirstUrl(a: string, b: string, c: string, d: string, e: string, f: string)
    ensures a + (b + c + d + e + f) == (a + b) + c + (d + e + f)
  {
  }

  lemma RegroupUrl(a: string, b: string, c: string, d: string, e: string)
    ensures a + (b + c + d + e) == (a + b + c) + d + e
  {
  }

  const Host: string := "https://www.amazon.com"
  const AjaxPath: string := "/gp/product/ajax/ref="
  const LaterPagePrefix: string := OfferPageBase + "aod_page_"
  const FirstPagePrefix: string := OfferPageBase + "dp_aod_ALL_mbc"

  lemma NoQueryInPrefixes()
    ensures '?' !in LaterPagePrefix && '?' !in FirstPagePrefix
  {
    assert '?' !in Host;
    assert '?' !in AjaxPath;
    assert '?' !in "aod_page_";
    assert '?' !in "dp_aod_ALL_mbc";
  }

  lemma NoQueryInNumber(page: nat)
    ensures '?' !in NatToString(page)
  {
    var n := NatToString(page);
    assert forall k :: 0 <= k < |n| ==> IsAsciiDigit(n[k]) && n[k] != '?';
  }

  // ---- `is_valid_asin` ----

  predicate IsAsciiAlphanumeric(c: char) {
    ('0' <= c <= '9') || ('A' <= c <= 'Z') || ('a' <= c <= 'z')
  }

  /** `char::is_alphanumeric`, exact on ASCII; `nonAscii` classifies the other characters
      (the Unicode Alphabetic and Numeric properties). */
  predicate IsAlphanumeric(c: char, nonAscii: char -> bool) {
    if c as int < 0x80 then IsAsciiAlphanumeric(c) else nonAscii(c)
  }

  /** The product page says `Page Not Found` in its title. */
  predicate PageNotFound(d: Document) {
    exists t :: t in Texts(FindInDocument(d, Name("title"))) && Trim(t) == "Page Not Found"
  }

  /** `is_valid_asin(asin)`: a text with a character that is not alphanumeric is invalid and
      nothing is fetched; otherwise the product page decides, `fetch` being its outcome. */
  function IsValidAsin(asin: string, nonAscii: char -> bool, fetch: FetchResult): (r: Response<bool>)
    ensures (exists i :: 0 <= i < |asin| && !IsAlphanumeric(asin[i], nonAscii))
            ==> r == Response(Ok(false), [])
    ensures (forall i :: 0 <= i < |asin| ==> IsAlphanumeric(asin[i], nonAscii))
            ==> r.requested == [ProductUrl(asin)]
                && (fetch.TransportFailure? ==> r.result == Err(Transport(fetch.message)))
                && (fetch.Fetched? ==> r.result == Ok(!PageNotFound(fetch.page)))
  {
    if !(forall i :: 0 <= i < |asin| ==> IsAlphanumeric(asin[i], nonAscii)) then Response(Ok(false), [])
    else
      match fetch
      case TransportFailure(e) => Response(Err(Transport(e)), [ProductUrl(asin)])
      case Fetched(d) => Response(Ok(!PageNotFound(d)), [ProductUrl(asin)])
  }

  /** A ten-character ASIN of ASCII capitals and digits is read back out of its own
      product-page URL. */
  lemma ProductUrlCarriesAsin(asin: string)
    requires |asin| == 10 && forall k :: 0 <= k < 10 ==> IsAsinChar(asin[k])
    ensures ExtractAsin(ProductUrl(asin)) == Some(asin)
  {
    assert SlashesThenName("");
    ExtractsEmbeddedAsin(Host, asin, "");
    assert Host + "/dp/" + asin + "" == ProductUrl(asin);
  }

  // ---- `get_product_info` ----

  /** `get_product_info(asin)`: a transport error is an error, but a page that is not a
      product is `Ok(None)`. */
  function GetProductInfo(asin: string, fetch: FetchResult): (r: Response<Option<Product>>)
    ensures r.requested == [ProductUrl(asin)]
    ensures r.result.Err? <==> fetch.TransportFailure?
    ensures r.result == Ok(None) <==> fetch.Fetched? && Product.TryFrom(fetch.page).Err?
    ensures fetch.Fetched? && Product.TryFrom(fetch.page).Ok? ==> r.result == Ok(Some(Product.TryFrom(fetch.page).value))
  {
    match fetch
    case TransportFailure(e) => Response(Err(Transport(e)), [ProductUrl(asin)])
    case Fetched(d) =>
      match Product.TryFrom(d)
      case Ok(p) => Response(Ok(Some(p)), [ProductUrl(asin)])
      case Err(_) => Response(Ok(None), [ProductUrl(asin)])
  }

  // ---- The offer count and the pages to fetch ----

  /** `"<n> options"` read as `n`. */
  function CountOf(text: string): (r: Option<u32>)
    ensures r.Some? ==> StripSuffix(text, " options").Some?
                        && ParseU32(StripSuffix(text, " options").value) == r
  {
    match StripSuffix(text, " options")
    case None => None
    case Some(n) => ParseU32(n)
  }

  /** The first counter text of the form `"<u32> options"`. */
  function OfferCount(d: Document): Option<u32> {
    FirstSome(Texts(FindInDocument(d, Attr("id", "aod-filter-offer-count-string"))), CountOf)
  }

  /** `(total + OFFERS_PER_PAGE - 1) / OFFERS_PER_PAGE`, evaluated left to right in `u32`:
      the first addition overflows for the ten largest totals. */
  function PageCount(total: u32): (r: Option<u32>)
    ensures r.None? <==> total > U32_MAX - OFFERS_PER_PAGE
    ensures r.Some? ==> OFFERS_PER_PAGE * (r.value - 1) < total <= OFFERS_PER_PAGE * r.value || (total == 0 && r.value == 0)
  {
    if total + OFFERS_PER_PAGE > U32_MAX then None
    else Some((total + OFFERS_PER_PAGE - 1) / OFFERS_PER_PAGE)
  }

  /** The pages requested after the first: `2..=count`. */
  function LaterPages(count: u32): (r: seq<u32>)
    ensures |r| == if count < 2 then 0 else count - 1
    ensures forall k :: 0 <= k < |r| ==> r[k] == k + 2 && 2 <= r[k] <= count
  {
    if count < 2 then [] else seq(count - 1, k requires 0 <= k < count - 1 => k + 2)
  }

  /** A counter text is read back as the count it displays. */
  lemma CountOfDisplay(n: u32)
    ensures CountOf(NatToString(n) + " options") == Some(n)
  {
    StripSuffixOf(NatToString(n), " options");
    ParseU32OfDisplay(n);
  }

  // ---- `get_offers_for_asin` ----

  /** The offer elements of a page, in document order. */
  function OfferNodes(d: Document): seq<Node> {
    FindInDocument(d, Attr("id", "aod-offer"))
  }

  /** `Offer::try_from` on each node. */
  function TryAll(nodes: seq<Node>): (rs: seq<Result<Offer, MissingOfferField>>)
    ensures |rs| == |nodes| && forall k :: 0 <= k < |nodes| ==> rs[k] == Offer.TryFrom(nodes[k])
  {
    MapSeq(Offer.TryFrom, nodes)
  }

  /** One warning per offer that failed to parse, in order: every node yields either an
      offer or a warning. */
  function FailureWarnings(asin: string, rs: seq<Result<Offer, MissingOfferField>>): (ws: seq<Warning>)
    ensures |ws| + |OkValues(rs)| == |rs|
  {
    if rs == [] then []
    else
      FailureWarnings(asin, rs[..|rs| - 1])
      + match rs[|rs| - 1]
        case Ok(_) => []
        case Err(e) => [OfferParseFailed(asin, e)]
  }

  /** The warnings name the parse errors, one each and in order. */
  lemma {:induction false} FailureWarningsInOrder(asin: string, rs: seq<Result<Offer, MissingOfferField>>)
    ensures FailureWarnings(asin, rs) == MapSeq(e => OfferParseFailed(asin, e), Errors(rs))
  {
    if rs != [] {
      var front := rs[..|rs| - 1];
      FailureWarningsInOrder(asin, front);
      match rs[|rs| - 1]
      case Ok(_) =>
      case Err(e) =>
        MapSeqAppend(e => OfferParseFailed(asin, e), Errors(front), [e]);
    }
  }

  /** The offers that parse on a page, in document order. */
  function PageOffers(d: Document): seq<Offer> {
    OkValues(TryAll(OfferNodes(d)))
  }

  /** What collecting has produced so far: the offers or the error, and the warnings. */
  datatype Collection = Collection(result: Result<seq<Offer>, ApiError>, warnings: seq<Warning>)

  /** The later pages in arrival order: each page's parsed offers are appended, a page
      with no offer elements is reported, and the first transport error ends the collection. */
  function CollectLater(asin: string, pages: seq<FetchResult>): Collection
  {
    if pages == [] then Collection(Ok([]), [])
    else AddPage(asin, CollectLater(asin, pages[..|pages| - 1]), pages[|pages| - 1])
  }

  /** An error of the later-page collection is always the transport failure of one of the
      pages. */
  lemma {:induction false} LaterErrorIsAFailedPage(asin: string, pages: seq<FetchResult>)
    ensures var c := CollectLater(asin, pages);
            c.result.Err? ==> c.result.error.Transport? && TransportFailure(c.result.error.message) in pages
  {
    if pages != [] {
      LaterErrorIsAFailedPage(asin, pages[..|pages| - 1]);
      InFront(pages);
    }
  }

  /** The warnings a fetched later page adds: its offers that fail to parse, and a note when
      it has no offer element at all. */
  function PageWarnings(asin: string, d: Document): (ws: seq<Warning>)
    ensures EmptyOfferPage(asin) in ws <==> OfferNodes(d) == []
  {
    var rs := TryAll(OfferNodes(d));
    FailureWarningsAreParseFailures(asin, rs);
    FailureWarnings(asin, rs) + (if rs == [] then [EmptyOfferPage(asin)] else [])
  }

  /** One more later page arrives. */
  function AddPage(asin: string, c: Collection, page: FetchResult): (r: Collection)
    ensures c.result.Err? ==> r == c
    ensures c.result.Ok? && page.TransportFailure? ==> r == Collection(Err(Transport(page.message)), c.warnings)
    ensures c.result.Ok? && page.Fetched?
            ==> r == Collection(Ok(c.result.value + PageOffers(page.page)), c.warnings + PageWarnings(asin, page.page))
  {
    match c.result
    case Err(_) => c
    case Ok(offers) =>
      match page
      case TransportFailure(e) => Collection(Err(Transport(e)), c.warnings)
      case Fetched(d) => Collection(Ok(offers + PageOffers(d)), c.warnings + PageWarnings(asin, d))
  }

  /** How many offer-page requests `buffer_unordered` keeps in flight: the limiter's
      `max_sync_usages`, which `AmazonApi::default` sets to 20 permits. */
  const MAX_IN_FLIGHT: nat := 20

  /** The requests of `pending` (in issue order) that are in flight: `buffer_unordered`
      refills its set from the stream before it yields, so the first `MAX_IN_FLIGHT` of
      those still pending have been issued and none of the others. */
  function InFlight(pending: seq<u32>): (n: nat)
    ensures n <= |pending| && n <= MAX_IN_FLIGHT
    ensures pending != [] ==> n > 0
    ensures n == |pending| || n == MAX_IN_FLIGHT
  {
    if |pending| < MAX_IN_FLIGHT then |pending| else MAX_IN_FLIGHT
  }

  /** The order in which the requests for `pending` complete.  `buffer_unordered` yields
      the results as they complete, which the network decides: `picks[k]` chooses which of
      the requests in flight completes k-th.  Every choice is an order of all of `pending`,
      each page exactly once. */
  function Arrival(pending: seq<u32>, picks: seq<nat>): (order: seq<u32>)
    ensures |order| == |pending| && multiset(order) == multiset(pending)
    decreases |pending|
  {
    if pending == [] then []
    else
      var i := if picks != [] && picks[0] < InFlight(pending) then picks[0] else 0;
      assert pending == pending[..i] + [pending[i]] + pending[i + 1..];
      [pending[i]] + Arrival(pending[..i] + pending[i + 1..], if picks == [] then [] else picks[1..])
  }

  /** The orders `buffer_unordered` can produce: each arrival is one of the requests in
      flight at that moment, the rest arriving after it. */
  predicate InFlightOrder(pending: seq<u32>, order: seq<u32>)
    decreases |pending|
  {
    if pending == [] then order == []
    else
      order != [] &&
      exists i :: 0 <= i < InFlight(pending) && pending[i] == order[0]
                  && InFlightOrder(pending[..i] + pending[i + 1..], order[1..])
  }

  /** The pages requested after page 1: `2..=count` when page 1 shows an offer count
      whose page count fits in `u32`, and none otherwise. */
  function LaterPagesOf(first: FetchResult): (pages: seq<u32>)
    ensures forall k :: 0 <= k < |pages| ==> pages[k] == k + 2
  {
    match first
    case TransportFailure(_) => []
    case Fetched(d) =>
      match OfferCount(d)
      case None => []
      case Some(total) =>
        match PageCount(total)
        case None => []
        case Some(count) => LaterPages(count)
  }

  /** The offer-page URL of each page number. */
  function PageUrl(asin: string): u32 --> string
  {
    (page: u32) requires page >= 1 => OfferPageUrl(asin, page)
  }

  /** The offer-page URLs of `pages`, in order. */
  function OfferPageUrls(asin: string, pages: seq<u32>): (urls: seq<string>)
    requires forall k :: 0 <= k < |pages| ==> pages[k] >= 1
    ensures |urls| == |pages| && forall k :: 0 <= k < |pages| ==> urls[k] == OfferPageUrl(asin, pages[k])
  {
    MapSeq(PageUrl(asin), pages)
  }

  /** The URLs `get_offers_for_asin(asin)` requests when `pages` follow page 1: page 1, then
      the later pages.  (After a transport error, which of the later requests had already
      been sent depends on the concurrency limit, which is not modelled.) */
  function OfferRequests(asin: string, pages: seq<u32>): seq<string>
    requires forall k :: 0 <= k < |pages| ==> pages[k] >= 1
  {
    OfferPageUrls(asin, [1] + pages)
  }

  /** The requests are the page-1 request followed by those for `pages`. */
  lemma OfferRequestsSplit(asin: string, pages: seq<u32>)
    requires forall k :: 0 <= k < |pages| ==> pages[k] >= 1
    ensures OfferRequests(asin, pages) == [OfferPageUrl(asin, 1)] + OfferPageUrls(asin, pages)
  {
    MapSeqAppend(PageUrl(asin), [1], pages);
    MapSeqSingle(PageUrl(asin), 1);
  }

  /** With no later page, page 1 is the only request. */
  lemma OnlyFirstPage(asin: string)
    ensures OfferRequests(asin, []) == [OfferPageUrl(asin, 1)]
  {
    var requests := OfferRequests(asin, []);
    assert requests[0] == OfferPageUrl(asin, ([1] + [])[0]);
    SamePointwise(requests, [OfferPageUrl(asin, 1)]);
  }

  /** `get_offers_for_asin(asin)`: `first` is the response to the page-1 request, `fetch`
      the response to the request for each later page, and `picks` the order in which
      those responses arrive. */
  function GetOffers(asin: string, first: FetchResult, fetch: u32 -> FetchResult, picks: seq<nat>): (r: Collection)
    ensures r.result == Err(PageCountOverflow)
            <==> first.Fetched? && OfferCount(first.page).Some? && PageCount(OfferCount(first.page).value).None?
    ensures r.result.Err? && r.result.error.Transport?
            ==> first == TransportFailure(r.result.error.message)
                || exists p :: p in LaterPagesOf(first) && fetch(p) == TransportFailure(r.result.error.message)
    ensures first.Fetched? ==> FailureWarnings(asin, TryAll(OfferNodes(first.page))) <= r.warnings
    ensures first.Fetched? && OfferCount(first.page).Some? && r.result.Ok? ==> PageOffers(first.page) <= r.result.value
  {
    match first
    case TransportFailure(e) => Collection(Err(Transport(e)), [])
    case Fetched(d) =>
      var rs := TryAll(OfferNodes(d));
      var ws := FailureWarnings(asin, rs);
      match OfferCount(d)
      case None => Collection(Ok([]), ws + [MissingOfferCount(asin)])
      case Some(total) =>
        match PageCount(total)
        case None => Collection(Err(PageCountOverflow), ws)
        case Some(count) =>
          var order := Arrival(LaterPages(count), picks);
          var c := CollectLater(asin, MapSeq(fetch, order));
          LaterErrorIsAFailedPage(asin, MapSeq(fetch, order));
          FailuresWereRequested(fetch, order, LaterPages(count));
          Collection(if c.result.Ok? then Ok(OkValues(rs) + c.result.value) else c.result, ws + c.warnings)
  }

  /** A failed response among those for `order`, an order of `pending`, answers a request
      for one of `pending`. */
  lemma FailuresWereRequested(fetch: u32 -> FetchResult, order: seq<u32>, pending: seq<u32>)
    requires multiset(order) == multiset(pending)
    ensures forall e :: TransportFailure(e) in MapSeq(fetch, order)
                        ==> exists p :: p in pending && fetch(p) == TransportFailure(e)
  {
    forall e | TransportFailure(e) in MapSeq(fetch, order)
      ensures exists p :: p in pending && fetch(p) == TransportFailure(e)
    {
      var k :| 0 <= k < |order| && MapSeq(fetch, order)[k] == TransportFailure(e);
      assert order[k] in multiset(pending);
    }
  }

  /** Once a transport error has ended the collection, later arrivals change nothing. */
  lemma {:induction false} ErrorIsFinal(asin: string, pages: seq<FetchResult>, j: nat)
    requires j <= |pages| && CollectLater(asin, pages[..j]).result.Err?
    ensures CollectLater(asin, pages) == CollectLater(asin, pages[..j])
    decreases |pages| - j
  {
    if j < |pages| {
      CollectStep(asin, pages, j);
      ErrorIsFinal(asin, pages, j + 1);
    } else {
      assert pages[..j] == pages;
    }
  }

  lemma OkValuesSnoc<T(!new), E>(rs: seq<Result<T, E>>, r: Result<T, E>)
    ensures OkValues(rs + [r]) == OkValues(rs) + (if r.Ok? then [r.value] else [])
  {
    assert (rs + [r])[..|rs|] == rs;
  }

  lemma FailureWarningsSnoc(asin: string, rs: seq<Result<Offer, MissingOfferField>>, r: Result<Offer, MissingOfferField>)
    ensures FailureWarnings(asin, rs + [r]) == FailureWarnings(asin, rs) + (if r.Err? then [OfferParseFailed(asin, r.error)] else [])
  {
    assert (rs + [r])[..|rs|] == rs;
  }

  lemma TryAllSnoc(nodes: seq<Node>, i: nat)
    requires i < |nodes|
    ensures TryAll(nodes[..i + 1]) == TryAll(nodes[..i]) + [Offer.TryFrom(nodes[i])]
  {
  }

  lemma ParseStep(asin: string, nodes: seq<Node>, i: nat)
    requires i < |nodes|
    ensures var r := Offer.TryFrom(nodes[i]);
            && OkValues(TryAll(nodes[..i + 1])) == OkValues(TryAll(nodes[..i])) + (if r.Ok? then [r.value] else [])
            && FailureWarnings(asin, TryAll(nodes[..i + 1]))
               == FailureWarnings(asin, TryAll(nodes[..i])) + (if r.Err? then [OfferParseFailed(asin, r.error)] else [])
  {
    TryAllSnoc(nodes, i);
    OkValuesSnoc(TryAll(nodes[..i]), Offer.TryFrom(nodes[i]));
    FailureWarningsSnoc(asin, TryAll(nodes[..i]), Offer.TryFrom(nodes[i]));
  }

  lemma {:induction false} FailureWarningsAreParseFailures(asin: string, rs: seq<Result<Offer, MissingOfferField>>)
    ensures forall w :: w in FailureWarnings(asin, rs) ==> w.OfferParseFailed?
  {
    if rs != [] {
      FailureWarningsAreParseFailures(asin, rs[..|rs| - 1]);
    }
  }

  /** One page's offer elements, in document order: the offers that parse, a warning for
      each one that does not, and the number of elements seen. */
  method ParseOffers(asin: string, nodes: seq<Node>) returns (offers: seq<Offer>, warnings: seq<Warning>, seen: nat)
    ensures offers == OkValues(TryAll(nodes))
    ensures warnings == FailureWarnings(asin, TryAll(nodes))
    ensures seen == |nodes|
  {
    offers, warnings, seen := [], [], 0;
    while seen < |nodes|
      invariant 0 <= seen <= |nodes|
      invariant offers == OkValues(TryAll(nodes[..seen]))
      invariant warnings == FailureWarnings(asin, TryAll(nodes[..seen]))
    {
      var parsed := Offer.TryFrom(nodes[seen]);
      ParseStep(asin, nodes, seen);
      if parsed.Ok? {
        offers := offers + [parsed.value];
      } else {
        warnings := warnings + [OfferParseFailed(asin, parsed.error)];
      }
      seen := seen + 1;
    }
    assert nodes[..seen] == nodes;
  }

  lemma Regroup<T>(a: seq<T>, b: seq<T>, c: seq<T>, d: seq<T>)
    ensures a + (b + (c + d)) == a + b + c + d
  {
  }

  lemma CollectStep(asin: string, pages: seq<FetchResult>, j: nat)
    requires j < |pages|
    ensures CollectLater(asin, pages[..j + 1]) == AddPage(asin, CollectLater(asin, pages[..j]), pages[j])
  {
    assert pages[..j + 1][..j] == pages[..j];
  }

  /** A fetched page extends a collection that had not failed. */
  lemma CollectFetched(asin: string, pages: seq<FetchResult>, j: nat)
    requires j < |pages| && pages[j].Fetched? && CollectLater(asin, pages[..j]).result.Ok?
    ensures var c := CollectLater(asin, pages[..j]);
            CollectLater(asin, pages[..j + 1])
            == Collection(Ok(c.result.value + PageOffers(pages[j].page)), c.warnings + PageWarnings(asin, pages[j].page))
  {
    CollectStep(asin, pages, j);
  }

  /** A failed page ends a collection that had not failed. */
  lemma CollectFailedPage(asin: string, pages: seq<FetchResult>, j: nat)
    requires j < |pages| && pages[j].TransportFailure? && CollectLater(asin, pages[..j]).result.Ok?
    ensures CollectLater(asin, pages) == Collection(Err(Transport(pages[j].message)), CollectLater(asin, pages[..j]).warnings)
  {
    assert pages[..j + 1][..j] == pages[..j];
    ErrorIsFinal(asin, pages, j + 1);
  }

  /** The collector: page 1's offers, then the offer count, then each later page as it
      arrives.  The warnings it logs and the URLs it requests are returned with the result. */
  method GetOffersForAsin(asin: string, first: FetchResult, fetch: u32 -> FetchResult, picks: seq<nat>)
    returns (r: Result<seq<Offer>, ApiError>, warnings: seq<Warning>, requested: seq<string>)
    ensures Collection(r, warnings) == GetOffers(asin, first, fetch, picks)
    ensures requested == OfferRequests(asin, LaterPagesOf(first))
  {
    requested := [OfferPageUrl(asin, 1)];
    if first.TransportFailure? {
      return Err(Transport(first.message)), [], requested;
    }
    var d := first.page;
    var offerList, pageWarnings, _ := ParseOffers(asin, OfferNodes(d));
    warnings := pageWarnings;
    var total := OfferCount(d);
    if total.None? {
      return Ok([]), warnings + [MissingOfferCount(asin)], requested;
    }
    var pageCount := PageCount(total.value);
    if pageCount.None? {
      return Err(PageCountOverflow), warnings, requested;
    }
    var pages := LaterPages(pageCount.value);
    requested := requested + OfferPageUrls(asin, pages);
    var later := MapSeq(fetch, Arrival(pages, picks));
    OfferRequestsSplit(asin, pages);
    r, warnings := CollectLaterPages(asin, later, offerList, warnings);
  }

  /** The body of the `while let` loop for one fetched page: its offers, a warning for each
      offer that fails to parse, and a warning when the page has no offer element. */
  method ParseLaterPage(asin: string, d: Document) returns (offers: seq<Offer>, warnings: seq<Warning>)
    ensures offers == PageOffers(d)
    ensures warnings == PageWarnings(asin, d)
  {
    var offersOnPage;
    offers, warnings, offersOnPage := ParseOffers(asin, OfferNodes(d));
    if offersOnPage == 0 {
      warnings := warnings + [EmptyOfferPage(asin)];
    }
  }

  /** The `while let` loop of the collector: each later page as it arrives extends
      `offerList` and `warnings`; the first transport error is returned at once. */
  method CollectLaterPages(asin: string, later: seq<FetchResult>, offers: seq<Offer>, logged: seq<Warning>)
    returns (r: Result<seq<Offer>, ApiError>, warnings: seq<Warning>)
    ensures var c := CollectLater(asin, later);
            && r == (if c.result.Ok? then Ok(offers + c.result.value) else c.result)
            && warnings == logged + c.warnings
  {
    var offerList := offers;
    warnings := logged;
    var j := 0;
    while j < |later|
      invariant 0 <= j <= |later|
      invariant CollectLater(asin, later[..j]).result.Ok?
      invariant offerList == offers + CollectLater(asin, later[..j]).result.value
      invariant warnings == logged + CollectLater(asin, later[..j]).warnings
    {
      if later[j].TransportFailure? {
        CollectFailedPage(asin, later, j);
        return Err(Transport(later[j].message)), warnings;
      }
      ghost var c := CollectLater(asin, later[..j]);
      CollectFetched(asin, later, j);
      var pageOffers, pageWarnings := ParseLaterPage(asin, later[j].page);
      Associate(offers, c.result.value, pageOffers);
      Associate(logged, c.warnings, pageWarnings);
      offerList, warnings := offerList + pageOffers, warnings + pageWarnings;
      j := j + 1;
    }
    assert later[..j] == later;
    return Ok(offerList), warnings;
  }

  // ---- Properties of the collection policy ----

  /** The offers of the later pages, in arrival order. */
  function LaterOffers(pages: seq<FetchResult>): seq<Offer>
    requires forall k :: 0 <= k < |pages| ==> pages[k].Fetched?
  {
    if pages == [] then [] else LaterOffers(pages[..|pages| - 1]) + PageOffers(pages[|pages| - 1].page)
  }

  /** With every later page fetched, the result is page 1's offers in document order, then
      each later page's offers in arrival order, the offers that fail to parse left out. */
  lemma {:induction false} OffersInArrivalOrder(asin: string, pages: seq<FetchResult>)
    requires forall k :: 0 <= k < |pages| ==> pages[k].Fetched?
    ensures CollectLater(asin, pages).result == Ok(LaterOffers(pages))
  {
    if pages != [] {
      OffersInArrivalOrder(asin, pages[..|pages| - 1]);
    }
  }

  /** With every later page fetched, the result is page 1's offers in document order, then
      each later page's offers in the order the pages arrive, the offers that fail to parse
      left out. */
  lemma AllPagesFetched(asin: string, d: Document, fetch: u32 -> FetchResult, picks: seq<nat>)
    requires OfferCount(d).Some? && PageCount(OfferCount(d).value).Some?
    requires forall p :: p in LaterPagesOf(Fetched(d)) ==> fetch(p).Fetched?
    ensures var later := MapSeq(fetch, Arrival(LaterPagesOf(Fetched(d)), picks));
            (forall k :: 0 <= k < |later| ==> later[k].Fetched?)
            && GetOffers(asin, Fetched(d), fetch, picks).result == Ok(PageOffers(d) + LaterOffers(later))
  {
    var order := Arrival(LaterPagesOf(Fetched(d)), picks);
    var later := MapSeq(fetch, order);
    forall k | 0 <= k < |later|
      ensures later[k].Fetched?
    {
      assert order[k] in multiset(order);
    }
    OffersInArrivalOrder(asin, later);
  }

  /** The first transport error among the later pages is the result, whatever follows. */
  lemma {:induction false} FirstTransportErrorAborts(asin: string, pages: seq<FetchResult>, j: nat)
    requires j < |pages| && pages[j].TransportFailure?
    requires forall k :: 0 <= k < j ==> pages[k].Fetched?
    ensures CollectLater(asin, pages).result == Err(Transport(pages[j].message))
  {
    assert forall k :: 0 <= k < j ==> pages[..j][k].Fetched?;
    OffersInArrivalOrder(asin, pages[..j]);
    CollectFailedPage(asin, pages, j);
  }

  /** Without an offer count the result is empty, even when page 1 had offers, and no
      later page is requested. */
  lemma NoCountNoOffers(asin: string, d: Document, fetch: u32 -> FetchResult, picks: seq<nat>)
    requires OfferCount(d).None?
    ensures GetOffers(asin, Fetched(d), fetch, picks).result == Ok([])
    ensures MissingOfferCount(asin) in GetOffers(asin, Fetched(d), fetch, picks).warnings
    ensures OfferRequests(asin, LaterPagesOf(Fetched(d))) == [OfferPageUrl(asin, 1)]
  {
    OnlyFirstPage(asin);
  }

  /** At most ten offers fit on the first page: no later page is requested, and the result
      is page 1's offers with page 1's warnings, whatever the network would answer. */
  lemma FewOffersNeedOnePage(asin: string, d: Document, fetch: u32 -> FetchResult, picks: seq<nat>)
    requires OfferCount(d).Some? && OfferCount(d).value <= OFFERS_PER_PAGE
    ensures PageCount(OfferCount(d).value).Some? && LaterPagesOf(Fetched(d)) == []
    ensures OfferRequests(asin, LaterPagesOf(Fetched(d))) == [OfferPageUrl(asin, 1)]
    ensures GetOffers(asin, Fetched(d), fetch, picks)
            == Collection(Ok(PageOffers(d)), FailureWarnings(asin, TryAll(OfferNodes(d))))
  {
    assert LaterPagesOf(Fetched(d)) == [];
    OnlyFirstPage(asin);
    assert Arrival(LaterPagesOf(Fetched(d)), picks) == [];
    assert MapSeq(fetch, Arrival(LaterPagesOf(Fetched(d)), picks)) == [];
    assert PageOffers(d) + [] == PageOffers(d);
    assert FailureWarnings(asin, TryAll(OfferNodes(d))) + [] == FailureWarnings(asin, TryAll(OfferNodes(d)));
  }

  /** `"25 options"` means 25 offers and 3 pages: pages 2 and 3 are requested after page 1,
      and both responses are consumed, in either order. */
  lemma TwentyFiveOptions(asin: string, d: Document, picks: seq<nat>)
    requires OfferCount(d) == Some(25)
    ensures CountOf("25 options") == Some(25)
    ensures LaterPagesOf(Fetched(d)) == [2, 3]
    ensures OfferRequests(asin, LaterPagesOf(Fetched(d))) == [OfferPageUrl(asin, 1), OfferPageUrl(asin, 2), OfferPageUrl(asin, 3)]
    ensures Arrival(LaterPagesOf(Fetched(d)), picks) == [2, 3] || Arrival(LaterPagesOf(Fetched(d)), picks) == [3, 2]
  {
    TwentyFiveDisplayed();
    ThreePages(d);
    TwoLaterPages(asin);
    TwoPageOrders(Arrival([2, 3], picks));
  }

  /** Pages 2 and 3 to follow: three requests. */
  lemma TwoLaterPages(asin: string)
    ensures OfferRequests(asin, [2, 3]) == [OfferPageUrl(asin, 1), OfferPageUrl(asin, 2), OfferPageUrl(asin, 3)]
  {
    var pages: seq<u32> := [1] + [2, 3];
    assert pages == [1, 2, 3];
    ThreePageUrls(asin);
  }

  lemma TwentyFiveDisplayed()
    ensures CountOf("25 options") == Some(25)
  {
    assert NatToString(25) == "25";
    assert "25 options" == NatToString(25) + " options";
    CountOfDisplay(25);
  }

  lemma ThreePages(d: Document)
    requires OfferCount(d) == Some(25)
    ensures LaterPagesOf(Fetched(d)) == [2, 3]
  {
    PagesForTwentyFive();
  }

  lemma PagesForTwentyFive()
    ensures PageCount(25) == Some(3) && LaterPages(3) == [2, 3]
  {
    assert OFFERS_PER_PAGE == 10;
    assert 34 / 10 == 3;
    var pages := LaterPages(3);
    assert |pages| == 2 && pages[0] == 2 && pages[1] == 3;
  }

  lemma ThreePageUrls(asin: string)
    ensures OfferPageUrls(asin, [1, 2, 3]) == [OfferPageUrl(asin, 1), OfferPageUrl(asin, 2), OfferPageUrl(asin, 3)]
  {
  }

  /** Two pages arrive in one order or the other. */
  lemma TwoPageOrders(order: seq<u32>)
    requires multiset(order) == multiset{2, 3}
    ensures order == [2, 3] || order == [3, 2]
  {
    assert |order| == |multiset(order)| == 2;
    assert order == [order[0]] + [order[1]];
    assert multiset(order) == multiset{order[0]} + multiset{order[1]};
    assert order[0] in multiset(order) && order[1] in multiset(order);
    if order[0] == 2 {
      assert multiset{order[1]} == multiset{3};
    } else {
      assert multiset{order[1]} == multiset{2};
    }
  }

  /** Every page is requested once: with the later pages numbered 2, 3, … as
      `LaterPagesOf` numbers them, the request URLs are pairwise different. */
  lemma EachPageRequestedOnce(asin: string, pages: seq<u32>)
    requires forall k :: 0 <= k < |pages| ==> pages[k] == k + 2
    ensures var urls := OfferRequests(asin, pages);
            forall i, j :: 0 <= i < j < |urls| ==> urls[i] != urls[j]
  {
    var all: seq<u32> := [1] + pages;
    var urls := OfferRequests(asin, pages);
    forall i, j | 0 <= i < j < |urls|
      ensures urls[i] != urls[j]
    {
      assert all[i] == i + 1 && all[j] == j + 1;
      UrlsTellPagesApart(asin, all[i], all[j]);
    }
  }

  /** Equal offer-page URLs name equal pages. */
  lemma UrlsTellPagesApart(asin: string, p: u32, q: u32)
    requires p >= 1 && q >= 1
    ensures OfferPageUrl(asin, p) == OfferPageUrl(asin, q) ==> p == q
  {
    if OfferPageUrl(asin, p) == OfferPageUrl(asin, q) {
      OfferPageUrlInjective(asin, p, q);
    }
  }

  /** Choosing request `i`, one of those in flight, first puts page `pending[i]` first, then the others. */
  lemma ArrivalFirst(pending: seq<u32>, i: nat, tail: seq<nat>)
    requires i < InFlight(pending)
    ensures Arrival(pending, [i] + tail) == [pending[i]] + Arrival(pending[..i] + pending[i + 1..], tail)
  {
    var picks := [i] + tail;
    assert picks[0] == i && picks[1..] == tail;
  }

  lemma CanArrive(pending: seq<u32>, picks: seq<nat>, order: seq<u32>)
    requires Arrival(pending, picks) == order
    ensures exists p :: Arrival(pending, p) == order
  {
  }

  /** Once `pending[i]` has arrived first, the rest of `order` is an order of the others. */
  lemma OthersArriveLater(pending: seq<u32>, order: seq<u32>, i: nat)
    requires multiset(order) == multiset(pending)
    requires i < |pending| && |order| == |pending| && pending[i] == order[0]
    ensures multiset(order[1..]) == multiset(pending[..i] + pending[i + 1..])
  {
    assert pending == pending[..i] + [pending[i]] + pending[i + 1..];
    assert order == [order[0]] + order[1..];
    assert multiset(order[1..]) == multiset(order) - multiset{order[0]};
    assert multiset(pending[..i] + pending[i + 1..]) == multiset(pending) - multiset{pending[i]};
  }

  /** Every arrival order respects the in-flight limit. */
  lemma {:induction false} ArrivalIsInFlightOrder(pending: seq<u32>, picks: seq<nat>)
    ensures InFlightOrder(pending, Arrival(pending, picks))
    decreases |pending|
  {
    if pending != [] {
      var i := if picks != [] && picks[0] < InFlight(pending) then picks[0] else 0;
      var rest := pending[..i] + pending[i + 1..];
      var tail: seq<nat> := if picks == [] then [] else picks[1..];
      var order := Arrival(pending, picks);
      assert order == [pending[i]] + Arrival(rest, tail);
      ArrivalIsInFlightOrder(rest, tail);
      assert order[1..] == Arrival(rest, tail);
    }
  }

  /** Any order the in-flight limit allows is an order in which the pages can arrive. */
  lemma {:induction false} EveryOrderCanArrive(pending: seq<u32>, order: seq<u32>)
    requires InFlightOrder(pending, order)
    ensures exists picks :: Arrival(pending, picks) == order
    decreases |pending|
  {
    if pending == [] {
      var picks: seq<nat> := [];
      CanArrive(pending, picks, order);
    } else {
      var i: nat :| i < InFlight(pending) && pending[i] == order[0]
                     && InFlightOrder(pending[..i] + pending[i + 1..], order[1..]);
      var rest := pending[..i] + pending[i + 1..];
      EveryOrderCanArrive(rest, order[1..]);
      var tail :| Arrival(rest, tail) == order[1..];
      var picks: seq<nat> := [i] + tail;
      ArrivalFirst(pending, i, tail);
      HeadTail(order);
      CanArrive(pending, picks, order);
    }
  }

  /** With at most `MAX_IN_FLIGHT` pages to fetch, every order of them is allowed. */
  lemma {:induction false} FewPagesAnyOrder(pending: seq<u32>, order: seq<u32>)
    requires |pending| <= MAX_IN_FLIGHT
    requires multiset(order) == multiset(pending)
    ensures InFlightOrder(pending, order)
    decreases |pending|
  {
    if pending == [] {
      assert |order| == |multiset(order)| == 0;
    } else {
      assert |order| == |multiset(order)| == |multiset(pending)| == |pending|;
      assert order[0] in multiset(pending);
      var i: nat :| i < |pending| && pending[i] == order[0];
      var rest := pending[..i] + pending[i + 1..];
      OthersArriveLater(pending, order, i);
      FewPagesAnyOrder(rest, order[1..]);
    }
  }

  /** Beyond `MAX_IN_FLIGHT` later pages, the first page to arrive is one of the first
      `MAX_IN_FLIGHT` requested: page `MAX_IN_FLIGHT + 2` is not yet requested then. */
  lemma FirstArrivalIsInFlight(count: u32, picks: seq<nat>)
    requires count >= 2
    ensures var order := Arrival(LaterPages(count), picks);
            2 <= order[0] < MAX_IN_FLIGHT + 2
  {
    var pending := LaterPages(count);
    var order := Arrival(pending, picks);
    var i := if picks != [] && picks[0] < InFlight(pending) then picks[0] else 0;
    assert order[0] == pending[i] == i + 2;
  }

  /** An offer that fails to parse is skipped: it adds a warning, and the offers around it
      are kept in order. */
  lemma {:induction false} BadOfferIsSkipped(asin: string, a: seq<Node>, bad: Node, b: seq<Node>)
    requires Offer.TryFrom(bad).Err?
    ensures OkValues(TryAll(a + [bad] + b)) == OkValues(TryAll(a)) + OkValues(TryAll(b))
  {
    var r := Offer.TryFrom(bad);
    var ra, rb := TryAll(a), TryAll(b);
    MapSeqAppend(Offer.TryFrom, a, [bad]);
    MapSeqAppend(Offer.TryFrom, a + [bad], b);
    assert TryAll([bad]) == [r];
    assert TryAll(a + [bad] + b) == ra + [r] + rb;
    OkValuesAppend(ra + [r], rb);
    OkValuesSnoc(ra, r);
  }

  /** A failed first-page request is the result, and nothing else is requested. */
  lemma FirstPageFailure(asin: string, e: string, fetch: u32 -> FetchResult, picks: seq<nat>)
    ensures GetOffers(asin, TransportFailure(e), fetch, picks) == Collection(Err(Transport(e)), [])
    ensures OfferRequests(asin, LaterPagesOf(TransportFailure(e))) == [OfferPageUrl(asin, 1)]
  {
    OnlyFirstPage(asin);
  }
}
