/** The product page: its details table, its breadcrumb trail of departments and its title
    (src/scraper/product.rs). */
module Products {
  import opened Common
  import opened Strings
  import opened Ints
  import opened Html

  datatype ItemNotFound = ItemNotFound

  // ---- The category link pattern `[?&]node=(\d+)$` ----

  /** The pattern matches `h` at position `i`: `?` or `&`, then `node=`, then one or more
      Unicode digits running to the end of `h`. */
  predicate NodeMatchAt(h: string, i: int) {
    0 <= i && i + 7 <= |h| && (h[i] == '?' || h[i] == '&') && h[i + 1..i + 6] == "node="
    && forall k :: i + 6 <= k < |h| ==> IsUnicodeDigit(h[k])
  }

  /** The capture group of the leftmost match at or after `i`. */
  function NodeCaptureFrom(h: string, i: nat): (r: Option<string>)
    requires i <= |h|
    ensures r.None? <==> forall j :: i <= j < |h| ==> !NodeMatchAt(h, j)
    ensures r.Some? ==> exists j :: i <= j < |h| && NodeMatchAt(h, j) && r.value == h[j + 6..]
    decreases |h| - i
  {
    if i == |h| then None
    else if NodeMatchAt(h, i) then Some(h[i + 6..])
    else NodeCaptureFrom(h, i + 1)
  }

  /** `NODE_REGEX.captures(href)` and its group 1. */
  function NodeCapture(h: string): (r: Option<string>)
    ensures r.None? <==> forall j :: 0 <= j < |h| ==> !NodeMatchAt(h, j)
    ensures r.Some? ==> exists j :: 0 <= j < |h| && NodeMatchAt(h, j) && r.value == h[j + 6..]
  {
    NodeCaptureFrom(h, 0)
  }

  /** After a match position there is no further `?` or `&`. */
  lemma NoSeparatorAfterMatch(h: string, i: int)
    requires NodeMatchAt(h, i)
    ensures forall j :: i < j < |h| ==> h[j] != '?' && h[j] != '&'
  {
    forall j | i < j < |h|
      ensures h[j] != '?' && h[j] != '&'
    {
      if j < i + 6 {
        assert h[j] == h[i + 1..i + 6][j - i - 1];
      } else {
        assert IsUnicodeDigit(h[j]);
      }
    }
  }

  /** At most one position matches: a `?` or `&` can be neither inside `node=` nor among
      the digits, so the leftmost match is the only one. */
  lemma NodeMatchUnique(h: string, i: int, j: int)
    requires NodeMatchAt(h, i) && NodeMatchAt(h, j)
    ensures i == j
  {
    NoSeparatorAfterMatch(h, i);
    NoSeparatorAfterMatch(h, j);
  }

  /** The category id of a link target: the capture parsed as a `u64`. */
  function NodeIdOf(href: string): Option<u64> {
    match NodeCapture(href)
    case None => None
    case Some(digits) => ParseU64(digits)
  }

  /** A breadcrumb entry: the link text and the category id. */
  datatype Department = Department(name: string, node: u64) {

    /** `Department::url`: the URL carries the category id back. */
    function Url(): (url: string)
      ensures NodeIdOf(url) == Some(node)
    {
      var host := "https://amazon.com/b/";
      TrailingNodeParses(host, '?', node);
      host + ['?'] + "node=" + NatToString(node)
    }

    /** `Department::try_from(node)`: the link needs an `href` whose category id parses;
        the name is the trimmed inner HTML of the link. */
    static function TryFrom(n: Node): (r: Result<Department, ItemNotFound>)
      ensures r.Ok? <==> AttrOf(n, "href").Some? && NodeIdOf(AttrOf(n, "href").value).Some?
      ensures r.Ok? ==> r.value == Department(Trim(InnerHtml(n)), NodeIdOf(AttrOf(n, "href").value).value)
    {
      match AttrOf(n, "href")
      case None => Err(ItemNotFound)
      case Some(href) =>
        match NodeIdOf(href)
        case None => Err(ItemNotFound)
        case Some(id) => Ok(Department(Trim(InnerHtml(n)), id))
    }
  }

  /** Whatever comes before, a trailing `?node=` or `&node=` and a run of ASCII digits is
      the match, and the digits are the capture. */
  lemma {:induction false} TrailingDigitsCaptured(p: string, sep: char, ds: string)
    requires sep == '?' || sep == '&'
    requires ds != [] && AllAsciiDigits(ds)
    ensures NodeCapture(p + [sep] + "node=" + ds) == Some(ds)
  {
    var h := p + [sep] + "node=" + ds;
    var i := |p|;
    assert h[i] == sep;
    assert h[i + 1..i + 6] == "node=";
    assert h[i + 6..] == ds;
    forall k | i + 6 <= k < |h|
      ensures IsUnicodeDigit(h[k])
    {
      assert h[k] == ds[k - i - 6];
    }
    assert NodeMatchAt(h, i);
    var j :| 0 <= j < |h| && NodeMatchAt(h, j) && NodeCapture(h).value == h[j + 6..];
    NodeMatchUnique(h, i, j);
  }

  /** A link ending in `?node=` or `&node=` and the decimal text of a `u64` yields that id. */
  lemma TrailingNodeParses(p: string, sep: char, v: u64)
    requires sep == '?' || sep == '&'
    ensures NodeIdOf(p + [sep] + "node=" + NatToString(v)) == Some(v)
  {
    TrailingDigitsCaptured(p, sep, NatToString(v));
    ParseU64OfDisplay(v);
  }

  /** Digits that do not fit in a `u64` are not a category id. */
  lemma OverflowingNodeFails(p: string, sep: char, v: nat)
    requires sep == '?' || sep == '&'
    requires v > U64_MAX
    ensures NodeIdOf(p + [sep] + "node=" + NatToString(v)) == None
  {
    TrailingDigitsCaptured(p, sep, NatToString(v));
    ParseOfLargeDisplay(v, false, 0, U64_MAX);
  }

  /** A breadcrumb link to a department's URL reads back as that department, named by the
      trimmed link contents. */
  lemma LinkToUrlRoundTrip(d: Department, children: seq<Node>)
    ensures Department.TryFrom(Element("a", [("href", d.Url())], children))
            == Ok(Department(Trim(InnerHtml(Element("a", [("href", d.Url())], children))), d.node))
  {
  }

  /** A link without `href` is not a department. */
  lemma MissingHrefFails(children: seq<Node>)
    ensures Department.TryFrom(Element("a", [], children)) == Err(ItemNotFound)
  {
  }

  /** `DepartmentHierarchy`: the breadcrumb departments of a page. */
  datatype DepartmentHierarchy = DepartmentHierarchy(departments: seq<Department>) {

    /** `DepartmentHierarchy::try_from(document)`: never fails; keeps the breadcrumb links
        that parse, in document order, and drops the rest. */
    static function TryFrom(d: Document): (r: Result<DepartmentHierarchy, ItemNotFound>)
      ensures r.Ok?
      ensures forall dep :: dep in r.value.departments
                <==> exists l :: l in BreadcrumbLinks(d) && Department.TryFrom(l) == Ok(dep)
    {
      var rs := ParseLinks(BreadcrumbLinks(d));
      ParsedDepartments(BreadcrumbLinks(d));
      Ok(DepartmentHierarchy(OkValues(rs)))
    }
  }

  /** The links of the breadcrumb bar, in document order. */
  function BreadcrumbLinks(d: Document): seq<Node> {
    FindAll(FindInDocument(d, Attr("id", "wayfinding-breadcrumbs_feature_div")), Name("a"))
  }

  /** `Department::try_from` on each link, in order. */
  function ParseLinks(links: seq<Node>): (rs: seq<Result<Department, ItemNotFound>>)
    ensures |rs| == |links| && forall k :: 0 <= k < |links| ==> rs[k] == Department.TryFrom(links[k])
  {
    MapSeq(Department.TryFrom, links)
  }

  /** A department is parsed exactly when some link parses to it. */
  lemma ParsedDepartments(links: seq<Node>)
    ensures forall dep :: Ok(dep) in ParseLinks(links) <==> exists l :: l in links && Department.TryFrom(l) == Ok(dep)
  {
    var rs := ParseLinks(links);
    forall dep | Ok(dep) in rs
      ensures exists l :: l in links && Department.TryFrom(l) == Ok(dep)
    {
      var k :| 0 <= k < |rs| && rs[k] == Ok(dep);
      assert links[k] in links;
    }
    forall dep, l | l in links && Department.TryFrom(l) == Ok(dep)
      ensures Ok(dep) in rs
    {
      var k :| 0 <= k < |links| && links[k] == l;
      assert rs[k] == Ok(dep);
    }
  }

  /** Order is kept: the departments of two runs of links are those of the first run, then
      those of the second; a link that does not parse contributes nothing. */
  lemma BreadcrumbsKeepOrder(a: seq<Node>, b: seq<Node>)
    ensures OkValues(ParseLinks(a + b)) == OkValues(ParseLinks(a)) + OkValues(ParseLinks(b))
  {
    MapSeqAppend(Department.TryFrom, a, b);
    OkValuesAppend(ParseLinks(a), ParseLinks(b));
  }

  lemma UnparsableLinkIsDropped(l: Node)
    requires Department.TryFrom(l).Err?
    ensures OkValues(ParseLinks([l])) == []
  {
    assert ParseLinks([l]) == [Department.TryFrom(l)];
    assert OkValues(ParseLinks([l])) == OkValues([] + [Department.TryFrom(l)]);
  }

  // ---- The product details table ----

  /** The rows of the product details table. */
  function DetailRows(d: Document): seq<Node> {
    FindAll(FindInDocument(d, Attr("id", "productDetails_detailBullets_sections1")), Name("tr"))
  }

  /** Some trimmed text of a header cell of the row is `key`. */
  predicate RowHasKey(row: Node, key: string) {
    key in TrimAll(Texts(Find(row, Name("th"))))
  }

  /** The rows whose header names `key`, in order. */
  function RowsWithKey(rows: seq<Node>, key: string): (r: seq<Node>)
    ensures |r| <= |rows|
    ensures forall x :: x in r <==> x in rows && RowHasKey(x, key)
  {
    if rows == [] then []
    else
      var rest := RowsWithKey(rows[1..], key);
      assert forall x :: x in rows <==> x == rows[0] || x in rows[1..];
      if RowHasKey(rows[0], key) then [rows[0]] + rest else rest
  }

  /** The texts of the data cells of a row, in document order. */
  function CellTexts(row: Node): seq<string> {
    Texts(Find(row, Name("td")))
  }

  /** The data-cell texts of the keyed rows, in document order (the `flat_map` chain of
      `read_product_info` before its `next()`). */
  function KeyedTexts(rows: seq<Node>, key: string): seq<string> {
    Texts(FindAll(RowsWithKey(rows, key), Name("td")))
  }

  /** The data-cell texts a row contributes for `key`: all of them when its header names
      `key`, none otherwise. */
  function KeyedCells(key: string): Node -> seq<string> {
    row => if RowHasKey(row, key) then CellTexts(row) else []
  }

  /** The value for `key` read row by row: the first text of the first keyed row that has
      any data-cell text, trimmed. */
  function FirstKeyedValue(rows: seq<Node>, key: string): Option<string> {
    match FirstOfFlat(rows, KeyedCells(key))
    case None => None
    case Some(t) => Some(Trim(t))
  }

  /** One row more at the front of the table. */
  lemma KeyedTextsStep(rows: seq<Node>, key: string)
    requires rows != []
    ensures KeyedTexts(rows, key) == KeyedCells(key)(rows[0]) + KeyedTexts(rows[1..], key)
  {
    var rest := RowsWithKey(rows[1..], key);
    if RowHasKey(rows[0], key) {
      assert RowsWithKey(rows, key) == [rows[0]] + rest;
      FindAllAppend([rows[0]], rest, Name("td"));
      assert [rows[0]][1..] == [];
      assert FindAll([rows[0]], Name("td")) == Find(rows[0], Name("td")) + [];
      TextsAppend(Find(rows[0], Name("td")), FindAll(rest, Name("td")));
    } else {
      assert RowsWithKey(rows, key) == rest;
    }
  }

  /** The source's flat chain and the row-by-row reading agree. */
  lemma {:induction false} KeyedValue(rows: seq<Node>, key: string)
    ensures First(TrimAll(KeyedTexts(rows, key))) == FirstKeyedValue(rows, key)
    decreases |rows|
  {
    if rows != [] {
      var head := KeyedCells(key)(rows[0]);
      KeyedTextsStep(rows, key);
      KeyedValue(rows[1..], key);
      TrimAllAppend(head, KeyedTexts(rows[1..], key));
      if head == [] {
        assert FirstOfFlat(rows, KeyedCells(key)) == FirstOfFlat(rows[1..], KeyedCells(key));
      }
    }
  }

  /** `read_product_info(document, key)`: the first trimmed text of a data cell of a row
      whose header is `key`. */
  function ReadProductInfo(d: Document, key: string): (r: Option<string>)
    ensures r == FirstKeyedValue(DetailRows(d), key)
  {
    KeyedValue(DetailRows(d), key);
    First(TrimAll(KeyedTexts(DetailRows(d), key)))
  }

  /** The value read for `key` (`ReadProductInfo(d, key)` is `FirstKeyedValue` of the
      details rows) is the first data-cell text of the first keyed row that has one,
      trimmed; every keyed row before it has none, and no value means no keyed row has one. */
  lemma ProductInfoComesFromKeyedRow(rows: seq<Node>, key: string)
    ensures FirstKeyedValue(rows, key).None?
            <==> forall j :: 0 <= j < |rows| && RowHasKey(rows[j], key) ==> CellTexts(rows[j]) == []
    ensures FirstKeyedValue(rows, key).Some?
            ==> exists i :: 0 <= i < |rows| && RowHasKey(rows[i], key) && CellTexts(rows[i]) != []
                  && FirstKeyedValue(rows, key).value == Trim(CellTexts(rows[i])[0])
                  && forall j :: 0 <= j < i && RowHasKey(rows[j], key) ==> CellTexts(rows[j]) == []
  {
    var f := KeyedCells(key);
    forall j | 0 <= j < |rows|
      ensures f(rows[j]) == [] <==> !RowHasKey(rows[j], key) || CellTexts(rows[j]) == []
    {
    }
  }

  /** The first data-cell text of a row is the text of a text node inside one of its cells. */
  lemma FirstCellText(row: Node)
    requires CellTexts(row) != []
    ensures exists cell :: cell in Find(row, Name("td")) && Text(CellTexts(row)[0]) in Find(cell, IsText)
  {
    var t := CellTexts(row)[0];
    assert t in TextsOf(FindAll(Find(row, Name("td")), IsText));
    assert Text(t) in FindAll(Find(row, Name("td")), IsText);
  }

  /** The title: the first text under `productTitle`, trimmed (possibly empty). */
  function TitleOf(d: Document): (r: Option<string>)
    ensures r.None? <==> Texts(FindInDocument(d, Attr("id", "productTitle"))) == []
  {
    First(TrimAll(Texts(FindInDocument(d, Attr("id", "productTitle")))))
  }

  datatype Product = Product(asin: string, name: string, department: DepartmentHierarchy, manufacturer: string) {

    /** `Product::try_from(document)`: needs the `ASIN` row, the `Manufacturer` row and the
        title; never builds a partial product. */
    static function TryFrom(d: Document): (r: Result<Product, ItemNotFound>)
      ensures r.Ok? <==> ReadProductInfo(d, "ASIN").Some? && ReadProductInfo(d, "Manufacturer").Some?
                         && TitleOf(d).Some?
      ensures r.Err? ==> r.error == ItemNotFound
      ensures r.Ok? ==> r.value == Product(ReadProductInfo(d, "ASIN").value, TitleOf(d).value,
                                           DepartmentHierarchy.TryFrom(d).value,
                                           ReadProductInfo(d, "Manufacturer").value)
    {
      match ReadProductInfo(d, "ASIN")
      case None => Err(ItemNotFound)
      case Some(asin) =>
        match ReadProductInfo(d, "Manufacturer")
        case None => Err(ItemNotFound)
        case Some(manufacturer) =>
          match DepartmentHierarchy.TryFrom(d)
          case Err(e) => Err(e)
          case Ok(department) =>
            match TitleOf(d)
            case None => Err(ItemNotFound)
            case Some(name) => Ok(Product(asin, name, department, manufacturer))
    }
  }
}
