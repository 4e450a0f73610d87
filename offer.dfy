/** One seller's offer on the all-offers panel, read from its `aod-offer` element
    (src/scraper/offer.rs). */
module Offers {
  import opened Common
  import opened Strings
  import opened Html
  import opened Price

  /** The condition of the item on offer. */
  datatype Condition = New | Renewed | UsedLikeNew | UsedVeryGood | UsedGood | UsedAcceptable {

    /** `Condition::from_str`: the trimmed text is `New`, or `Used`, then any whitespace,
        then one of the five labels of `UsedLabel`. */
    static function FromStr(s: string): (r: Result<Condition, UnknownCondition>)
      ensures r.Ok? ==> s != []
    {
      ParseTrimmed(Trim(s))
    }

    /** The parse of the already trimmed text. */
    static function ParseTrimmed(t: string): (r: Result<Condition, UnknownCondition>)
      ensures r.Ok? ==> t != []
    {
      if t == "New" then Ok(New)
      else
        match StripPrefix(t, "Used")
        case None => Err(UnknownCondition)
        case Some(suffix) =>
          match UsedCondition(TrimStart(suffix))
          case Some(c) => Ok(c)
          case None => Err(UnknownCondition)
    }
  }

  datatype UnknownCondition = UnknownCondition

  /** The text that follows `Used` (after whitespace) for each used condition. */
  function UsedLabel(c: Condition): (text: string)
    requires c != New
    ensures text != [] && text[0] == '-'
  {
    match c
    case Renewed => "- Renewed"
    case UsedLikeNew => "- Like New"
    case UsedVeryGood => "- Very Good"
    case UsedGood => "- Good"
    case UsedAcceptable => "- Acceptable"
  }

  /** The used condition a label names (the `match` on the text after `Used`). */
  function UsedCondition(tail: string): (r: Option<Condition>)
    ensures forall c :: r == Some(c) <==> c != New && UsedLabel(c) == tail
  {
    if tail == "- Renewed" then Some(Renewed)
    else if tail == "- Like New" then Some(UsedLikeNew)
    else if tail == "- Very Good" then Some(UsedVeryGood)
    else if tail == "- Good" then Some(UsedGood)
    else if tail == "- Acceptable" then Some(UsedAcceptable)
    else None
  }

  /** Exactly the texts that trim to `New` are `New`. */
  lemma ParsesNewExactly(s: string)
    ensures Condition.FromStr(s) == Ok(New) <==> Trim(s) == "New"
  {
  }

  /** A used condition is `Used`, any whitespace, and its label, once trimmed. */
  lemma ParsesUsed(c: Condition, s: string)
    requires c != New
    ensures Condition.FromStr(s) == Ok(c)
            <==> exists w :: AllWhitespace(w) && Trim(s) == "Used" + w + UsedLabel(c)
  {
    if Condition.FromStr(s) == Ok(c) {
      ParsedUsedHasLabel(c, s);
    }
    if exists w :: AllWhitespace(w) && Trim(s) == "Used" + w + UsedLabel(c) {
      var w :| AllWhitespace(w) && Trim(s) == "Used" + w + UsedLabel(c);
      LabelledUsedParses(c, s, w);
    }
  }

  lemma ParsedUsedHasLabel(c: Condition, s: string)
    requires c != New && Condition.FromStr(s) == Ok(c)
    ensures exists w :: AllWhitespace(w) && Trim(s) == "Used" + w + UsedLabel(c)
  {
    var t := Trim(s);
    var w := TrimmedUsedHasLabel(c, t);
  }

  lemma TrimmedUsedHasLabel(c: Condition, t: string) returns (w: string)
    requires c != New && Condition.ParseTrimmed(t) == Ok(c)
    ensures AllWhitespace(w) && t == "Used" + w + UsedLabel(c)
  {
    ParsedUsedSuffix(c, t);
    var suffix := StripPrefix(t, "Used").value;
    w := LeadingWhitespace(suffix);
    assert TrimStart(suffix) == UsedLabel(c);
    assert t == "Used" + (w + UsedLabel(c));
    Associate("Used", w, UsedLabel(c));
  }

  /** A parsed used condition is `Used` and a suffix whose trimmed start is its label. */
  lemma ParsedUsedSuffix(c: Condition, t: string)
    requires c != New && Condition.ParseTrimmed(t) == Ok(c)
    ensures StripPrefix(t, "Used").Some?
    ensures UsedCondition(TrimStart(StripPrefix(t, "Used").value)) == Some(c)
  {
    assert t != "New";
  }

  /** The whitespace `trim_start` removes. */
  lemma LeadingWhitespace(s: string) returns (w: string)
    ensures AllWhitespace(w) && s == w + TrimStart(s)
  {
    var rest := TrimStart(s);
    w := s[..|s| - |rest|];
    assert s == w + rest;
    assert forall i :: 0 <= i < |w| ==> w[i] == s[i];
  }

  lemma LabelledUsedParses(c: Condition, s: string, w: string)
    requires c != New && AllWhitespace(w) && Trim(s) == "Used" + w + UsedLabel(c)
    ensures Condition.FromStr(s) == Ok(c)
  {
    LabelledTrimmedParses(c, Trim(s), w);
  }

  lemma LabelledTrimmedParses(c: Condition, t: string, w: string)
    requires c != New && AllWhitespace(w) && t == "Used" + w + UsedLabel(c)
    ensures Condition.ParseTrimmed(t) == Ok(c)
  {
    assert t == "Used" + (w + UsedLabel(c));
    StripPrefixOf("Used", w + UsedLabel(c));
    UsedTextParse(t);
    TrimStartOfPadded(w, UsedLabel(c));
    assert UsedCondition(UsedLabel(c)) == Some(c);
  }

  /** A text that starts with `Used` is not `New`: the label after it decides. */
  lemma UsedTextParse(t: string)
    requires StripPrefix(t, "Used").Some?
    ensures Condition.ParseTrimmed(t)
            == match UsedCondition(TrimStart(StripPrefix(t, "Used").value))
               case Some(c) => Ok(c)
               case None => Err(UnknownCondition)
  {
    assert |t| >= 4;
    assert t != "New";
  }

  /** Texts that are neither form are unknown: the parser never fails otherwise. */
  lemma UnknownExamples()
    ensures Condition.FromStr("Mint") == Err(UnknownCondition)
    ensures Condition.FromStr("Used - Mint") == Err(UnknownCondition)
  {
    TrimOfPadded([], "Mint", []);
    assert [] + "Mint" + [] == "Mint";
    MintIsUnknown();
    TrimOfPadded([], "Used - Mint", []);
    assert [] + "Used - Mint" + [] == "Used - Mint";
    UsedMintIsUnknown();
  }

  lemma MintIsUnknown()
    ensures Condition.ParseTrimmed("Mint") == Err(UnknownCondition)
  {
    assert "Mint"[0] == 'M';
    assert StripPrefix("Mint", "Used") == None;
  }

  lemma UsedMintIsUnknown()
    ensures Condition.ParseTrimmed("Used - Mint") == Err(UnknownCondition)
  {
    UsedMintSuffix();
    MintLabel();
    assert UsedCondition("- Mint") == None;
  }

  lemma UsedMintSuffix()
    ensures StripPrefix("Used - Mint", "Used") == Some(" - Mint")
  {
    assert "Used - Mint" == "Used" + " - Mint";
    StripPrefixOf("Used", " - Mint");
  }

  lemma MintLabel()
    ensures TrimStart(" - Mint") == "- Mint"
  {
    assert " - Mint" == " " + "- Mint";
    TrimStartOfPadded(" ", "- Mint");
  }

  /** Surrounding whitespace and the run of whitespace after `Used` are ignored. */
  lemma PaddedUsedExample()
    ensures Condition.FromStr("\n  Used   - Like New ") == Ok(UsedLikeNew)
  {
    PaddedUsedTrimmed();
    LikeNewSpelledOut();
    LabelledUsedParses(UsedLikeNew, "\n  Used   - Like New ", "   ");
  }

  lemma PaddedUsedTrimmed()
    ensures Trim("\n  Used   - Like New ") == "Used   - Like New"
  {
    PaddedUsedPieces();
    TrimOfPadded("\n  ", "Used   - Like New", " ");
  }

  lemma PaddedUsedPieces()
    ensures "\n  Used   - Like New " == "\n  " + "Used   - Like New" + " "
    ensures AllWhitespace("\n  ") && AllWhitespace(" ")
    ensures !IsWhitespace('U') && !IsWhitespace('w')
  {
  }

  lemma LikeNewSpelledOut()
    ensures AllWhitespace("   ") && "Used   - Like New" == "Used" + "   " + UsedLabel(UsedLikeNew)
  {
    assert UsedLabel(UsedLikeNew) == "- Like New";
    assert "Used   - Like New" == "Used" + "   " + "- Like New";
  }

  /** A parsed offer. `sellerPage` is absent when the seller has no page (Amazon itself). */
  datatype Offer = Offer(
    condition: Condition,
    conditionDescription: Option<string>,
    price: PriceUSD,
    shipsFrom: string,
    soldBy: string,
    sellerPage: Option<string>)
  {
    /** `Offer::try_from(node)`: all or nothing, checking price, condition, ships-from and
        seller in that order and reporting the first one missing. */
    static function TryFrom(n: Node): (r: Result<Offer, MissingOfferField>)
      ensures r.Ok? <==> PriceOf(n).Some? && ConditionOf(n).Some? && ShipsFromOf(n) != []
                         && SellerCellOf(n).Some?
      ensures r == Err(MissingOfferField("price")) <==> PriceOf(n).None?
      ensures r == Err(MissingOfferField("condition")) <==> PriceOf(n).Some? && ConditionOf(n).None?
      ensures r == Err(MissingOfferField("ships_from"))
              <==> PriceOf(n).Some? && ConditionOf(n).Some? && ShipsFromOf(n) == []
      ensures r == Err(MissingOfferField("sold_by"))
              <==> PriceOf(n).Some? && ConditionOf(n).Some? && ShipsFromOf(n) != []
                   && SellerCellOf(n).None?
      ensures r.Ok? ==> r.value == Offer(ConditionOf(n).value, ConditionDescriptionOf(n),
                                         PriceOf(n).value, ShipsFromOf(n),
                                         SellerOf(SellerCellOf(n).value).0,
                                         SellerOf(SellerCellOf(n).value).1)
    {
      match PriceOf(n)
      case None => Err(MissingOfferField("price"))
      case Some(price) =>
        match ConditionOf(n)
        case None => Err(MissingOfferField("condition"))
        case Some(condition) =>
          var shipsFrom := ShipsFromOf(n);
          if shipsFrom == [] then Err(MissingOfferField("ships_from"))
          else
            match SellerCellOf(n)
            case None => Err(MissingOfferField("sold_by"))
            case Some(cell) =>
              var (soldBy, sellerPage) := SellerOf(cell);
              Ok(Offer(condition, ConditionDescriptionOf(n), price, shipsFrom, soldBy, sellerPage))
    }
  }

  /** The name of the first field an offer lacks. */
  datatype MissingOfferField = MissingOfferField(field: string)

  /** The texts under `a-price` / `a-offscreen`, in document order. */
  function PriceTexts(n: Node): seq<string> {
    Texts(FindAll(Find(n, Class("a-price")), Class("a-offscreen")))
  }

  function ParsedPrice(text: string): Option<PriceUSD> {
    match PriceUSD.FromStr(text)
    case Ok(p) => Some(p)
    case Err(_) => None
  }

  /** The first price text that parses; the others are skipped. */
  function PriceOf(n: Node): Option<PriceUSD> {
    FirstSome(PriceTexts(n), ParsedPrice)
  }

  function ConditionTexts(n: Node): seq<string> {
    Texts(Find(n, Attr("id", "aod-offer-heading")))
  }

  function ParsedCondition(text: string): Option<Condition> {
    match Condition.FromStr(text)
    case Ok(c) => Some(c)
    case Err(_) => None
  }

  /** The first heading text that names a condition. */
  function ConditionOf(n: Node): Option<Condition> {
    FirstSome(ConditionTexts(n), ParsedCondition)
  }

  /** The first text of the expanded condition note, untrimmed; optional. */
  function ConditionDescriptionOf(n: Node): Option<string> {
    First(Texts(FindAll(Find(n, Attr("id", "aod-condition-container")), Class("expandable-expanded-text"))))
  }

  /** The trimmed text pieces of the ships-from cells, concatenated. */
  function ShipsFromOf(n: Node): string {
    TrimmedText(FindAll(Find(n, Attr("id", "aod-offer-shipsFrom")), Class("a-col-right")))
  }

  /** The first `a-col-right` cell of the sold-by row. */
  function SellerCellOf(n: Node): Option<Node> {
    First(FindAll(Find(n, Attr("id", "aod-offer-soldBy")), Class("a-col-right")))
  }

  /** The seller name and page: from the first link of the cell when there is one, else
      from the `a-size-small a-color-base` span, with no page. */
  function SellerOf(cell: Node): (string, Option<string>) {
    match First(Find(cell, Name("a")))
    case Some(link) => (TrimmedText([link]), AttrOf(link, "href"))
    case None =>
      (TrimmedText(Find(cell, And(Name("span"), Attr("class", "a-size-small a-color-base")))), None)
  }

  /** The price is the first candidate text that parses as a price, every earlier
      candidate failing to parse; with none, the offer is missing its price. */
  lemma PriceIsFirstParsable(n: Node)
    ensures PriceOf(n).None? <==> forall i :: 0 <= i < |PriceTexts(n)| ==> PriceUSD.FromStr(PriceTexts(n)[i]).Err?
    ensures PriceOf(n).Some? ==>
              exists i :: 0 <= i < |PriceTexts(n)| && PriceUSD.FromStr(PriceTexts(n)[i]) == Ok(PriceOf(n).value)
                          && forall j :: 0 <= j < i ==> PriceUSD.FromStr(PriceTexts(n)[j]).Err?
  {
    var ts := PriceTexts(n);
    assert forall i :: 0 <= i < |ts| ==> (ParsedPrice(ts[i]).None? <==> PriceUSD.FromStr(ts[i]).Err?);
    if PriceOf(n).Some? {
      var i :| 0 <= i < |ts| && ParsedPrice(ts[i]) == PriceOf(n)
               && forall j :: 0 <= j < i ==> ParsedPrice(ts[j]).None?;
      assert PriceUSD.FromStr(ts[i]) == Ok(PriceOf(n).value);
    }
  }

  /** Ships-from is empty exactly when every one of its text pieces is blank. */
  lemma ShipsFromEmptyIffBlank(n: Node)
    ensures ShipsFromOf(n) == []
            <==> forall t :: t in Texts(FindAll(Find(n, Attr("id", "aod-offer-shipsFrom")), Class("a-col-right")))
                             ==> Trim(t) == []
  {
    TrimmedConcatEmpty(Texts(FindAll(Find(n, Attr("id", "aod-offer-shipsFrom")), Class("a-col-right"))));
  }

  /** A seller cell with a link takes the link's text and `href`; without one, the page is
      absent. */
  lemma SellerPageComesFromLink(cell: Node)
    ensures Find(cell, Name("a")) == [] ==> SellerOf(cell).1.None?
    ensures Find(cell, Name("a")) != [] ==> SellerOf(cell).1 == AttrOf(Find(cell, Name("a"))[0], "href")
  {
  }
}
