/** The money value of src/scraper/price.rs: a signed count of cents. */
module Price {
  import opened Common
  import opened Strings
  import opened Ints

  /** Why a text is not a price.  `Overflow` stands for an arithmetic overflow in `i32`
      while computing `100 * dollars + cents`, which the source does not guard. */
  datatype PriceError = InvalidPrice | Overflow

  /** `100 * dollars + cents` evaluated in `i32` overflows neither at the product nor at
      the sum. */
  predicate NewFits(dollars: int, cents: int) {
    I32_MIN <= 100 * dollars <= I32_MAX && I32_MIN <= 100 * dollars + cents <= I32_MAX
  }

  datatype Ordering = Less | Equal | Greater

  /** `PriceUSD(i32)`: a number of cents, never a floating-point value. */
  datatype PriceUSD = PriceUSD(cents: i32) {

    /** `PriceUSD::new(dollars, cents)`. */
    static function New(dollars: i32, cents: i32): (p: PriceUSD)
      requires NewFits(dollars, cents)
      ensures p.cents == 100 * dollars + cents
    {
      PriceUSD(100 * dollars + cents)
    }

    /** The `Debug` text: `$`, the truncated quotient by 100, `.`, the remainder.
        The `.02` precision is ignored on integers, so 1205 cents reads `$12.5`.  Parsing
        it gives the price back, negative prices included (`$-1.-50` is -150 cents). */
    function DebugText(): (text: string)
      ensures FromStr(text) == Ok(this)
    {
      var q: i32, r: i32 := TruncDiv(cents, 100), TruncRem(cents, 100);
      var t := IntToString(q) + "." + IntToString(r);
      StripPrefixOf("$", t);
      DebugTextParts(this);
      DebugTextValue(this);
      FromStrStages("$" + t, t, Some((q, r)));
      "$" + t
    }

    /** `FromStr::from_str`: strip one `$`, split at the first `.`, parse both halves as
        `i32`; the fraction is added unscaled and unchecked. */
    static function FromStr(text: string): (r: Result<PriceUSD, PriceError>)
      ensures r.Ok? && '.' !in text ==> r.value.cents % 100 == 0
    {
      var s := StripDollar(text);
      assert '.' !in text ==> '.' !in s;
      FromParts(SplitParts(s))
    }

    /** One leading `$` removed, if there is one. */
    static function StripDollar(text: string): (s: string)
      ensures s == text || "$" + s == text
    {
      match StripPrefix(text, "$") case Some(rest) => rest case None => text
    }

    /** The dollar and cent halves of a `$`-free price text, each an `i32` literal; a
        text without `.` has 0 cents. */
    static function SplitParts(s: string): (parts: Option<(i32, i32)>)
      ensures parts.Some? && '.' !in s ==> parts.value.1 == 0
    {
      match SplitOnce(s, '.')
      case Some((d, c)) =>
        (match (ParseI32(d), ParseI32(c))
         case (Some(dollars), Some(cents)) => Some((dollars, cents))
         case _ => None)
      case None =>
        (match ParseI32(s)
         case Some(dollars) => Some((dollars, 0))
         case None => None)
    }

    /** `PriceUSD::new` on the parsed halves, with its overflow made an error. */
    static function FromParts(parts: Option<(i32, i32)>): (r: Result<PriceUSD, PriceError>)
      ensures parts.None? <==> r == Err(InvalidPrice)
      ensures r == Err(Overflow) <==> parts.Some? && !NewFits(parts.value.0, parts.value.1)
      ensures r.Ok? ==> r.value.cents == 100 * parts.value.0 + parts.value.1
    {
      match parts
      case None => Err(InvalidPrice)
      case Some((dollars, cents)) =>
        if NewFits(dollars, cents) then Ok(New(dollars, cents))
        else Err(Overflow)
    }

    /** The derived `Ord`: the order of the cent counts. */
    static function Compare(a: PriceUSD, b: PriceUSD): (o: Ordering)
      ensures o == Equal <==> a == b
      ensures o == Less <==> a.cents < b.cents
      ensures o == Greater <==> a.cents > b.cents
    {
      if a.cents < b.cents then Less else if a.cents == b.cents then Equal else Greater
    }
  }

  /** Comparing in the opposite order flips the result, and `Less` is transitive. */
  lemma CompareIsTotalOrder(a: PriceUSD, b: PriceUSD, c: PriceUSD)
    ensures PriceUSD.Compare(a, b) == Less <==> PriceUSD.Compare(b, a) == Greater
    ensures PriceUSD.Compare(a, b) == Less && PriceUSD.Compare(b, c) == Less ==> PriceUSD.Compare(a, c) == Less
  {
  }

  /** `new(d, c)` keeps exactly `100 * d + c` cents, so for `d >= 0` and `0 <= c < 100`
      its text shows `d` before the point and `c` after it. */
  lemma {:induction false} NewShowsParts(d: i32, c: i32)
    requires 0 <= d && 0 <= c < 100 && 100 * d + c <= I32_MAX
    ensures PriceUSD.New(d, c).DebugText() == "$" + NatToString(d) + "." + NatToString(c)
  {
    var p := PriceUSD.New(d, c);
    assert TruncDiv(p.cents, 100) == d;
    assert TruncRem(p.cents, 100) == c;
  }

  /** One leading `$` is optional: it does not change the result. */
  lemma DollarSignIsOptional(s: string)
    requires s == [] || s[0] != '$'
    ensures PriceUSD.FromStr("$" + s) == PriceUSD.FromStr(s)
  {
    assert StripPrefix("$" + s, "$") == Some(s);
    assert StripPrefix(s, "$") == None;
  }

  /** Only one `$` is stripped: a second one makes the text invalid. */
  lemma {:induction false} TwoDollarSignsAreInvalid(s: string)
    ensures PriceUSD.FromStr("$$" + s) == Err(InvalidPrice)
  {
    var t := "$" + s;
    DoubleDollar(s);
    StripPrefixOf("$", t);
    match SplitOnce(t, '.')
    case Some((d, c)) =>
      assert t == d + ['.'] + c;
      assert d == [] || d[0] == '$';
      DollarIsNotI32(d);
    case None =>
      DollarIsNotI32(t);
  }

  lemma DoubleDollar(s: string)
    ensures "$$" + s == "$" + ("$" + s)
  {
  }

  lemma DollarIsNotI32(x: string)
    requires x == [] || x[0] == '$'
    ensures ParseI32(x).None?
  {
  }

  /** With a `.`, the text before the first `.` and the text after it must both be `i32`
      literals: so `1.2.3`, `1.` and `.5` are invalid. */
  lemma {:induction false} BothHalvesMustParse(d: string, c: string)
    requires d == [] || d[0] != '$'
    requires '.' !in d
    requires ParseI32(d).None? || ParseI32(c).None?
    ensures PriceUSD.FromStr(d + "." + c) == Err(InvalidPrice)
  {
    SplitOnceAt(d, '.', c);
    assert (d + "." + c) == [] || (d + "." + c)[0] != '$';
    assert StripPrefix(d + "." + c, "$") == None;
  }

  lemma DotExamplesAreInvalid()
    ensures PriceUSD.FromStr("1.2.3") == Err(InvalidPrice)
    ensures PriceUSD.FromStr("1.") == Err(InvalidPrice)
    ensures PriceUSD.FromStr(".5") == Err(InvalidPrice)
  {
    SecondDotIsInvalid();
    TrailingDotIsInvalid();
    LeadingDotIsInvalid();
  }

  lemma SecondDotIsInvalid()
    ensures PriceUSD.FromStr("1.2.3") == Err(InvalidPrice)
  {
    DotIsNotI32("2.3", 1);
    BothHalvesMustParse("1", "2.3");
    SecondDotJoin();
  }

  lemma SecondDotJoin()
    ensures "1" + "." + "2.3" == "1.2.3"
  {
  }

  lemma DotIsNotI32(s: string, i: nat)
    requires i < |s| && s[i] == '.'
    ensures ParseI32(s).None?
  {
    if i > 0 {
      assert s[1..][i - 1] == '.';
      assert !AllAsciiDigits(s[1..]);
    } else {
      assert !IsAsciiDigit(s[0]) && s[0] != '+' && s[0] != '-';
    }
  }

  lemma TrailingDotIsInvalid()
    ensures PriceUSD.FromStr("1.") == Err(InvalidPrice)
  {
    BothHalvesMustParse("1", "");
    assert "1" + "." + "" == "1.";
  }

  lemma LeadingDotIsInvalid()
    ensures PriceUSD.FromStr(".5") == Err(InvalidPrice)
  {
    BothHalvesMustParse("", "5");
    assert "" + "." + "5" == ".5";
  }

  /** Text that is not a number is not a price. */
  lemma WordIsInvalid()
    ensures PriceUSD.FromStr("abc") == Err(InvalidPrice)
  {
    assert "abc"[0] == 'a';
    assert StripPrefix("abc", "$") == None;
    assert '.' !in "abc";
    assert !IsAsciiDigit("abc"[1]);
    assert ParseI32("abc") == None;
  }

  /** Without a `.`, the whole text is the dollar amount and the cents are 0. */
  lemma {:induction false} WholeDollars(s: string, dollars: i32)
    requires s == [] || s[0] != '$'
    requires ParseI32(s) == Some(dollars)
    requires I32_MIN <= 100 * dollars <= I32_MAX
    ensures PriceUSD.FromStr(s) == Ok(PriceUSD(100 * dollars))
  {
    assert '.' !in s by {
      assert forall i :: 0 < i < |s| ==> IsAsciiDigit(s[i]);
    }
    assert StripPrefix(s, "$") == None;
  }

  /** The halves around the first `.` are parsed on their own. */
  lemma {:induction false} SplitPartsAt(d: string, c: string, dollars: i32, cents: i32)
    requires '.' !in d
    requires ParseI32(d) == Some(dollars) && ParseI32(c) == Some(cents)
    ensures PriceUSD.SplitParts(d + "." + c) == Some((dollars, cents))
  {
    SplitOnceAt(d, '.', c);
  }

  /** The three stages of `from_str` composed. */
  lemma FromStrStages(text: string, s: string, parts: Option<(i32, i32)>)
    requires PriceUSD.StripDollar(text) == s && PriceUSD.SplitParts(s) == parts
    ensures PriceUSD.FromStr(text) == PriceUSD.FromParts(parts)
  {
  }

  lemma FromPartsInRange(dollars: i32, cents: i32)
    requires NewFits(dollars, cents)
    ensures PriceUSD.FromParts(Some((dollars, cents))) == Ok(PriceUSD(100 * dollars + cents))
  {
  }

  /** A text `d.c`, with or without the `$`, with both halves `i32` literals, is read as
      the parts `(d, c)`. */
  lemma {:induction false} DottedParts(d: i32, c: i32)
    requires d >= 0
    ensures PriceUSD.FromStr("$" + NatToString(d) + "." + IntToString(c)) == PriceUSD.FromParts(Some((d, c)))
    ensures PriceUSD.FromStr(NatToString(d) + "." + IntToString(c)) == PriceUSD.FromParts(Some((d, c)))
  {
    var t := NatToString(d) + "." + IntToString(c);
    assert "$" + NatToString(d) + "." + IntToString(c) == "$" + t;
    StripPrefixOf("$", t);
    assert t[0] != '$';
    assert StripPrefix(t, "$") == None;
    assert IntToString(d) == NatToString(d);
    ParseI32OfDisplay(d);
    ParseI32OfDisplay(c);
    SplitPartsAt(NatToString(d), IntToString(c), d, c);
    FromStrStages("$" + t, t, Some((d, c)));
    FromStrStages(t, t, Some((d, c)));
  }

  /** A price written `d.c`, with or without the `$`, with both halves `i32` literals,
      is `100 * d + c` cents. */
  lemma DollarsAndCents(d: i32, c: i32)
    requires d >= 0 && NewFits(d, c)
    ensures PriceUSD.FromStr("$" + NatToString(d) + "." + IntToString(c)) == Ok(PriceUSD(100 * d + c))
    ensures PriceUSD.FromStr(NatToString(d) + "." + IntToString(c)) == Ok(PriceUSD(100 * d + c))
  {
    DottedParts(d, c);
    FromPartsInRange(d, c);
  }

  /** `100 * d` overflows `i32` before the cents are added, so `d.c` is an overflow even
      when `100 * d + c` would fit (`21474837.-100`). */
  lemma DollarsOverflowFirst(d: i32, c: i32)
    requires d >= 0 && 100 * d > I32_MAX
    ensures PriceUSD.FromStr(NatToString(d) + "." + IntToString(c)) == Err(Overflow)
  {
    DottedParts(d, c);
  }

  /** `"$12.34"` is 1234 cents. */
  lemma DollarsAndCentsExample()
    ensures PriceUSD.FromStr("$12.34") == Ok(PriceUSD(1234))
  {
    assert NatToString(12) == "12" && IntToString(34) == "34";
    assert "$" + "12" + "." + "34" == "$12.34";
    DollarsAndCents(12, 34);
  }

  /** The fraction is not scaled: `"12.5"` is 1205 cents, not 1250. */
  lemma ShortFractionIsNotScaled()
    ensures PriceUSD.FromStr("12.5") == Ok(PriceUSD(1205))
  {
    assert NatToString(12) == "12" && IntToString(5) == "5";
    assert "12" + "." + "5" == "12.5";
    DollarsAndCents(12, 5);
  }

  /** The fraction is not bounded: `"1.150"` is 250 cents. */
  lemma LongFractionCarries()
    ensures PriceUSD.FromStr("1.150") == Ok(PriceUSD(250))
  {
    assert NatToString(1) == "1" && IntToString(150) == "150";
    assert "1" + "." + "150" == "1.150";
    DollarsAndCents(1, 150);
  }

  lemma DebugTextWithoutDollar(p: PriceUSD)
    ensures PriceUSD.StripDollar(p.DebugText())
            == IntToString(TruncDiv(p.cents, 100)) + "." + IntToString(TruncRem(p.cents, 100))
  {
    var t := IntToString(TruncDiv(p.cents, 100)) + "." + IntToString(TruncRem(p.cents, 100));
    assert p.DebugText() == "$" + t;
    StripPrefixOf("$", t);
  }

  lemma DebugTextParts(p: PriceUSD)
    ensures PriceUSD.SplitParts(IntToString(TruncDiv(p.cents, 100)) + "." + IntToString(TruncRem(p.cents, 100)))
            == Some((TruncDiv(p.cents, 100), TruncRem(p.cents, 100)))
  {
    var q: i32, r: i32 := TruncDiv(p.cents, 100), TruncRem(p.cents, 100);
    assert '.' !in IntToString(q);
    ParseI32OfDisplay(q);
    ParseI32OfDisplay(r);
    SplitPartsAt(IntToString(q), IntToString(r), q, r);
  }

  lemma DebugTextValue(p: PriceUSD)
    ensures PriceUSD.FromParts(Some((TruncDiv(p.cents, 100), TruncRem(p.cents, 100)))) == Ok(p)
  {
  }
}
