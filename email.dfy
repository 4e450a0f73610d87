/** The address pattern of `UserCredentials::is_valid_email`: an RFC 5322 style regular
    expression, matched anywhere in the text (`Regex::is_match`, no anchors).

    The pattern is given as a Rust string literal that is not raw, so the compiler
    resolves its escapes before the regex engine sees it. Two places then read
    differently from the well-known RFC 5322 pattern they copy:
    - `\x5b` and `\x5d` become a bare `[` and `]`: the quoted-text class's range now
      ends at `[`, the `]` closes the class, and the literal characters `-`, DEL and
      `]` must follow each quoted character;
    - `\\[` becomes the regex `\[`, a literal bracket, so a quoted pair (a backslash
      and one character) is instead the literal ten-character text `[\x01-\x09…\x7f]`.
    `AsWritten` is the language of the pattern as the engine receives it and
    `Intended` the language of the pattern the comment cites. */
module EmailPattern {
  import opened Common
  import opened Strings

  datatype Reading = AsWritten | Intended

  predicate IsLowerAlnum(c: char) {
    'a' <= c <= 'z' || '0' <= c <= '9'
  }

  predicate IsDigit(c: char) {
    '0' <= c <= '9'
  }

  /** The symbols of `[a-z0-9!#$%&'*+/=?^_`{|}~-]` besides letters and digits. */
  const AtextSymbols: string := "!#$%&'*+/=?^_`{|}~-"

  predicate IsAtext(c: char) {
    IsLowerAlnum(c) || c in AtextSymbols
  }

  /** `[\x01-\x08\x0b\x0c\x0e-\x1f]`, the control characters every text class admits. */
  predicate IsNoWsCtl(c: char) {
    var n := c as int;
    1 <= n <= 0x08 || n == 0x0b || n == 0x0c || 0x0e <= n <= 0x1f
  }

  /** Quoted text as intended: `[\x01-\x08\x0b\x0c\x0e-\x1f\x21\x23-\x5b\x5d-\x7f]`. */
  predicate IsQtext(c: char) {
    var n := c as int;
    IsNoWsCtl(c) || n == 0x21 || 0x23 <= n <= 0x5b || 0x5d <= n <= 0x7f
  }

  /** Quoted text as written: the class closes at the `]` that `\x5d` became. */
  predicate IsQtextAsWritten(c: char) {
    var n := c as int;
    IsNoWsCtl(c) || n == 0x21 || 0x23 <= n <= 0x5b
  }

  /** The character after the backslash of a quoted pair: `[\x01-\x09\x0b\x0c\x0e-\x7f]`. */
  predicate IsQuotedPairTail(c: char) {
    var n := c as int;
    1 <= n <= 0x09 || n == 0x0b || n == 0x0c || 0x0e <= n <= 0x7f
  }

  /** Domain literal text: `[\x01-\x08\x0b\x0c\x0e-\x1f\x21-\x5a\x53-\x7f]`. */
  predicate IsDtext(c: char) {
    var n := c as int;
    IsNoWsCtl(c) || 0x21 <= n <= 0x5a || 0x53 <= n <= 0x7f
  }

  /** What follows the closed quoted-text class as written: `-`, DEL, `]`. */
  const ClassRest: string := ['-', 0x7f as char, ']']

  /** The quoted pair as written: the literal text `[\x01-\x09\x0b\x0c\x0e-\x7f]`. */
  const PairLiteral: string := ['[', 0x01 as char, '-', 0x09 as char, 0x0b as char, 0x0c as char, 0x0e as char, '-', 0x7f as char, ']']

  // ---- Local part ----

  /** One `[a-z0-9!#…~-]+`. */
  predicate Atom(s: string) {
    s != [] && forall i :: 0 <= i < |s| ==> IsAtext(s[i])
  }

  /** `atom(?:\.atom)*`: atoms joined by single dots. */
  predicate DotAtom(s: string)
    decreases |s|
  {
    match SplitOnce(s, '.')
    case None => Atom(s)
    case Some(p) => Atom(p.0) && DotAtom(p.1)
  }

  /** `(?:qtext|pair)*` between the quotes, in the given reading. */
  predicate QuotedContent(r: Reading, b: string)
    decreases |b|
  {
    if b == [] then true
    else if r == Intended then
      (IsQtext(b[0]) && QuotedContent(r, b[1..]))
      || (|b| >= 2 && b[0] == '\\' && IsQuotedPairTail(b[1]) && QuotedContent(r, b[2..]))
    else
      (|b| >= 4 && IsQtextAsWritten(b[0]) && b[1..4] == ClassRest && QuotedContent(r, b[4..]))
      || (PairLiteral <= b && QuotedContent(r, b[|PairLiteral|..]))
  }

  predicate Quoted(r: Reading, s: string) {
    |s| >= 2 && s[0] == '"' && s[|s| - 1] == '"' && QuotedContent(r, s[1..|s| - 1])
  }

  /** The part before `@`. */
  predicate LocalPart(r: Reading, s: string) {
    DotAtom(s) || Quoted(r, s)
  }

  // ---- Domain ----

  /** `[a-z0-9](?:[a-z0-9-]*[a-z0-9])?` */
  predicate Label(s: string) {
    s != [] && IsLowerAlnum(s[0]) && IsLowerAlnum(s[|s| - 1])
    && forall i :: 0 <= i < |s| ==> IsLowerAlnum(s[i]) || s[i] == '-'
  }

  /** `(?:label\.)+label`: at least two labels joined by dots. */
  predicate HostName(s: string)
    decreases |s|
  {
    match SplitOnce(s, '.')
    case None => false
    case Some(p) => Label(p.0) && (Label(p.1) || HostName(p.1))
  }

  /** `2(5[0-5]|[0-4][0-9])|1[0-9][0-9]|[1-9]?[0-9]` */
  predicate Octet(s: string) {
    (|s| == 3 && s[0] == '2' && ((s[1] == '5' && '0' <= s[2] <= '5') || ('0' <= s[1] <= '4' && IsDigit(s[2]))))
    || (|s| == 3 && s[0] == '1' && IsDigit(s[1]) && IsDigit(s[2]))
    || (|s| == 2 && '1' <= s[0] <= '9' && IsDigit(s[1]))
    || (|s| == 1 && IsDigit(s[0]))
  }

  /** `[a-z0-9-]*[a-z0-9]` */
  predicate Tag(s: string) {
    s != [] && IsLowerAlnum(s[|s| - 1]) && forall i :: 0 <= i < |s| ==> IsLowerAlnum(s[i]) || s[i] == '-'
  }

  /** `(?:dtext|pair)*` in the given reading. */
  predicate LiteralContent(r: Reading, b: string)
    decreases |b|
  {
    if b == [] then true
    else if r == Intended then
      (IsDtext(b[0]) && LiteralContent(r, b[1..]))
      || (|b| >= 2 && b[0] == '\\' && IsQuotedPairTail(b[1]) && LiteralContent(r, b[2..]))
    else
      (IsDtext(b[0]) && LiteralContent(r, b[1..]))
      || (PairLiteral <= b && LiteralContent(r, b[|PairLiteral|..]))
  }

  /** `tag:(?:dtext|pair)+` */
  predicate Tagged(r: Reading, s: string) {
    match SplitOnce(s, ':')
    case None => false
    case Some(p) => Tag(p.0) && p.1 != [] && LiteralContent(r, p.1)
  }

  /** `n` times `octet\.`, then an octet or a tagged text. */
  predicate OctetsThen(r: Reading, s: string, n: nat)
    decreases n
  {
    if n == 0 then Octet(s) || Tagged(r, s)
    else
      match SplitOnce(s, '.')
      case None => false
      case Some(p) => Octet(p.0) && OctetsThen(r, p.1, n - 1)
  }

  /** `\[(?:octet\.){3}(?:octet|tag:…)\]` */
  predicate AddressLiteral(r: Reading, s: string) {
    |s| >= 2 && s[0] == '[' && s[|s| - 1] == ']' && OctetsThen(r, s[1..|s| - 1], 3)
  }

  /** The part after `@`. */
  predicate Domain(r: Reading, s: string) {
    HostName(s) || AddressLiteral(r, s)
  }

  /** `@domain` */
  predicate AtDomain(r: Reading, t: string) {
    t != [] && t[0] == '@' && Domain(r, t[1..])
  }

  /** `Regex::is_match`: some piece `s[i..j]` of the text is `local@domain`, split at
      `k`.  Every match contains the `@` that separates its parts. */
  predicate IsMatch(r: Reading, s: string): (m: bool)
    ensures m ==> '@' in s
  {
    AtDomainHasAtSign(r, s);
    exists i, k, j :: 0 <= i <= k < j <= |s| && LocalPart(r, s[i..k]) && AtDomain(r, s[k..j])
  }

  /** A piece of `s` that is `@domain` puts an `@` in `s`. */
  lemma AtDomainHasAtSign(r: Reading, s: string)
    ensures forall k, j :: 0 <= k < j <= |s| && AtDomain(r, s[k..j]) ==> '@' in s
  {
    forall k, j | 0 <= k < j <= |s| && AtDomain(r, s[k..j])
      ensures '@' in s
    {
      assert s[k..j][0] == s[k];
      assert s[k] in s;
    }
  }

  // ---- Properties ----

  /** The match is unanchored: text around an address does not stop it matching. */
  lemma MatchInContext(r: Reading, p: string, s: string, q: string)
    requires IsMatch(r, s)
    ensures IsMatch(r, p + s + q)
  {
    var i, k, j :| 0 <= i <= k < j <= |s| && LocalPart(r, s[i..k]) && AtDomain(r, s[k..j]);
    SliceInContext(p, s, q, i, k);
    SliceInContext(p, s, q, k, j);
    var t := p + s + q;
    assert LocalPart(r, t[|p| + i..|p| + k]) && AtDomain(r, t[|p| + k..|p| + j]);
  }

  lemma SliceInContext(p: string, s: string, q: string, i: nat, j: nat)
    requires i <= j <= |s|
    ensures (p + s + q)[|p| + i..|p| + j] == s[i..j]
  {
    var t := p + s + q;
    assert forall m :: 0 <= m < j - i ==> t[|p| + i..|p| + j][m] == s[i..j][m];
  }

  lemma {:induction false} DotAtomEndsWithAtext(s: string)
    requires DotAtom(s)
    ensures s != [] && IsAtext(s[|s| - 1])
    decreases |s|
  {
    match SplitOnce(s, '.')
    case None =>
      assert Atom(s);
      assert IsAtext(s[|s| - 1]);
    case Some(p) =>
      assert DotAtom(p.1) && s == p.0 + ['.'] + p.1;
      DotAtomEndsWithAtext(p.1);
      LastOfAppend(p.0 + ['.'], p.1);
  }

  /** With no dot and no bracket after the `@` there is neither a host name nor an
      address literal. */
  lemma DomainNeedsDotOrBracket(r: Reading, t: string)
    requires '.' !in t && (t == [] || t[0] != '[')
    ensures !Domain(r, t)
  {
  }

  /** Texts without a dot and without a bracket never match: a bare host name such as
      `john@localhost` is rejected. */
  lemma NoDotNoBracketNoMatch(r: Reading, s: string)
    requires '.' !in s && '[' !in s
    ensures !IsMatch(r, s)
  {
    forall k, j | 0 <= k < j <= |s|
      ensures !AtDomain(r, s[k..j])
    {
      var d := s[k..j][1..];
      assert forall m :: 0 <= m < |d| ==> d[m] == s[k + 1 + m];
      assert '.' !in d;
      assert d == [] || d[0] != '[' by {
        if d != [] {
          assert d[0] == s[k + 1];
        }
      }
      DomainNeedsDotOrBracket(r, d);
    }
  }

  /** Both readings agree on texts without quotes and brackets: the differences lie
      only inside quoted local parts and address literals. */
  lemma ReadingsAgreeWithoutQuotesOrBrackets(s: string)
    requires '"' !in s && '[' !in s
    ensures IsMatch(AsWritten, s) <==> IsMatch(Intended, s)
  {
    forall i, k | 0 <= i <= k <= |s|
      ensures LocalPart(AsWritten, s[i..k]) <==> LocalPart(Intended, s[i..k])
    {
      if i < k {
        assert s[i..k][0] == s[i];
      }
      LocalPartsAgree(s[i..k]);
    }
    forall k, j | 0 <= k < j <= |s|
      ensures AtDomain(AsWritten, s[k..j]) <==> AtDomain(Intended, s[k..j])
    {
      if k + 1 < j {
        assert s[k..j][1..][0] == s[k + 1];
      }
      DomainsAgree(s[k..j][1..]);
    }
  }

  /** A local part that does not open with a quote is a dot-atom in both readings. */
  lemma LocalPartsAgree(t: string)
    requires t == [] || t[0] != '"'
    ensures LocalPart(AsWritten, t) <==> LocalPart(Intended, t)
  {
  }

  /** A domain that does not open with a bracket is a host name in both readings. */
  lemma DomainsAgree(t: string)
    requires t == [] || t[0] != '['
    ensures Domain(AsWritten, t) <==> Domain(Intended, t)
  {
  }

  // ---- Examples ----

  lemma JohnIsDotAtom()
    ensures DotAtom("john")
  {
    assert Atom("john");
  }

  lemma ExampleComIsHostName()
    ensures HostName("example.com")
  {
    ExampleComSplits();
    ExampleComLabels();
  }

  lemma ExampleComSplits()
    ensures SplitOnce("example.com", '.') == Some(("example", "com"))
  {
    assert '.' !in "example";
    SplitOnceAt("example", '.', "com");
    assert "example" + ['.'] + "com" == "example.com";
  }

  lemma ExampleComLabels()
    ensures Label("example") && Label("com")
  {
  }

  lemma JohnAtExampleComPieces()
    ensures "john@example.com"[0..4] == "john" && "john@example.com"[4..16] == "@example.com"
    ensures "@example.com"[1..] == "example.com" && |"john@example.com"| == 16
  {
  }

  /** `john@example.com` is an address in both readings. */
  lemma PlainAddressMatches(r: Reading)
    ensures IsMatch(r, "john@example.com")
  {
    JohnAtExampleComPieces();
    JohnIsDotAtom();
    ExampleComIsHostName();
    assert LocalPart(r, "john@example.com"[0..4]) && AtDomain(r, "john@example.com"[4..16]);
  }

  /** A text of quoted-text characters is quoted content as intended. */
  lemma {:induction false} QtextIsQuotedContent(b: string)
    requires forall m :: 0 <= m < |b| ==> IsQtext(b[m])
    ensures QuotedContent(Intended, b)
    decreases |b|
  {
    if b != [] {
      QtextIsQuotedContent(b[1..]);
    }
  }

  /** Of a text with a single `@`, the `@` at index `k` is that one. */
  lemma OnlyAtSign(a: string, b: string, k: nat)
    requires '@' !in a && '@' !in b && k < |a + "@" + b| && (a + "@" + b)[k] == '@'
    ensures k == |a|
  {
    var s := a + "@" + b;
    assert forall m :: 0 <= m < |a| ==> s[m] == a[m];
    assert forall m :: |a| < m < |s| ==> s[m] == b[m - |a| - 1];
  }

  lemma NoDotAtomEndsWithQuote(t: string)
    requires t == [] || t[|t| - 1] == '"'
    ensures !DotAtom(t)
  {
    QuoteIsNotAtext();
    if DotAtom(t) {
      DotAtomEndsWithAtext(t);
    }
  }

  lemma QuoteIsNotAtext()
    ensures !IsAtext('"')
  {
    assert forall i :: 0 <= i < |AtextSymbols| ==> AtextSymbols[i] != '"';
  }

  /** A tail of `"b"` is quoted only when it is all of it. */
  lemma QuotedTail(r: Reading, b: string, i: nat)
    requires '"' !in b && i <= |b| + 2
    ensures Quoted(r, ("\"" + b + "\"")[i..]) ==> i == 0 && QuotedContent(r, b)
  {
    var q := "\"" + b + "\"";
    var t := q[i..];
    assert forall m :: 0 <= m < |b| ==> b[m] != '"';
    assert forall m :: 1 <= m < |q| - 1 ==> q[m] == b[m - 1];
    assert |t| > 0 ==> t[0] == q[i];
    if i == 0 {
      assert t[1..|t| - 1] == b;
    }
  }

  /** No tail of `"b"` is a local part as written when `b` holds no quote and is not
      quoted content as written. */
  lemma NoQuotedLocalPartAsWritten(b: string, i: nat)
    requires '"' !in b && !QuotedContent(AsWritten, b)
    requires i <= |b| + 2
    ensures !LocalPart(AsWritten, ("\"" + b + "\"")[i..])
  {
    var q := "\"" + b + "\"";
    var t := q[i..];
    assert t == [] || t[|t| - 1] == q[|q| - 1];
    NoDotAtomEndsWithQuote(t);
    QuotedTail(AsWritten, b, i);
  }

  /** An address whose local part is quoted content that the pattern as written does
      not accept never matches as written. */
  lemma QuotedAddressRejectedAsWritten(b: string, d: string)
    requires '"' !in b && '@' !in b && '@' !in d && !QuotedContent(AsWritten, b)
    ensures !IsMatch(AsWritten, "\"" + b + "\"" + "@" + d)
  {
    var a := "\"" + b + "\"";
    var s := a + "@" + d;
    assert '@' !in a by {
      assert forall m :: 1 <= m < |a| - 1 ==> a[m] == b[m - 1];
    }
    forall i, k, j | 0 <= i <= k < j <= |s|
      ensures !(LocalPart(AsWritten, s[i..k]) && AtDomain(AsWritten, s[k..j]))
    {
      assert s[k..j][0] == s[k];
      if s[k] == '@' {
        OnlyAtSign(a, d, k);
        SliceOfPrefix(a, "@" + d, i);
        assert s == a + ("@" + d);
        NoQuotedLocalPartAsWritten(b, i);
      } else {
        NoAtDomainWithoutAtSign(AsWritten, s[k..j]);
      }
    }
  }

  lemma NoAtDomainWithoutAtSign(r: Reading, t: string)
    requires t == [] || t[0] != '@'
    ensures !AtDomain(r, t)
  {
  }

  lemma SliceOfPrefix(a: string, t: string, i: nat)
    requires i <= |a|
    ensures (a + t)[i..|a|] == a[i..]
  {
  }

  const JohnDoe: string := "john.doe"

  lemma JohnDoePieces()
    ensures '"' !in JohnDoe && '@' !in JohnDoe && '@' !in "example.com"
    ensures forall m :: 0 <= m < |JohnDoe| ==> IsQtext(JohnDoe[m])
    ensures JohnDoe[0] == 'j' && !IsQtextAsWritten('j') && !(PairLiteral <= JohnDoe)
  {
  }

  /** `"john.doe"@example.com`, a quoted local part of ordinary letters, does not match
      the pattern as written: the quoted-text class lost `\x5d-\x7f`, which holds the
      lower-case letters. */
  lemma QuotedLocalPartRejected()
    ensures !IsMatch(AsWritten, "\"" + JohnDoe + "\"" + "@" + "example.com")
  {
    JohnDoePieces();
    assert !QuotedContent(AsWritten, JohnDoe);
    QuotedAddressRejectedAsWritten(JohnDoe, "example.com");
  }

  /** ... and does match the intended pattern. */
  lemma QuotedLocalPartAccepted()
    ensures IsMatch(Intended, "\"" + JohnDoe + "\"" + "@" + "example.com")
  {
    assert QuotedContent(Intended, JohnDoe) by {
      JohnDoePieces();
      QtextIsQuotedContent(JohnDoe);
    }
    ExampleComIsHostName();
    QuotedAddressMatchesWhenQuoted(Intended, JohnDoe, "example.com");
  }

  /** An address of quoted content and a host name matches. */
  lemma QuotedAddressMatchesWhenQuoted(r: Reading, b: string, d: string)
    requires QuotedContent(r, b) && HostName(d)
    ensures IsMatch(r, "\"" + b + "\"" + "@" + d)
  {
    QuotesAround(r, b);
    MatchOfParts(r, "\"" + b + "\"", d);
  }

  /** A local part, `@` and a domain form a match. */
  lemma MatchOfParts(r: Reading, a: string, d: string)
    requires LocalPart(r, a) && Domain(r, d)
    ensures IsMatch(r, a + "@" + d)
  {
    var s := a + "@" + d;
    AtSplit(a, d);
    assert AtDomain(r, s[|a|..|s|]);
  }

  lemma AtSplit(a: string, d: string)
    ensures (a + "@" + d)[0..|a|] == a
    ensures (a + "@" + d)[|a|..|a + "@" + d|] == "@" + d
    ensures ("@" + d)[1..] == d
  {
  }

  lemma QuotesAround(r: Reading, b: string)
    requires QuotedContent(r, b)
    ensures Quoted(r, "\"" + b + "\"")
  {
    var a := "\"" + b + "\"";
    assert a[1..|a| - 1] == b;
  }
}
