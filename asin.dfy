// Reading the ASIN (Amazon's ten-character product code) out of a product URL with the
// pattern `/dp/([\dA-Z]{10})/*[^/]*?$` (src/scraper/mod.rs).
module Asin {
  import opened Common
  import opened Strings

  /** `[\dA-Z]`, where `\d` is any Unicode decimal digit. */
  predicate IsAsinChar(c: char) {
    IsUnicodeDigit(c) || ('A' <= c <= 'Z')
  }

  // `/*[^/]*`: a run of slashes, then text without a slash.
  predicate SlashesThenName(t: string) {
    '/' !in t || (t[0] == '/' && SlashesThenName(t[1..]))
  }

  /** `/dp/` occurs at `j`. */
  predicate DpAt(url: string, j: int) {
    0 <= j && j + 4 <= |url| && url[j..j + 4] == "/dp/"
  }

  /** The pattern matches at `i`: `/dp/`, ten ASIN characters, then slashes and a last
      path piece running to the end (`$`). */
  predicate AsinMatchAt(url: string, i: int) {
    DpAt(url, i) && i + 14 <= |url|
    && (forall k :: i + 4 <= k < i + 14 ==> IsAsinChar(url[k]))
    && SlashesThenName(url[i + 14..])
  }

  /** The capture of the leftmost match at or after `i`. */
  function AsinFrom(url: string, i: nat): (r: Option<string>)
    requires i <= |url|
    ensures r.None? <==> forall j :: i <= j < |url| ==> !AsinMatchAt(url, j)
    ensures r.Some? ==> exists j :: i <= j < |url| && AsinMatchAt(url, j) && r.value == url[j + 4..j + 14]
    ensures r.Some? ==> |r.value| == 10 && (forall k :: 0 <= k < 10 ==> IsAsinChar(r.value[k]))
    decreases |url| - i
  {
    if i == |url| then None
    else if AsinMatchAt(url, i) then
      var a := url[i + 4..i + 14];
      assert forall k :: 0 <= k < 10 ==> a[k] == url[i + 4 + k];
      Some(url[i + 4..i + 14])
    else AsinFrom(url, i + 1)
  }

  /** `extract_asin(url)`: the capture group of the first match, if the URL matches. */
  function ExtractAsin(url: string): (r: Option<string>)
    ensures r.None? <==> forall j :: 0 <= j < |url| ==> !AsinMatchAt(url, j)
    ensures r.Some? ==> |r.value| == 10 && (forall k :: 0 <= k < 10 ==> IsAsinChar(r.value[k]))
    ensures r.Some? ==> exists j :: 0 <= j < |url| && AsinMatchAt(url, j) && r.value == url[j + 4..j + 14]
                                    && url[j..j + 4] == "/dp/"
  {
    AsinFrom(url, 0)
  }

  /** Once a non-slash has been seen, no slash follows. */
  lemma {:induction false} NoSlashAfterName(t: string, a: int, b: int)
    requires SlashesThenName(t) && 0 <= a < b < |t| && t[a] != '/'
    ensures t[b] != '/'
    decreases |t|
  {
    if '/' in t {
      assert t[0] == '/';
      assert t[1..][a - 1] == t[a] && t[1..][b - 1] == t[b];
      NoSlashAfterName(t[1..], a - 1, b - 1);
    }
  }

  /** After a match position, `/dp/` does not occur again. */
  lemma NoDpAfterMatch(url: string, i: int)
    requires AsinMatchAt(url, i)
    ensures forall j :: i < j ==> !DpAt(url, j)
  {
    forall j | i < j && j + 4 <= |url|
      ensures !DpAt(url, j)
    {
      if j < i + 3 {
        assert url[j] == url[i..i + 4][j - i];
        assert url[j] != '/';
      } else if j == i + 3 {
        assert IsAsinChar(url[i + 4]);
        assert url[j + 1] != 'd';
        assert url[j..j + 4][1] == url[j + 1];
      } else if j < i + 14 {
        assert IsAsinChar(url[j]);
        assert url[j..j + 4][0] == url[j];
      } else {
        var t := url[i + 14..];
        assert t[j - i - 14 + 1] == url[j + 1];
        assert t[j - i - 14 + 3] == url[j + 3];
        if url[j + 1] != '/' {
          NoSlashAfterName(t, j - i - 14 + 1, j - i - 14 + 3);
        }
        assert url[j + 1] != 'd' || url[j + 3] != '/';
        assert url[j..j + 4][1] == url[j + 1] && url[j..j + 4][3] == url[j + 3];
      }
    }
  }

  /** The URL matches at one position at most. */
  lemma AsinMatchUnique(url: string, i: int, j: int)
    requires AsinMatchAt(url, i) && AsinMatchAt(url, j)
    ensures i == j
  {
    NoDpAfterMatch(url, i);
    NoDpAfterMatch(url, j);
  }

  /** A URL made of any prefix, `/dp/`, an ASIN and a tail of slashes and a last piece
      gives that ASIN. */
  lemma {:induction false} ExtractsEmbeddedAsin(p: string, asin: string, tail: string)
    requires |asin| == 10 && forall k :: 0 <= k < 10 ==> IsAsinChar(asin[k])
    requires SlashesThenName(tail)
    ensures ExtractAsin(p + "/dp/" + asin + tail) == Some(asin)
  {
    var url := p + "/dp/" + asin + tail;
    var i := |p|;
    assert url[i..i + 4] == "/dp/";
    assert url[i + 4..i + 14] == asin;
    assert url[i + 14..] == tail;
    assert forall k :: i + 4 <= k < i + 14 ==> url[k] == asin[k - i - 4];
    assert AsinMatchAt(url, i);
    var j :| 0 <= j < |url| && AsinMatchAt(url, j) && ExtractAsin(url).value == url[j + 4..j + 14];
    AsinMatchUnique(url, i, j);
  }

  /** Ten characters of `[\dA-Z]` written in ASCII. */
  lemma AsciiAsin(asin: string)
    requires |asin| == 10 && forall k :: 0 <= k < 10 ==> ('0' <= asin[k] <= '9' || 'A' <= asin[k] <= 'Z')
    ensures forall k :: 0 <= k < 10 ==> IsAsinChar(asin[k])
  {
  }

  /** `https://www.amazon.com/dp/B07VGRJDFY` gives `B07VGRJDFY`. */
  lemma ShortUrlExample()
    ensures ExtractAsin("https://www.amazon.com/dp/B07VGRJDFY") == Some("B07VGRJDFY")
  {
    ShortUrlParts();
    ExtractsEmbeddedAsin("https://www.amazon.com", "B07VGRJDFY", "");
  }

  lemma ShortUrlParts()
    ensures forall k :: 0 <= k < 10 ==> IsAsinChar("B07VGRJDFY"[k])
    ensures "https://www.amazon.com" + "/dp/" + "B07VGRJDFY" + "" == "https://www.amazon.com/dp/B07VGRJDFY"
    ensures SlashesThenName("")
  {
    AsciiAsin("B07VGRJDFY");
  }

  // The query string after `/dp/B096S3QHWL/` in the long test URL, in pieces of 40 characters.
  const LongUrlTail0: string := "?_encoding=UTF8&pd_rd_w=DZ6f0&content-id"
  const LongUrlTail1: string := "=amzn1.sym.436e9684-a04c-4889-97d3-fc86a"
  const LongUrlTail2: string := "74d02fb&pf_rd_p=436e9684-a04c-4889-97d3-"
  const LongUrlTail3: string := "fc86a74d02fb&pf_rd_r=C66MWWHFNP8AZJNKEBC"
  const LongUrlTail4: string := "S&pd_rd_wg=kFZs4&pd_rd_r=ccf07ba4-b6dd-4"
  const LongUrlTail5: string := "daf-8e9e-b499cc9d4f30&ref_=pd_gw_trq_dl&"
  const LongUrlTail6: string := "th=1"
  const LongUrlTail: string := LongUrlTail0 + LongUrlTail1 + LongUrlTail2 + LongUrlTail3 + LongUrlTail4 + LongUrlTail5 + LongUrlTail6

  /** The long product URL with tracking parameters after `/dp/B096S3QHWL/` gives
      `B096S3QHWL`. */
  lemma LongUrlExample()
    ensures ExtractAsin("https://www.amazon.com/Warming-Pets-Removable-Non-Slip-Washable" + "/dp/B096S3QHWL/" + LongUrlTail) == Some("B096S3QHWL")
  {
    LongUrlParts();
    ExtractsEmbeddedAsin("https://www.amazon.com/Warming-Pets-Removable-Non-Slip-Washable", "B096S3QHWL", "/" + LongUrlTail);
  }

  lemma LongUrlParts()
    ensures forall k :: 0 <= k < 10 ==> IsAsinChar("B096S3QHWL"[k])
    ensures SlashesThenName("/" + LongUrlTail)
    ensures "https://www.amazon.com/Warming-Pets-Removable-Non-Slip-Washable" + "/dp/" + "B096S3QHWL" + ("/" + LongUrlTail)
            == "https://www.amazon.com/Warming-Pets-Removable-Non-Slip-Washable" + "/dp/B096S3QHWL/" + LongUrlTail
  {
    AsciiAsin("B096S3QHWL");
    SlashThenTail();
    LongUrlJoin();
  }

  lemma SlashThenTail()
    ensures SlashesThenName("/" + LongUrlTail)
  {
    TailHasNoSlash();
    assert ("/" + LongUrlTail)[1..] == LongUrlTail;
  }

  lemma LongUrlJoin()
    ensures "https://www.amazon.com/Warming-Pets-Removable-Non-Slip-Washable" + "/dp/" + "B096S3QHWL" + ("/" + LongUrlTail)
            == "https://www.amazon.com/Warming-Pets-Removable-Non-Slip-Washable" + "/dp/B096S3QHWL/" + LongUrlTail
  {
    RegroupAround("https://www.amazon.com/Warming-Pets-Removable-Non-Slip-Washable", "/dp/", "B096S3QHWL", LongUrlTail);
    DpAsinSlash();
  }

  lemma RegroupAround(p: string, d: string, a: string, t: string)
    ensures p + d + a + ("/" + t) == p + (d + a + "/") + t
  {
  }

  lemma DpAsinSlash()
    ensures "/dp/" + "B096S3QHWL" + "/" == "/dp/B096S3QHWL/"
  {
  }

  lemma TailHasNoSlash()
    ensures '/' !in LongUrlTail
  {
    TailPieceHasNoSlash0();
    TailPieceHasNoSlash1();
    TailPieceHasNoSlash2();
    TailPieceHasNoSlash3();
    TailPieceHasNoSlash4();
    TailPieceHasNoSlash5();
    TailPieceHasNoSlash6();
  }

  lemma TailPieceHasNoSlash0() ensures '/' !in LongUrlTail0 { }
  lemma TailPieceHasNoSlash1() ensures '/' !in LongUrlTail1 { }
  lemma TailPieceHasNoSlash2() ensures '/' !in LongUrlTail2 { }
  lemma TailPieceHasNoSlash3() ensures '/' !in LongUrlTail3 { }
  lemma TailPieceHasNoSlash4() ensures '/' !in LongUrlTail4 { }
  lemma TailPieceHasNoSlash5() ensures '/' !in LongUrlTail5 { }
  lemma TailPieceHasNoSlash6() ensures '/' !in LongUrlTail6 { }
}
