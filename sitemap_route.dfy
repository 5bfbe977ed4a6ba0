/** app/routes/sitemap.xml.tsx: the sitemap serialiser (sitemaps.org protocol 0.9)
    and the resource route's response. */
module SitemapRoute {
  import opened TextUtil
  import IndexOrder

  /** The parts of the request URL the route reads (`new URL(request.url)`). */
  datatype RequestUrl = RequestUrl(protocol: string, host: string)

  /** The content host: the article names of Articles/index.json when it is served
      ok and parses, and for each article whose metadata is served ok and parses,
      its `date` field (absent or empty: `None`). */
  datatype Host = Host(index: Option<seq<string>>, metadata: map<string, Option<string>>)

  /** `siteUrl`: protocol, "//" and host of the request. */
  function SiteUrl(u: RequestUrl): string {
    u.protocol + "//" + u.host
  }

  const XmlHead: string :=
    "<?xml version=\"1.0\" encoding=\"UTF-8\"?>\n<urlset xmlns=\"http://www.sitemaps.org/schemas/sitemap/0.9\">\n"

  const XmlTail: string := "</urlset>"

  /** A `<url>` element for one of the static pages. */
  function StaticBlock(loc: string, changefreq: string, priority: string): string {
    "  <url>\n    <loc>" + loc + "</loc>\n    <changefreq>" + changefreq + "</changefreq>\n    <priority>" +
    priority + "</priority>\n  </url>\n"
  }

  /** Home (weekly, 1.0), /blog (weekly, 0.8) and /about (monthly, 0.7), in that order. */
  function StaticBlocks(siteUrl: string): string {
    StaticBlock(siteUrl + "/", "weekly", "1.0") +
    StaticBlock(siteUrl + "/blog", "weekly", "0.8") +
    StaticBlock(siteUrl + "/about", "monthly", "0.7")
  }

  /** The `<lastmod>` line: present only when the metadata was served with a date
      that `new Date(...).toISOString()` accepts (`isoDay` gives the part before
      "T", or `None` when it throws). */
  function LastmodLine(name: string, host: Host, isoDay: string -> Option<string>): (r: string)
    ensures r != "" <==> name in host.metadata && host.metadata[name].Some? && isoDay(host.metadata[name].value).Some?
  {
    if name in host.metadata && host.metadata[name].Some? && isoDay(host.metadata[name].value).Some?
    then "    <lastmod>" + isoDay(host.metadata[name].value).value + "</lastmod>\n"
    else ""
  }

  const UrlOpen: string := "  <url>\n"
  const ArticleFreq: string := "    <changefreq>monthly</changefreq>\n"
  const ArticlePriority: string := "    <priority>0.6</priority>\n"
  const UrlClose: string := "  </url>\n"

  /** The `<loc>` line of an article: its location under /blog. */
  function LocLine(siteUrl: string, name: string): string {
    "    <loc>" + siteUrl + "/blog/" + name + "</loc>\n"
  }

  /** The `<url>` element of one article: its location under /blog, the optional
      lastmod, monthly, priority 0.6. */
  function ArticleBlock(siteUrl: string, name: string, host: Host, isoDay: string -> Option<string>): string {
    UrlOpen + LocLine(siteUrl, name) + LastmodLine(name, host, isoDay) + ArticleFreq + ArticlePriority + UrlClose
  }

  function ArticleBlocks(siteUrl: string, names: seq<string>, host: Host, isoDay: string -> Option<string>): (r: seq<string>)
    ensures |r| == |names|
    ensures forall i :: 0 <= i < |names| ==> r[i] == ArticleBlock(siteUrl, names[i], host, isoDay)
  {
    seq(|names|, i requires 0 <= i < |names| => ArticleBlock(siteUrl, names[i], host, isoDay))
  }

  /** What precedes the articles: the XML declaration, the urlset and the static pages. */
  function Prelude(siteUrl: string): string {
    XmlHead + StaticBlocks(siteUrl)
  }

  /** The whole document for a list of article names. */
  function SitemapXml(siteUrl: string, names: seq<string>, host: Host, isoDay: string -> Option<string>): string {
    Prelude(siteUrl) + IndexOrder.Concat(ArticleBlocks(siteUrl, names, host, isoDay)) + XmlTail
  }

  lemma Regroup(a: string, p1: string, p2: string, p3: string, p4: string, p5: string, p6: string)
    ensures a + p1 + p2 + p3 + p4 + p5 + p6 == a + (p1 + p2 + p3 + p4 + p5 + p6)
  {
  }

  lemma Regroup3(a: string, b: string, c: string)
    ensures a + b + c == a + (b + c)
  {
  }

  /** One turn of the article loop: the lines of one `<url>` element appended to `xml`. */
  method AppendArticle(xml: string, siteUrl: string, name: string, host: Host, isoDay: string -> Option<string>)
    returns (r: string)
    ensures r == xml + ArticleBlock(siteUrl, name, host, isoDay)
  {
    r := xml + UrlOpen;
    r := r + LocLine(siteUrl, name);
    var lastmod := "";
    if name in host.metadata && host.metadata[name].Some? {
      var day := isoDay(host.metadata[name].value);
      if day.Some? {
        lastmod := "    <lastmod>" + day.value + "</lastmod>\n";
      }
    }
    r := r + lastmod;
    r := r + ArticleFreq;
    r := r + ArticlePriority;
    r := r + UrlClose;
    Regroup(xml, UrlOpen, LocLine(siteUrl, name), lastmod, ArticleFreq, ArticlePriority, UrlClose);
  }

  /** The article loop of generateSitemapXml: one `<url>` element per name, in
      index order, appended to what is already written. */
  method AppendArticles(pre: string, siteUrl: string, articles: seq<string>, host: Host, isoDay: string -> Option<string>)
    returns (xml: string)
    ensures xml == pre + IndexOrder.Concat(ArticleBlocks(siteUrl, articles, host, isoDay))
  {
    xml := pre;
    ghost var blocks := ArticleBlocks(siteUrl, articles, host, isoDay);
    for i := 0 to |articles|
      invariant xml == pre + IndexOrder.Concat(blocks[..i])
    {
      xml := AppendArticle(xml, siteUrl, articles[i], host, isoDay);
      assert blocks[..i + 1][..i] == blocks[..i];
      Regroup3(pre, IndexOrder.Concat(blocks[..i]), blocks[i]);
    }
    assert blocks[..|articles|] == blocks;
  }

  /** generateSitemapXml: `None` is the thrown "Failed to fetch articles" when the
      index cannot be had; otherwise the document, built by appending to `xml`. A
      failed metadata fetch only drops that article's lastmod. */
  method GenerateSitemapXml(requestUrl: RequestUrl, host: Host, isoDay: string -> Option<string>)
    returns (r: Option<string>)
    ensures host.index.None? ==> r.None?
    ensures host.index.Some? ==> r == Some(SitemapXml(SiteUrl(requestUrl), host.index.value, host, isoDay))
  {
    if host.index.None? {
      return None;
    }
    var siteUrl := requestUrl.protocol + "//" + requestUrl.host;
    var xml := XmlHead;
    xml := xml + StaticBlocks(siteUrl);
    xml := AppendArticles(xml, siteUrl, host.index.value, host, isoDay);
    xml := xml + XmlTail;
    return Some(xml);
  }

  /** Text framed by a prefix and a suffix keeps its pieces where they were, shifted
      by the prefix. */
  lemma Framed(pre: string, body: string, tail: string, b: string, p: int)
    requires OccursAt(body, b, p)
    ensures StartsWith(pre + body + tail, pre) && EndsWith(pre + body + tail, tail)
    ensures OccursAt(pre + body + tail, b, |pre| + p)
  {
    var x := pre + body + tail;
    assert x[..|pre|] == pre;
    assert x[|x| - |tail|..] == tail;
    assert x[|pre| + p..|pre| + p + |b|] == body[p..p + |b|];
  }

  /** The joined blocks between a prelude and the closing tag: the `k`-th block
      stands after the prelude and the blocks before it. */
  lemma {:induction false} DocumentLayout(pre: string, blocks: seq<string>, k: int)
    requires 0 <= k < |blocks|
    ensures var xml := pre + IndexOrder.Concat(blocks) + XmlTail;
            StartsWith(xml, pre) && EndsWith(xml, XmlTail) &&
            OccursAt(xml, blocks[k], |pre| + |IndexOrder.Concat(blocks[..k])|)
  {
    IndexOrder.ConcatHoldsEntries(blocks, k);
    Framed(pre, IndexOrder.Concat(blocks), XmlTail, blocks[k], |IndexOrder.Concat(blocks[..k])|);
  }

  /** The document opens with the XML declaration and the sitemaps 0.9 urlset,
      lists the three static pages first, then every article's block in index
      order, and closes the urlset. */
  lemma {:induction false} SitemapLayout(siteUrl: string, names: seq<string>, host: Host, isoDay: string -> Option<string>, k: int)
    requires 0 <= k < |names|
    ensures var xml := SitemapXml(siteUrl, names, host, isoDay);
            var blocks := ArticleBlocks(siteUrl, names, host, isoDay);
            StartsWith(xml, Prelude(siteUrl)) && EndsWith(xml, XmlTail) &&
            OccursAt(xml, ArticleBlock(siteUrl, names[k], host, isoDay),
                     |Prelude(siteUrl)| + |IndexOrder.Concat(blocks[..k])|)
  {
    DocumentLayout(Prelude(siteUrl), ArticleBlocks(siteUrl, names, host, isoDay), k);
  }

  // ---------------------------------------------------------------------
  // Lengths of a text: JavaScript's `length` counts UTF-16 code units; the
  // response body goes out as UTF-8.

  function CharUtf16Units(c: char): nat {
    if c as int >= 0x10000 then 2 else 1
  }

  function Utf16Length(s: string): (n: nat)
    ensures n >= |s|
  {
    if s == [] then 0 else Utf16Length(s[..|s| - 1]) + CharUtf16Units(s[|s| - 1])
  }

  /** The UTF-8 encoding of one scalar value (RFC 3629, section 3). */
  function EncodeChar(c: char): (bytes: seq<int>)
    ensures 1 <= |bytes| <= 4
    ensures forall i :: 0 <= i < |bytes| ==> 0 <= bytes[i] < 256
    ensures (c as int < 0x80) <==> |bytes| == 1
  {
    var n := c as int;
    if n < 0x80 then [n]
    else if n < 0x800 then [0xC0 + n / 64, 0x80 + n % 64]
    else if n < 0x10000 then [0xE0 + n / 4096, 0x80 + (n / 64) % 64, 0x80 + n % 64]
    else [0xF0 + n / 262144, 0x80 + (n / 4096) % 64, 0x80 + (n / 64) % 64, 0x80 + n % 64]
  }

  function Utf8Encode(s: string): (bytes: seq<int>)
    ensures forall i :: 0 <= i < |bytes| ==> 0 <= bytes[i] < 256
  {
    if s == [] then [] else Utf8Encode(s[..|s| - 1]) + EncodeChar(s[|s| - 1])
  }

  /** A character takes at least as many UTF-8 bytes as UTF-16 units, and
      strictly more when it is not ASCII and lies in the basic plane. */
  lemma CharLengths(c: char)
    ensures |EncodeChar(c)| >= CharUtf16Units(c)
    ensures 0x80 <= c as int < 0x10000 ==> |EncodeChar(c)| > CharUtf16Units(c)
  {
  }

  lemma {:induction false} Utf16NotAboveUtf8(s: string)
    ensures Utf16Length(s) <= |Utf8Encode(s)|
  {
    if s != [] {
      Utf16NotAboveUtf8(s[..|s| - 1]);
      CharLengths(s[|s| - 1]);
    }
  }

  /** A text with a non-ASCII character of the basic plane has more UTF-8 bytes
      than UTF-16 units. */
  lemma {:induction false} Utf16BelowUtf8(s: string, k: int)
    requires 0 <= k < |s| && 0x80 <= s[k] as int < 0x10000
    ensures Utf16Length(s) < |Utf8Encode(s)|
  {
    var init := s[..|s| - 1];
    CharLengths(s[|s| - 1]);
    if k < |s| - 1 {
      assert init[k] == s[k];
      Utf16BelowUtf8(init, k);
    } else {
      Utf16NotAboveUtf8(init);
    }
  }

  /** Content-Length as the route writes it: `String(xml.length)`. */
  function ContentLengthAsWritten(body: string): (r: string)
    ensures AllDigits(r) && ParseDigits(r) == Utf16Length(body)
  {
    ParseNatToString(Utf16Length(body));
    IntToString(Utf16Length(body))
  }

  /** Content-Length as HTTP defines it (section 8.6 of RFC 9110): the number of
      octets of the body, here its UTF-8 encoding. */
  function ContentLength(body: string): (r: string)
    ensures AllDigits(r) && ParseDigits(r) == |Utf8Encode(body)|
  {
    ParseNatToString(|Utf8Encode(body)|);
    NatToString(|Utf8Encode(body)|)
  }

  /** The written header disagrees with the body's size as soon as an article name
      (or the host) holds a non-ASCII character of the basic plane, such as an
      Arabic letter: the header then announces fewer bytes than are sent. */
  lemma AsWrittenUndercounts(siteUrl: string, names: seq<string>, host: Host, isoDay: string -> Option<string>, i: int, k: int)
    requires 0 <= i < |names| && 0 <= k < |names[i]| && 0x80 <= names[i][k] as int < 0x10000
    ensures var xml := SitemapXml(siteUrl, names, host, isoDay);
            ContentLengthAsWritten(xml) != ContentLength(xml)
  {
    var j := NameInBlock(siteUrl, names[i], host, isoDay, k);
    DocumentUndercounts(Prelude(siteUrl), ArticleBlocks(siteUrl, names, host, isoDay), XmlTail, i, j);
  }

  /** A block holding such a character makes the whole document's written header wrong. */
  lemma DocumentUndercounts(pre: string, blocks: seq<string>, tail: string, i: int, j: int)
    requires 0 <= i < |blocks| && 0 <= j < |blocks[i]| && 0x80 <= blocks[i][j] as int < 0x10000
    ensures var xml := pre + IndexOrder.Concat(blocks) + tail;
            ContentLengthAsWritten(xml) != ContentLength(xml)
  {
    var at := CharOfBlock(pre, blocks, tail, i, j);
    UndercountsAt(pre + IndexOrder.Concat(blocks) + tail, at);
  }

  /** Where character `j` of block `i` stands in the framed, joined blocks. */
  lemma CharOfBlock(pre: string, blocks: seq<string>, tail: string, i: int, j: int) returns (at: int)
    requires 0 <= i < |blocks| && 0 <= j < |blocks[i]|
    ensures var xml := pre + IndexOrder.Concat(blocks) + tail;
            0 <= at < |xml| && xml[at] == blocks[i][j]
  {
    var body := IndexOrder.Concat(blocks);
    var p := |IndexOrder.Concat(blocks[..i])|;
    IndexOrder.ConcatHoldsEntries(blocks, i);
    Framed(pre, body, tail, blocks[i], p);
    CharAt(pre + body + tail, blocks[i], |pre| + p, j);
    at := |pre| + p + j;
  }

  /** The name stands in its block's `<loc>` line: character `k` of the name is at
      the returned offset of the block. */
  lemma NameInBlock(siteUrl: string, name: string, host: Host, isoDay: string -> Option<string>, k: int)
    returns (j: int)
    requires 0 <= k < |name|
    ensures 0 <= j < |ArticleBlock(siteUrl, name, host, isoDay)| && ArticleBlock(siteUrl, name, host, isoDay)[j] == name[k]
  {
    var locPre := "    <loc>" + siteUrl + "/blog/";
    Middle(locPre, name, "</loc>\n", k);
    var loc := LocLine(siteUrl, name);
    FirstOfSix(UrlOpen, loc, LastmodLine(name, host, isoDay), ArticleFreq, ArticlePriority, UrlClose, |locPre| + k);
    j := |UrlOpen| + |locPre| + k;
  }

  lemma Middle(a: string, b: string, c: string, k: int)
    requires 0 <= k < |b|
    ensures (a + b + c)[|a| + k] == b[k]
  {
  }

  lemma FirstOfSix(u: string, x: string, p3: string, p4: string, p5: string, p6: string, m: int)
    requires 0 <= m < |x|
    ensures |u| + m < |u + x + p3 + p4 + p5 + p6| && (u + x + p3 + p4 + p5 + p6)[|u| + m] == x[m]
  {
  }

  /** One non-ASCII character of the basic plane anywhere in the body is enough
      for the written header to be wrong. */
  lemma UndercountsAt(body: string, j: int)
    requires 0 <= j < |body| && 0x80 <= body[j] as int < 0x10000
    ensures ContentLengthAsWritten(body) != ContentLength(body)
  {
    Utf16BelowUtf8(body, j);
    ParseNatToString(Utf16Length(body));
    ParseNatToString(|Utf8Encode(body)|);
  }

  lemma CharAt(x: string, b: string, at: int, j: int)
    requires OccursAt(x, b, at) && 0 <= j < |b|
    ensures x[at + j] == b[j]
  {
    assert x[at..at + |b|][j] == b[j];
  }

  /** An example: the sitemap of one article named "مقال" on https://a.b. */
  lemma ArabicNameExample(host: Host, isoDay: string -> Option<string>)
    ensures var xml := SitemapXml("https://a.b", ["مقال"], host, isoDay);
            ContentLengthAsWritten(xml) != ContentLength(xml)
  {
    AsWrittenUndercounts("https://a.b", ["مقال"], host, isoDay, 0, 0);
  }

  datatype Response = Response(status: int, headers: seq<(string, string)>, body: string)

  /** An ASCII body has one UTF-16 unit and one UTF-8 byte per character. */
  lemma {:induction false} AsciiLengthsAgree(s: string)
    requires forall i :: 0 <= i < |s| ==> s[i] as int < 0x80
    ensures Utf16Length(s) == |Utf8Encode(s)| == |s|
  {
    if s != [] {
      AsciiLengthsAgree(s[..|s| - 1]);
    }
  }

  /** The written header is right as long as the body is ASCII. */
  lemma AsWrittenAgreesOnAscii(body: string)
    requires forall i :: 0 <= i < |body| ==> body[i] as int < 0x80
    ensures ContentLengthAsWritten(body) == ContentLength(body)
  {
    AsciiLengthsAgree(body);
  }

  /** The headers of a sitemap response, with the given Content-Length. */
  function XmlHeaders(contentLength: string): seq<(string, string)> {
    [("Content-Type", "application/xml"), ("Content-Length", contentLength),
     ("Cache-Control", "public, max-age=3600"), ("X-Content-Type-Options", "nosniff")]
  }

  /** loader, as written: 200 with the XML, its type, `String(xml.length)` as the
      length and the caching headers; 500 with "Error generating sitemap" as plain
      text when the index cannot be had. */
  method Loader(requestUrl: RequestUrl, host: Host, isoDay: string -> Option<string>) returns (resp: Response)
    ensures host.index.None? ==>
              resp == Response(500, [("Content-Type", "text/plain")], "Error generating sitemap")
    ensures host.index.Some? ==>
              var xml := SitemapXml(SiteUrl(requestUrl), host.index.value, host, isoDay);
              resp == Response(200, XmlHeaders(ContentLengthAsWritten(xml)), xml)
  {
    var xml := GenerateSitemapXml(requestUrl, host, isoDay);
    if xml.None? {
      return Response(500, [("Content-Type", "text/plain")], "Error generating sitemap");
    }
    var body := xml.value;
    return Response(200, XmlHeaders(ContentLengthAsWritten(body)), body);
  }

  /** loader with the header HTTP asks for: the same responses, except that the
      Content-Length of a sitemap is the size of its UTF-8 body. */
  method CorrectedLoader(requestUrl: RequestUrl, host: Host, isoDay: string -> Option<string>) returns (resp: Response)
    ensures host.index.None? ==>
              resp == Response(500, [("Content-Type", "text/plain")], "Error generating sitemap")
    ensures host.index.Some? ==>
              var xml := SitemapXml(SiteUrl(requestUrl), host.index.value, host, isoDay);
              resp == Response(200, XmlHeaders(ContentLength(xml)), xml) &&
              ParseDigits(resp.headers[1].1) == |Utf8Encode(resp.body)|
  {
    var xml := GenerateSitemapXml(requestUrl, host, isoDay);
    if xml.None? {
      return Response(500, [("Content-Type", "text/plain")], "Error generating sitemap");
    }
    var body := xml.value;
    return Response(200, XmlHeaders(ContentLength(body)), body);
  }
}
