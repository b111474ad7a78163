/** The OPML writer of the URLs-to-OPML tool (opmlGenerator.js): XML
    escaping with the five predefined entities of section 4.6 of XML 1.0,
    and the OPML 2.0 subscription list with one `<outline type="rss">` per
    discovered feed. The clock is a parameter: `dateCreated` is the
    timestamp `new Date().toISOString()` would give. */
module Opml {
  import opened Wrappers
  import opened Strings

  /* ---------- escaping ---------- */

  /** The replacements of `escapeXML`, in the order they are applied. */
  const Entities: seq<(char, string)> :=
    [('&', "&amp;"), ('<', "&lt;"), ('>', "&gt;"), ('"', "&quot;"), ('\'', "&apos;")]

  lemma EntitiesNoReintroduction()
    ensures NoReintroduction(Entities)
  {
    var e := Entities;
    assert e[0].1 == "&amp;" && e[1].1 == "&lt;" && e[2].1 == "&gt;" && e[3].1 == "&quot;";
    assert e[1].0 == '<' && e[2].0 == '>' && e[3].0 == '"' && e[4].0 == '\'';
  }

  /** The entity written for one character. */
  function EscapeChar(c: char): (r: string)
    ensures |r| >= 1
    ensures '<' !in r && '>' !in r && '"' !in r && '\'' !in r
    ensures forall k :: 1 <= k < |r| ==> r[k] != '&'
  {
    match c
    case '&' => "&amp;"
    case '<' => "&lt;"
    case '>' => "&gt;"
    case '"' => "&quot;"
    case '\'' => "&apos;"
    case _ => [c]
  }

  lemma EntityFromIsEscapeChar(c: char)
    ensures EntityFrom(Entities, 0, c) == EscapeChar(c)
  {
    var e := Entities;
    assert e[0] == ('&', "&amp;") && e[1] == ('<', "&lt;") && e[2] == ('>', "&gt;");
    assert e[3] == ('"', "&quot;") && e[4] == ('\'', "&apos;") && |e| == 5;
    if c != '&' && c != '<' && c != '>' && c != '"' && c != '\'' {
      assert EntityFrom(e, 4, c) == EntityFrom(e, 5, c) == [c];
    }
  }

  /** Reference definition: every character replaced by its entity. */
  function EscapeEach(s: string): string {
    if s == [] then [] else EscapeChar(s[0]) + EscapeEach(s[1..])
  }

  lemma {:induction false} EscapeWithEntities(s: string)
    ensures EscapeWith(s, Entities) == EscapeEach(s)
  {
    if s != [] {
      EscapeWithEntities(s[1..]);
      EntityFromIsEscapeChar(s[0]);
    }
  }

  /** `escapeXML(str)`: a falsy argument gives '', and the replace chain
      (`&` first) escapes each character exactly once. */
  function EscapeXml(str: Option<string>): (r: string)
    ensures str.None? || str.value == [] ==> r == []
    ensures '<' !in r && '>' !in r && '"' !in r && '\'' !in r
    ensures str.Some? ==> r == EscapeEach(str.value)
  {
    if str.None? || str.value == [] then []
    else
      EntitiesNoReintroduction();
      ReplaceAllIsEntityMap(str.value, Entities);
      EscapeWithEntities(str.value);
      EscapeEachHasNoSpecials(str.value);
      ReplaceFrom(str.value, Entities, 0)
  }

  lemma {:induction false} EscapeEachHasNoSpecials(s: string)
    ensures '<' !in EscapeEach(s) && '>' !in EscapeEach(s) && '"' !in EscapeEach(s) && '\'' !in EscapeEach(s)
  {
    if s != [] {
      EscapeEachHasNoSpecials(s[1..]);
      assert EscapeEach(s) == EscapeChar(s[0]) + EscapeEach(s[1..]);
    }
  }

  /** The five entities, as they are read back. */
  predicate EntityAt(s: string, i: nat)
    requires i <= |s|
  {
    var t := s[i..];
    StartsWith(t, "&amp;") || StartsWith(t, "&lt;") || StartsWith(t, "&gt;") ||
    StartsWith(t, "&quot;") || StartsWith(t, "&apos;")
  }

  /** Every `&` of the escaped text begins one of the five entities. */
  lemma {:induction false} AmpersandsBeginEntities(s: string)
    ensures forall i :: 0 <= i < |EscapeEach(s)| && EscapeEach(s)[i] == '&' ==> EntityAt(EscapeEach(s), i)
  {
    if s != [] {
      AmpersandsBeginEntities(s[1..]);
      var head := EscapeChar(s[0]);
      var tail := EscapeEach(s[1..]);
      var r := EscapeEach(s);
      assert r == head + tail;
      forall i | 0 <= i < |r| && r[i] == '&' ensures EntityAt(r, i) {
        if i < |head| {
          assert i == 0 && r[0..] == r;
        } else {
          assert r[i..] == tail[i - |head|..];
        }
      }
    }
  }

  /** Reads the entities back, left to right. */
  function Unescape(s: string): string
    decreases |s|
  {
    if s == [] then []
    else if StartsWith(s, "&amp;") then "&" + Unescape(s[5..])
    else if StartsWith(s, "&lt;") then "<" + Unescape(s[4..])
    else if StartsWith(s, "&gt;") then ">" + Unescape(s[4..])
    else if StartsWith(s, "&quot;") then "\"" + Unescape(s[6..])
    else if StartsWith(s, "&apos;") then "'" + Unescape(s[6..])
    else [s[0]] + Unescape(s[1..])
  }

  lemma UnescapeHead(c: char, rest: string)
    ensures Unescape(EscapeChar(c) + rest) == [c] + Unescape(rest)
  {
    if c == '&' {
      UnescapeAmp(rest);
    } else if c == '<' {
      UnescapeLt(rest);
    } else if c == '>' {
      UnescapeGt(rest);
    } else if c == '"' {
      UnescapeQuot(rest);
    } else if c == '\'' {
      UnescapeApos(rest);
    } else {
      UnescapePlain(c, rest);
    }
  }

  lemma UnescapeAmp(rest: string)
    ensures Unescape("&amp;" + rest) == "&" + Unescape(rest)
  {
    var r := "&amp;" + rest;
    assert r[..5] == "&amp;" && r[5..] == rest;
  }

  lemma UnescapePlain(c: char, rest: string)
    requires c != '&'
    ensures Unescape([c] + rest) == [c] + Unescape(rest)
  {
    var r := [c] + rest;
    assert r[0] == c && r[1..] == rest;
    HeadMismatch(r, "&amp;");
    HeadMismatch(r, "&lt;");
    HeadMismatch(r, "&gt;");
    HeadMismatch(r, "&quot;");
    HeadMismatch(r, "&apos;");
  }

  lemma HeadMismatch(s: string, p: string)
    requires s != [] && p != [] && s[0] != p[0]
    ensures !StartsWith(s, p)
  {
    if |p| <= |s| {
      assert s[..|p|][0] == s[0];
    }
  }

  lemma UnescapeLt(rest: string)
    ensures Unescape("&lt;" + rest) == "<" + Unescape(rest)
  {
    var r := "&lt;" + rest;
    assert r[1] == 'l' && r[..4] == "&lt;" && r[4..] == rest;
    assert !StartsWith(r, "&amp;") by { if |r| >= 5 { assert r[..5][1] == 'l'; } }
  }

  lemma UnescapeGt(rest: string)
    ensures Unescape("&gt;" + rest) == ">" + Unescape(rest)
  {
    var r := "&gt;" + rest;
    assert r[1] == 'g' && r[..4] == "&gt;" && r[4..] == rest;
    assert !StartsWith(r, "&amp;") by { if |r| >= 5 { assert r[..5][1] == 'g'; } }
    assert !StartsWith(r, "&lt;") by { assert r[..4][1] == 'g'; }
  }

  lemma UnescapeQuot(rest: string)
    ensures Unescape("&quot;" + rest) == "\"" + Unescape(rest)
  {
    var r := "&quot;" + rest;
    assert r[1] == 'q' && r[..6] == "&quot;" && r[6..] == rest;
    assert !StartsWith(r, "&amp;") by { assert r[..5][1] == 'q'; }
    assert !StartsWith(r, "&lt;") by { assert r[..4][1] == 'q'; }
    assert !StartsWith(r, "&gt;") by { assert r[..4][1] == 'q'; }
  }

  lemma UnescapeApos(rest: string)
    ensures Unescape("&apos;" + rest) == "'" + Unescape(rest)
  {
    var r := "&apos;" + rest;
    assert r[1] == 'a' && r[2] == 'p' && r[..6] == "&apos;" && r[6..] == rest;
    assert !StartsWith(r, "&amp;") by { assert r[..5][2] == 'p'; }
    assert !StartsWith(r, "&lt;") by { assert r[..4][1] == 'a'; }
    assert !StartsWith(r, "&gt;") by { assert r[..4][1] == 'a'; }
    assert !StartsWith(r, "&quot;") by { assert r[..6][1] == 'a'; }
  }

  /** Decoding the entities recovers the original text. */
  lemma {:induction false} UnescapeEscape(s: string)
    ensures Unescape(EscapeEach(s)) == s
  {
    if s != [] {
      UnescapeEscape(s[1..]);
      UnescapeHead(s[0], EscapeEach(s[1..]));
      assert s == [s[0]] + s[1..];
    }
  }

  /* ---------- the document ---------- */

  /** The two feed formats a feed check recognises. */
  datatype FeedKind = Rss | Atom

  /** A feed found on a site; the generator reads only `url` and `title`. */
  datatype Feed = Feed(kind: FeedKind, url: string, title: Option<string>)
  datatype Site = Site(siteUrl: string, feeds: seq<Feed>)

  /** `feed.title || site.site_url`. */
  function OutlineTitle(site: Site, feed: Feed): string {
    if feed.title.Some? && feed.title.value != [] then feed.title.value else site.siteUrl
  }

  const OutlineOpen := "    <outline type=\"rss\" text=\""
  const XmlUrlName := " xmlUrl=\""
  const HtmlUrlName := " htmlUrl=\""
  const OutlineClose := "/>\n"

  /** One subscription line: the three escaped values, each closed by `"`. */
  function OutlineLine(site: Site, feed: Feed): string {
    var text := EscapeXml(Some(OutlineTitle(site, feed)));
    var xmlUrl := EscapeXml(Some(feed.url));
    var htmlUrl := EscapeXml(Some(site.siteUrl));
    OutlineOpen + (text + ("\"" + (XmlUrlName + (xmlUrl + ("\"" + (HtmlUrlName + (htmlUrl + ("\"" + OutlineClose))))))))
  }

  /** Every (site, feed) pair, in site order then feed order. */
  function Pairs(sites: seq<Site>): seq<(Site, Feed)> {
    if sites == [] then []
    else Pairs(sites[..|sites| - 1]) + FeedsOf(sites[|sites| - 1], |sites[|sites| - 1].feeds|)
  }

  function FeedsOf(site: Site, n: nat): (r: seq<(Site, Feed)>)
    requires n <= |site.feeds|
    ensures |r| == n && forall k :: 0 <= k < n ==> r[k] == (site, site.feeds[k])
  {
    if n == 0 then [] else FeedsOf(site, n - 1) + [(site, site.feeds[n - 1])]
  }

  function TotalFeeds(sites: seq<Site>): nat {
    if sites == [] then 0 else TotalFeeds(sites[..|sites| - 1]) + |sites[|sites| - 1].feeds|
  }

  /** One pair per feed; a site without feeds contributes nothing. */
  lemma {:induction false} PairsCount(sites: seq<Site>)
    ensures |Pairs(sites)| == TotalFeeds(sites)
  {
    if sites != [] {
      PairsCount(sites[..|sites| - 1]);
    }
  }

  /** The rendered lines of `pairs`, in order; `render` is the line format. */
  function Lines(pairs: seq<(Site, Feed)>, render: (Site, Feed) -> string): string {
    if pairs == [] then []
    else Lines(pairs[..|pairs| - 1], render) + render(pairs[|pairs| - 1].0, pairs[|pairs| - 1].1)
  }

  lemma LinesSnoc(pairs: seq<(Site, Feed)>, p: (Site, Feed), render: (Site, Feed) -> string)
    ensures Lines(pairs + [p], render) == Lines(pairs, render) + render(p.0, p.1)
  {
    assert (pairs + [p])[..|pairs|] == pairs;
  }

  /** The whole document around the outline lines. */
  function Envelope(dateCreated: string, outlines: string): string {
    "<?xml version=\"1.0\" encoding=\"UTF-8\"?>\n<opml version=\"2.0\">\n  <head>\n" +
    "    <title>URLs to OPML Feed Subscriptions</title>\n" +
    "    <dateCreated>" + dateCreated + "</dateCreated>\n  </head>\n  <body>\n" +
    outlines + "  </body>\n</opml>"
  }

  lemma {:induction false} LinesAppend(a: seq<(Site, Feed)>, b: seq<(Site, Feed)>, render: (Site, Feed) -> string)
    ensures Lines(a + b, render) == Lines(a, render) + Lines(b, render)
  {
    if b == [] {
      assert a + b == a;
    } else {
      var c := b[..|b| - 1];
      assert a + b == (a + c) + [b[|b| - 1]];
      LinesAppend(a, c, render);
      LinesSnoc(a + c, b[|b| - 1], render);
      assert b == c + [b[|b| - 1]];
      LinesSnoc(c, b[|b| - 1], render);
    }
  }

  /** The lines of one site, in the order of its feeds. */
  method SiteOutlines(site: Site, render: (Site, Feed) -> string) returns (lines: string)
    ensures lines == Lines(FeedsOf(site, |site.feeds|), render)
  {
    lines := "";
    var j := 0;
    while j < |site.feeds|
      invariant 0 <= j <= |site.feeds|
      invariant lines == Lines(FeedsOf(site, j), render)
    {
      var feed := site.feeds[j];
      LinesSnoc(FeedsOf(site, j), (site, feed), render);
      lines := lines + render(site, feed);
      j := j + 1;
    }
  }

  /** All sites' lines, one outline per feed. */
  method AllOutlines(feedsData: seq<Site>, render: (Site, Feed) -> string) returns (outlines: string)
    ensures outlines == Lines(Pairs(feedsData), render)
  {
    outlines := "";
    var i := 0;
    while i < |feedsData|
      invariant 0 <= i <= |feedsData|
      invariant outlines == Lines(Pairs(feedsData[..i]), render)
    {
      var lines := SiteOutlines(feedsData[i], render);
      assert feedsData[..i + 1][..i] == feedsData[..i];
      LinesAppend(Pairs(feedsData[..i]), FeedsOf(feedsData[i], |feedsData[i].feeds|), render);
      outlines := outlines + lines;
      i := i + 1;
    }
    assert feedsData[..|feedsData|] == feedsData;
  }

  /** `generateOPML(feedsData)`. */
  method GenerateOpml(feedsData: seq<Site>, dateCreated: string) returns (opml: string)
    ensures opml == Envelope(dateCreated, Lines(Pairs(feedsData), OutlineLine))
  {
    var outlines := AllOutlines(feedsData, OutlineLine);
    opml := Envelope(dateCreated, outlines);
  }

  /* ---------- reading a line back ---------- */

  /** The text up to the first `"`, and what follows that quote. */
  function ReadAttribute(s: string): (r: Option<(string, string)>)
    ensures r.Some? ==> '"' !in r.value.0
  {
    if s == [] then None
    else if s[0] == '"' then Some(([], s[1..]))
    else match ReadAttribute(s[1..])
      case None => None
      case Some((v, rest)) =>
        assert s[0] != '"';
        Some(([s[0]] + v, rest))
  }

  lemma {:induction false} ReadAttributeOf(v: string, rest: string)
    requires '"' !in v
    ensures ReadAttribute(v + ("\"" + rest)) == Some((v, rest))
  {
    var s := v + ("\"" + rest);
    if v != [] {
      assert s[0] == v[0] && v[0] in v;
      assert s[1..] == v[1..] + ("\"" + rest);
      ReadAttributeOf(v[1..], rest);
      assert [v[0]] + v[1..] == v;
    } else {
      assert s == "\"" + rest;
      assert s[0] == '"' && s[1..] == rest;
    }
  }

  /** What follows the expected prefix. */
  function Expect(s: string, p: string): Option<string> {
    if StartsWith(s, p) then Some(s[|p|..]) else None
  }

  lemma ExpectOf(p: string, rest: string)
    ensures Expect(p + rest, p) == Some(rest)
  {
    assert (p + rest)[..|p|] == p && (p + rest)[|p|..] == rest;
  }

  /** Reads the three attribute values of an outline line, unescaped. */
  function DecodeOutline(line: string): Option<(string, string, string)> {
    match Expect(line, OutlineOpen)
    case None => None
    case Some(r0) =>
      match ReadAttribute(r0)
      case None => None
      case Some((text, r1)) =>
        match Expect(r1, XmlUrlName)
        case None => None
        case Some(r2) =>
          match ReadAttribute(r2)
          case None => None
          case Some((xmlUrl, r3)) =>
            match Expect(r3, HtmlUrlName)
            case None => None
            case Some(r4) =>
              match ReadAttribute(r4)
              case None => None
              case Some((htmlUrl, r5)) =>
                if r5 == OutlineClose then Some((Unescape(text), Unescape(xmlUrl), Unescape(htmlUrl))) else None
  }

  lemma UnescapeXml(v: string)
    ensures Unescape(EscapeXml(Some(v))) == v
  {
    UnescapeEscape(v);
  }

  /** An outline line reads back as the title (or the site URL), the feed
      URL and the site URL: the escaping keeps every attribute intact. */
  lemma OutlineRoundTrip(site: Site, feed: Feed)
    ensures DecodeOutline(OutlineLine(site, feed)) == Some((OutlineTitle(site, feed), feed.url, site.siteUrl))
  {
    var t := EscapeXml(Some(OutlineTitle(site, feed)));
    var x := EscapeXml(Some(feed.url));
    var h := EscapeXml(Some(site.siteUrl));
    var r5 := OutlineClose;
    var r4 := h + ("\"" + r5);
    var r3 := HtmlUrlName + r4;
    var r2 := x + ("\"" + r3);
    var r1 := XmlUrlName + r2;
    var r0 := t + ("\"" + r1);
    ExpectOf(OutlineOpen, r0);
    ReadAttributeOf(t, r1);
    ExpectOf(XmlUrlName, r2);
    ReadAttributeOf(x, r3);
    ExpectOf(HtmlUrlName, r4);
    ReadAttributeOf(h, r5);
    UnescapeXml(OutlineTitle(site, feed));
    UnescapeXml(feed.url);
    UnescapeXml(site.siteUrl);
  }
}
