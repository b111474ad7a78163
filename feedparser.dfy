/** Feed discovery for the URLs-to-OPML tool: normalising the pasted URL list,
    collecting feed candidates from a page, classifying a fetched candidate
    as RSS or Atom, and shaping the per-site result. The URL parser, the
    HTML parser, the XML parser and the network are parameters. */
module FeedParser {
  import opened Wrappers
  import opened Strings
  import opened Opml
  import opened Seqs

  /* ---------- validateUrls ---------- */

  const Http := "http://"
  const Https := "https://"

  predicate HasWebScheme(s: string) {
    StartsWith(s, Http) || StartsWith(s, Https)
  }

  /** Prefixes `https://` unless the text already names an http(s) scheme. */
  function Normalize(url: string): (r: string)
    ensures HasWebScheme(r)
    ensures HasWebScheme(url) ==> r == url
    ensures !HasWebScheme(url) ==> r == Https + url
  {
    if HasWebScheme(url) then url
    else
      assert (Https + url)[..|Https|] == Https;
      Https + url
  }

  /** What `new URL(s).protocol` gives, `None` when the constructor throws. */
  type ProtocolOf = string -> Option<string>

  predicate Accepted(url: string, protocolOf: ProtocolOf) {
    protocolOf(url) == Some("http:") || protocolOf(url) == Some("https:")
  }

  /** The entry a line contributes, if any. */
  function LineEntry(line: string, protocolOf: ProtocolOf): (r: Option<string>)
    ensures r.Some? ==> HasWebScheme(r.value)
    ensures r.Some? <==> Trim(line) != [] && Accepted(Normalize(Trim(line)), protocolOf)
    ensures r.Some? ==> r.value == Normalize(Trim(line))
  {
    var url := Trim(line);
    if url == [] then None
    else if Accepted(Normalize(url), protocolOf) then Some(Normalize(url))
    else None
  }

  function Entry(protocolOf: ProtocolOf): string -> Option<string> {
    line => LineEntry(line, protocolOf)
  }

  /** The kept entries of `lines`, in input order. */
  function Entries(lines: seq<string>, protocolOf: ProtocolOf): seq<string> {
    FilterMap(lines, Entry(protocolOf))
  }

  function NonBlank(lines: seq<string>): nat {
    if lines == [] then 0
    else NonBlank(lines[..|lines| - 1]) + (if Trim(lines[|lines| - 1]) == [] then 0 else 1)
  }

  /** `validateUrls(urlText)`: one entry per line that is not blank and
      whose normalised form the URL parser accepts as http or https. */
  method ValidateUrls(urlText: string, protocolOf: ProtocolOf) returns (validUrls: seq<string>)
    ensures validUrls == Entries(Split(urlText, '\n'), protocolOf)
  {
    var lines := Split(urlText, '\n');
    validUrls := [];
    var i := 0;
    while i < |lines|
      invariant 0 <= i <= |lines|
      invariant validUrls == FilterMap(lines[..i], Entry(protocolOf))
    {
      assert lines[..i + 1][..i] == lines[..i];
      var url := Trim(lines[i]);
      if url != [] {
        var normalizedUrl := Normalize(url);
        if Accepted(normalizedUrl, protocolOf) {
          validUrls := validUrls + [normalizedUrl];
        }
      }
      i := i + 1;
    }
    assert lines[..|lines|] == lines;
  }

  /** Every entry carries an http or https scheme. */
  lemma EntriesHaveScheme(lines: seq<string>, protocolOf: ProtocolOf, u: string)
    requires u in Entries(lines, protocolOf)
    ensures HasWebScheme(u)
  {
    FilterMapMembership(lines, Entry(protocolOf), u);
  }

  /** At most one entry per non-blank line. */
  lemma {:induction false} EntriesBound(lines: seq<string>, protocolOf: ProtocolOf)
    ensures |Entries(lines, protocolOf)| <= NonBlank(lines)
  {
    if lines != [] {
      EntriesBound(lines[..|lines| - 1], protocolOf);
    }
  }

  /** An entry is exactly the normalised, trimmed form of an accepted
      non-blank line. */
  lemma EntriesMembership(lines: seq<string>, protocolOf: ProtocolOf, u: string)
    ensures u in Entries(lines, protocolOf) <==>
      exists k :: 0 <= k < |lines| && Trim(lines[k]) != [] && u == Normalize(Trim(lines[k])) && Accepted(u, protocolOf)
  {
    FilterMapMembership(lines, Entry(protocolOf), u);
  }

  /** A bare word is not rejected for lacking a scheme: it is given one,
      and it is dropped only if the URL parser then refuses it. */
  lemma BareWordKept(protocolOf: ProtocolOf)
    requires protocolOf("https://notaurl") == Some("https:")
    ensures Entries(["notaurl"], protocolOf) == ["https://notaurl"]
  {
    var w := "notaurl";
    TrimKeepsInner(w);
    assert w[0] != Http[0];
    assert !StartsWith(w, Https);
    assert Normalize(w) == "https://notaurl";
    assert ["notaurl"][..0] == [];
  }

  /* ---------- findFeedsInHTML ---------- */

  /** The paths tried on every site, in this order. */
  const CommonPaths: seq<string> := ["/feed", "/rss", "/feed.xml", "/atom.xml", "/rss.xml",
    "/index.xml", "/feeds/all.atom.xml", "/feeds/all.rss.xml"]

  /** `new URL(ref, base).href`, `None` when the constructor throws. */
  type Resolve = (string, string) -> Option<string>

  /** The resolved `href` of each feed `<link>`; a missing or empty `href`
      and one that does not resolve are skipped. */
  function LinkCandidates(baseUrl: string, hrefs: seq<Option<string>>, resolve: Resolve): seq<string> {
    if hrefs == [] then []
    else
      var before := LinkCandidates(baseUrl, hrefs[..|hrefs| - 1], resolve);
      var href := hrefs[|hrefs| - 1];
      if href.None? || href.value == [] then before
      else match resolve(href.value, baseUrl)
        case None => before
        case Some(full) => before + [full]
  }

  function PathCandidates(baseUrl: string, paths: seq<string>, resolve: Resolve): seq<string> {
    if paths == [] then []
    else
      var before := PathCandidates(baseUrl, paths[..|paths| - 1], resolve);
      match resolve(paths[|paths| - 1], baseUrl)
      case None => before
      case Some(full) => before + [full]
  }

  /** The candidates before deduplication: link candidates, then the
      common paths, each resolved against the page URL. */
  function AllCandidates(baseUrl: string, hrefs: seq<Option<string>>, resolve: Resolve): seq<string> {
    LinkCandidates(baseUrl, hrefs, resolve) + PathCandidates(baseUrl, CommonPaths, resolve)
  }

  /** `findFeedsInHTML(baseUrl, htmlContent)`; `hrefs` are the `href`
      attributes of the page's feed `<link>` elements, in document order. */
  method FindFeedsInHtml(baseUrl: string, hrefs: seq<Option<string>>, resolve: Resolve) returns (r: seq<string>)
    ensures r == Dedup(AllCandidates(baseUrl, hrefs, resolve))
  {
    var potentialFeeds := [];
    var i := 0;
    while i < |hrefs|
      invariant 0 <= i <= |hrefs|
      invariant potentialFeeds == LinkCandidates(baseUrl, hrefs[..i], resolve)
    {
      assert hrefs[..i + 1][..i] == hrefs[..i];
      var href := hrefs[i];
      if href.Some? && href.value != [] {
        var full := resolve(href.value, baseUrl);
        if full.Some? {
          potentialFeeds := potentialFeeds + [full.value];
        }
      }
      i := i + 1;
    }
    assert hrefs[..|hrefs|] == hrefs;
    var links := potentialFeeds;
    var j := 0;
    while j < |CommonPaths|
      invariant 0 <= j <= |CommonPaths|
      invariant potentialFeeds == links + PathCandidates(baseUrl, CommonPaths[..j], resolve)
    {
      assert CommonPaths[..j + 1][..j] == CommonPaths[..j];
      var full := resolve(CommonPaths[j], baseUrl);
      if full.Some? {
        potentialFeeds := potentialFeeds + [full.value];
      }
      j := j + 1;
    }
    assert CommonPaths[..|CommonPaths|] == CommonPaths;
    r := Dedup(potentialFeeds);
  }

  /* ---------- checkFeed ---------- */

  /** What the XML parser makes of a fetched body. */
  datatype XmlDoc = XmlDoc(parserError: bool, hasRss: bool, channelTitle: Option<string>,
                           hasFeed: bool, feedTitle: Option<string>)

  /** A fetch: it throws, or answers with a status and a parsed body. */
  datatype Fetched = Threw | Answered(ok: bool, doc: XmlDoc)

  function TrimmedTitle(t: Option<string>): Option<string> {
    match t
    case None => None
    case Some(s) => Some(Trim(s))
  }

  /** `checkFeed(url)` on the outcome of fetching it. */
  function CheckFeed(url: string, fetched: Fetched): (r: Option<Feed>)
    ensures r.None? <==> fetched.Threw? || !fetched.ok || fetched.doc.parserError ||
                         (!fetched.doc.hasRss && !fetched.doc.hasFeed)
    ensures r.Some? ==> r.value.url == url
    ensures r.Some? ==> (r.value.kind == Rss <==> fetched.doc.hasRss)
    ensures r.Some? && r.value.kind == Rss ==> r.value.title == TrimmedTitle(fetched.doc.channelTitle)
    ensures r.Some? && r.value.kind == Atom ==> r.value.title == TrimmedTitle(fetched.doc.feedTitle)
  {
    match fetched
    case Threw => None
    case Answered(ok, doc) =>
      if !ok then None
      else if doc.parserError then None
      else if doc.hasRss then Some(Feed(Rss, url, TrimmedTitle(doc.channelTitle)))
      else if doc.hasFeed then Some(Feed(Atom, url, TrimmedTitle(doc.feedTitle)))
      else None
  }

  /* ---------- processSite ---------- */

  /** The site page fetch: it throws, or answers with a status and the
      `href`s of its feed links. */
  datatype Page = PageThrew | PageAnswered(ok: bool, hrefs: seq<Option<string>>)

  function Check(fetchFeed: string -> Fetched): string -> Option<Feed> {
    c => CheckFeed(c, fetchFeed(c))
  }

  /** The checks that found a feed, in candidate order. */
  function ValidFeeds(candidates: seq<string>, fetchFeed: string -> Fetched): seq<Feed> {
    FilterMap(candidates, Check(fetchFeed))
  }

  function FeedUrl(f: Feed): string {
    f.url
  }

  /** A feed is kept exactly when its candidate's check succeeds. */
  lemma ValidFeedsMembership(candidates: seq<string>, fetchFeed: string -> Fetched, f: Feed)
    ensures f in ValidFeeds(candidates, fetchFeed) <==>
      exists k :: 0 <= k < |candidates| && CheckFeed(candidates[k], fetchFeed(candidates[k])) == Some(f)
  {
    FilterMapMembership(candidates, Check(fetchFeed), f);
  }

  /** With distinct candidates, no feed URL is listed twice, and each is
      one of the candidates. */
  lemma ValidFeedsDistinct(candidates: seq<string>, fetchFeed: string -> Fetched)
    requires Distinct(candidates)
    ensures Distinct(MapSeq(ValidFeeds(candidates, fetchFeed), FeedUrl))
    ensures forall k :: 0 <= k < |ValidFeeds(candidates, fetchFeed)| ==> ValidFeeds(candidates, fetchFeed)[k].url in candidates
  {
    FilterMapDistinct(candidates, Check(fetchFeed), FeedUrl);
  }

  /** `processSite(url)`: a site entry with the normalised URL; no feeds
      when the page fetch fails, and the raw input when it throws. */
  function ProcessSite(url: string, page: Page, resolve: Resolve, fetchFeed: string -> Fetched): (r: Site)
    ensures page.PageThrew? ==> r == Site(url, [])
    ensures page.PageAnswered? ==> r.siteUrl == Normalize(Trim(url))
    ensures page.PageAnswered? && !page.ok ==> r.feeds == []
    ensures page.PageAnswered? && page.ok ==>
      r.feeds == ValidFeeds(Dedup(AllCandidates(Normalize(Trim(url)), page.hrefs, resolve)), fetchFeed)
  {
    match page
    case PageThrew => Site(url, [])
    case PageAnswered(ok, hrefs) =>
      var normalizedUrl := Normalize(Trim(url));
      if !ok then Site(normalizedUrl, [])
      else Site(normalizedUrl, ValidFeeds(Dedup(AllCandidates(normalizedUrl, hrefs, resolve)), fetchFeed))
  }

  /** A site's feeds are distinct, each a checked candidate of that site. */
  lemma ProcessSiteDistinct(url: string, page: Page, resolve: Resolve, fetchFeed: string -> Fetched)
    ensures Distinct(MapSeq(ProcessSite(url, page, resolve, fetchFeed).feeds, FeedUrl))
  {
    if page.PageAnswered? && page.ok {
      var cands := Dedup(AllCandidates(Normalize(Trim(url)), page.hrefs, resolve));
      DedupOrder(AllCandidates(Normalize(Trim(url)), page.hrefs, resolve));
      ValidFeedsDistinct(cands, fetchFeed);
    }
  }
}
