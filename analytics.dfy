/** The aggregation step of the subscription organizer (`performAnalysis`,
    `estimateReadTime`, `determineReadingFrequency` and `analyzeLanguage` in
    analytics.js). The URL parser and the calendar are parameters:
    `hostname(url)` is `new URL(url).hostname` (None when it throws) and
    `yearOf(t)` is `new Date(t).getFullYear()`. */
module Analytics {
  import opened Wrappers
  import opened Strings
  import opened Sorting
  import Seqs

  /** A FreshRSS/Feedbin article as the organizer reads it; None stands for
      a missing (undefined or null) field. */
  datatype Article = Article(
    title: Option<string>, author: Option<string>, url: Option<string>,
    published: Option<int>, starred: bool, favorited: bool,
    content: Option<string>, summary: Option<string>)

  /* ---------- insertion-ordered counting dictionaries ---------- */

  /** A plain object used as a counter: its entries in insertion order. */
  type Counts<K> = seq<(K, nat)>

  function Lookup<K(==,!new)>(d: Counts<K>, k: K): nat {
    if d == [] then 0 else if d[0].0 == k then d[0].1 else Lookup(d[1..], k)
  }

  function KeySet<K>(d: Counts<K>): set<K> {
    if d == [] then {} else {d[0].0} + KeySet(d[1..])
  }

  predicate DistinctKeys<K(==,!new)>(d: Counts<K>) {
    forall i, j :: 0 <= i < j < |d| ==> d[i].0 != d[j].0
  }

  function Total<K>(d: Counts<K>): nat {
    if d == [] then 0 else d[0].1 + Total(d[1..])
  }

  /** `d[k] = (d[k] || 0) + 1`. */
  function Bump<K(==,!new)>(d: Counts<K>, k: K): (r: Counts<K>)
    ensures Total(r) == Total(d) + 1
    ensures KeySet(r) == KeySet(d) + {k}
  {
    if d == [] then [(k, 1)]
    else if d[0].0 == k then [(k, d[0].1 + 1)] + d[1..]
    else [d[0]] + Bump(d[1..], k)
  }

  /** Bumping a key adds one to that key's counter and changes no other. */
  lemma {:induction false} BumpLookup<K(!new)>(d: Counts<K>, k: K, x: K)
    ensures Lookup(Bump(d, k), x) == Lookup(d, x) + (if x == k then 1 else 0)
  {
    if d != [] && d[0].0 != k {
      BumpLookup(d[1..], k, x);
    }
  }

  lemma {:induction false} KeySetHas<K>(d: Counts<K>, i: nat)
    requires i < |d|
    ensures d[i].0 in KeySet(d)
  {
    if i > 0 {
      KeySetHas(d[1..], i - 1);
    }
  }

  lemma {:induction false} KeySetWitness<K>(d: Counts<K>, k: K) returns (i: nat)
    requires k in KeySet(d)
    ensures i < |d| && d[i].0 == k
  {
    if d[0].0 == k {
      i := 0;
    } else {
      var j := KeySetWitness(d[1..], k);
      i := j + 1;
    }
  }

  /** A new key is appended at the end; an existing one keeps its place. */
  lemma {:induction false} BumpDistinct<K(!new)>(d: Counts<K>, k: K)
    requires DistinctKeys(d)
    ensures DistinctKeys(Bump(d, k))
  {
    if d != [] && d[0].0 != k {
      BumpDistinct(d[1..], k);
      var r := Bump(d, k);
      forall j | 1 <= j < |r| ensures r[0].0 != r[j].0 {
        assert r[j].0 in KeySet(d[1..]) + {k} by { KeySetHas(Bump(d[1..], k), j - 1); }
        if r[j].0 != k {
          var m := KeySetWitness(d[1..], r[j].0);
          assert d[m + 1].0 == r[j].0;
        }
      }
    }
  }

  /** The counter after incrementing each key of `keys` in turn, from an
      empty object. */
  function CountAll<K(==,!new)>(keys: seq<K>): (r: Counts<K>)
    ensures Total(r) == |keys|
    ensures DistinctKeys(r)
  {
    if keys == [] then []
    else
      var prefix := CountAll(keys[..|keys| - 1]);
      BumpDistinct(prefix, keys[|keys| - 1]);
      Bump(prefix, keys[|keys| - 1])
  }

  /** Each counter holds exactly the number of occurrences of its key. */
  lemma {:induction false} CountAllLookup<K(!new)>(keys: seq<K>, k: K)
    ensures Lookup(CountAll(keys), k) == multiset(keys)[k]
  {
    if keys != [] {
      CountAllLookup(keys[..|keys| - 1], k);
      BumpLookup(CountAll(keys[..|keys| - 1]), keys[|keys| - 1], k);
      assert keys == keys[..|keys| - 1] + [keys[|keys| - 1]];
    }
  }

  /** The counter has an entry exactly for the keys that occur. */
  lemma {:induction false} CountAllKeys<K(!new)>(keys: seq<K>, x: K)
    ensures x in KeySet(CountAll(keys)) <==> x in keys
  {
    if keys != [] {
      CountAllKeys(keys[..|keys| - 1], x);
      assert keys == keys[..|keys| - 1] + [keys[|keys| - 1]];
    }
  }

  lemma CountAllSnoc<K(!new)>(keys: seq<K>, k: K)
    ensures CountAll(keys + [k]) == Bump(CountAll(keys), k)
  {
    assert (keys + [k])[..|keys|] == keys;
  }

  /** Increments the counter once per key, in order. */
  function BumpAll<K(==,!new)>(d: Counts<K>, keys: seq<K>): Counts<K>
    decreases |keys|
  {
    if keys == [] then d else BumpAll(Bump(d, keys[0]), keys[1..])
  }

  lemma {:induction false} BumpAllSnoc<K(!new)>(d: Counts<K>, keys: seq<K>, k: K)
    ensures BumpAll(d, keys + [k]) == Bump(BumpAll(d, keys), k)
    decreases |keys|
  {
    if keys != [] {
      assert (keys + [k])[1..] == keys[1..] + [k];
      BumpAllSnoc(Bump(d, keys[0]), keys[1..], k);
    }
  }

  /** Counting a batch of keys onto a counter of earlier keys is counting
      all of them at once. */
  lemma {:induction false} BumpAllCountAll<K(!new)>(before: seq<K>, keys: seq<K>)
    ensures BumpAll(CountAll(before), keys) == CountAll(before + keys)
    decreases |keys|
  {
    if keys == [] {
      assert before + keys == before;
    } else {
      var k := keys[0];
      assert BumpAll(CountAll(before), keys) == BumpAll(Bump(CountAll(before), k), keys[1..]);
      CountAllSnoc(before, k);
      BumpAllCountAll(before + [k], keys[1..]);
      MoveHead(before, keys);
    }
  }

  lemma MoveHead<K>(before: seq<K>, keys: seq<K>)
    requires keys != []
    ensures before + [keys[0]] + keys[1..] == before + keys
  {
    assert keys == [keys[0]] + keys[1..];
  }

  /** Sorting the entries keeps their sum. */
  lemma {:induction false} TotalInsert<K>(x: (K, nat), s: Counts<K>, key: ((K, nat)) -> real)
    ensures Total(Insert(x, s, key)) == x.1 + Total(s)
  {
    if s != [] && key(s[0]) >= key(x) {
      TotalInsert(x, s[1..], key);
    }
  }

  lemma {:induction false} TotalSortDesc<K>(s: Counts<K>, key: ((K, nat)) -> real)
    ensures Total(SortDesc(s, key)) == Total(s)
  {
    if s != [] {
      var prefix, last := s[..|s| - 1], s[|s| - 1];
      var sorted := SortDesc(prefix, key);
      assert SortDesc(s, key) == Insert(last, sorted, key);
      TotalSortDesc(prefix, key);
      TotalInsert(last, sorted, key);
      Seqs.FrontLast(s);
      TotalSnoc(prefix, last);
    }
  }

  lemma {:induction false} TotalSnoc<K>(s: Counts<K>, x: (K, nat))
    ensures Total(s + [x]) == Total(s) + x.1
  {
    if s != [] {
      assert (s + [x])[1..] == s[1..] + [x];
      TotalSnoc(s[1..], x);
    }
  }

  /** An element occurring twice in a sequence is counted twice. */
  lemma {:induction false} TwiceInMultiset<T>(s: seq<T>, i: nat, j: nat)
    requires i < j < |s|
    ensures s[i] == s[j] ==> multiset(s)[s[i]] >= 2
  {
    assert s == s[..i] + [s[i]] + s[i + 1..j] + [s[j]] + s[j + 1..];
  }

  lemma {:induction false} DistinctAtMostOnce<K(!new)>(d: Counts<K>, x: (K, nat))
    requires DistinctKeys(d)
    ensures multiset(d)[x] <= 1
  {
    if d != [] {
      assert d == [d[0]] + d[1..];
      DistinctAtMostOnce(d[1..], x);
      forall k | 0 <= k < |d[1..]| ensures d[1..][k] != d[0] {
        assert d[1..][k].0 == d[k + 1].0;
      }
    }
  }

  /** A reordering of a counter with distinct keys has distinct keys. */
  lemma DistinctKeysPermutation<K(!new)>(a: Counts<K>, b: Counts<K>)
    requires DistinctKeys(a) && multiset(a) == multiset(b)
    ensures DistinctKeys(b)
  {
    forall i, j | 0 <= i < j < |b| ensures b[i].0 != b[j].0 {
      TwiceInMultiset(b, i, j);
      DistinctAtMostOnce(a, b[i]);
      assert b[i] in multiset(a) && b[j] in multiset(a);
      var p :| 0 <= p < |a| && a[p] == b[i];
      var q :| 0 <= q < |a| && a[q] == b[j];
      assert p != q;
    }
  }

  /* ---------- what one article contributes ---------- */

  /** `x || ''` on an optional string. */
  function Text(o: Option<string>): string {
    o.GetOr([])
  }

  /** `article.author || 'Auteur inconnu'`. */
  function AuthorOf(a: Article): string {
    if a.author.Some? && a.author.value != [] then a.author.value else "Auteur inconnu"
  }

  /** The hostname of a truthy, parseable URL; '' otherwise. */
  function DomainOf(a: Article, hostname: string -> Option<string>): string {
    if a.url.Some? && a.url.value != [] then hostname(a.url.value).GetOr([]) else []
  }

  predicate IsPublished(a: Article) {
    a.published.Some? && a.published.value != 0
  }

  /** `s.split(/\s+/)`: the pieces between maximal whitespace runs, with an
      empty first or last piece when `s` starts or ends with whitespace. */
  function SplitOnWhitespace(s: string): (r: seq<string>)
    ensures |r| >= 1
    ensures forall k :: 0 <= k < |r| ==> !HasWhitespace(r[k])
    decreases |s|
  {
    if s == [] then [[]]
    else if IsWhitespace(s[0]) then
      var t := TrimStart(s);
      [[]] + SplitOnWhitespace(t)
    else
      var rest := SplitOnWhitespace(s[1..]);
      assert !HasWhitespace([s[0]] + rest[0]) by {
        forall i | 0 <= i < |[s[0]] + rest[0]| ensures !IsWhitespace(([s[0]] + rest[0])[i]) {
          if i > 0 { assert ([s[0]] + rest[0])[i] == rest[0][i - 1]; }
        }
      }
      [[s[0]] + rest[0]] + rest[1..]
  }

  predicate IsKeywordLetter(c: char) {
    ('a' <= c <= 'z') || ('A' <= c <= 'Z') || c in "àâäéèêëïîôùûüÿç"
  }

  /** A title word counted as a keyword: three or more letters of the
      accepted alphabet. */
  predicate IsKeyword(w: string) {
    |w| >= 3 && forall i :: 0 <= i < |w| ==> IsKeywordLetter(w[i])
  }

  function KeywordsIn(words: seq<string>): (r: seq<string>)
    ensures forall k :: 0 <= k < |r| ==> IsKeyword(r[k])
  {
    if words == [] then []
    else (if IsKeyword(words[0]) then [words[0]] else []) + KeywordsIn(words[1..])
  }

  function LowerTitle(a: Article): string {
    ToLower(Text(a.title))
  }

  /** The eleven themes of `performAnalysis` and their keywords. */
  type ThemeTable = seq<(string, seq<string>)>

  const Themes: ThemeTable := [
    ("WordPress", ["wordpress", "wp", "plugin", "theme", "gutenberg"]),
    ("Performance", ["performance", "optimization", "speed", "lighthouse"]),
    ("Sécurité", ["security", "sécurité", "vulnérabilité", "patch", "cve", "threat", "malware"]),
    ("Accessibilité", ["accessibility", "accessibilité", "a11y", "wcag"]),
    ("JavaScript", ["javascript", "js", "react", "vue", "angular"]),
    ("CSS", ["css", "styling", "design", "responsive"]),
    ("AI & Machine Learning", ["ai", "artificial intelligence", "machine learning", "gpt", "neural", "algorithm"]),
    ("Startup & Innovation", ["startup", "funding", "venture", "innovation", "product launch"]),
    ("Government & Policy", ["regulation", "policy", "government", "compliance"]),
    ("Technology Trends", ["trend", "future", "emerging", "disruption"]),
    ("Research & Analysis", ["study", "research", "analysis", "statistics", "report"])
  ]

  predicate MentionsAny(title: string, keywords: seq<string>) {
    exists k :: 0 <= k < |keywords| && Contains(title, keywords[k])
  }

  predicate DistinctNames(table: ThemeTable) {
    forall m, n :: 0 <= m < n < |table| ==> table[m].0 != table[n].0
  }

  /** Names of the themes among the first `t` of `table` whose keywords
      occur in the title, in table order. */
  function ThemesIn(title: string, table: ThemeTable, t: nat): (r: seq<string>)
    requires t <= |table|
    ensures |r| <= t
  {
    if t == 0 then []
    else ThemesIn(title, table, t - 1) + (if MentionsAny(title, table[t - 1].1) then [table[t - 1].0] else [])
  }

  function Names(table: ThemeTable, t: nat): (r: seq<string>)
    requires t <= |table|
    ensures |r| == t && forall k :: 0 <= k < t ==> r[k] == table[k].0
  {
    if t == 0 then [] else Names(table, t - 1) + [table[t - 1].0]
  }

  lemma ThemeNamesDistinct()
    ensures DistinctNames(Themes)
  {
  }

  lemma {:induction false} ThemesInNames(title: string, table: ThemeTable, t: nat)
    requires t <= |table|
    ensures multiset(ThemesIn(title, table, t)) <= multiset(Names(table, t))
  {
    if t > 0 {
      ThemesInNames(title, table, t - 1);
      SubmultisetSnoc(ThemesIn(title, table, t - 1), Names(table, t - 1), table[t - 1].0,
                      MentionsAny(title, table[t - 1].1));
    }
  }

  lemma SubmultisetSnoc<T>(a: seq<T>, b: seq<T>, x: T, take: bool)
    requires multiset(a) <= multiset(b)
    ensures multiset(a + (if take then [x] else [])) <= multiset(b + [x])
  {
    if !take {
      assert a + [] == a;
    }
  }

  lemma {:induction false} NamesOnce(table: ThemeTable, t: nat, name: string)
    requires t <= |table| && DistinctNames(table)
    ensures multiset(Names(table, t))[name] <= 1
  {
    if t > 0 {
      NamesOnce(table, t - 1, name);
      var before := Names(table, t - 1);
      if name == table[t - 1].0 {
        forall k | 0 <= k < |before| ensures before[k] != name {
          assert before[k] == table[k].0;
        }
        assert name !in before;
      }
    }
  }

  /** A title credits each theme at most once. */
  lemma ThemesInAtMostOnce(title: string, table: ThemeTable, name: string)
    requires DistinctNames(table)
    ensures multiset(ThemesIn(title, table, |table|))[name] <= 1
  {
    ThemesInNames(title, table, |table|);
    NamesOnce(table, |table|, name);
  }

  /* ---------- the keys collected over a prefix of the articles ---------- */

  function DomainKeys(articles: seq<Article>, hostname: string -> Option<string>): seq<string> {
    if articles == [] then []
    else
      var last := articles[|articles| - 1];
      DomainKeys(articles[..|articles| - 1], hostname) +
        (if DomainOf(last, hostname) != [] then [DomainOf(last, hostname)] else [])
  }

  function EngagementKeys(articles: seq<Article>, hostname: string -> Option<string>): seq<string> {
    if articles == [] then []
    else
      var last := articles[|articles| - 1];
      EngagementKeys(articles[..|articles| - 1], hostname) +
        (if DomainOf(last, hostname) != [] && (last.starred || last.favorited) then [DomainOf(last, hostname)] else [])
  }

  function AuthorKeys(articles: seq<Article>): (r: seq<string>)
    ensures |r| == |articles|
  {
    if articles == [] then [] else AuthorKeys(articles[..|articles| - 1]) + [AuthorOf(articles[|articles| - 1])]
  }

  function YearKeys(articles: seq<Article>, yearOf: int -> int): seq<int> {
    if articles == [] then []
    else
      var last := articles[|articles| - 1];
      YearKeys(articles[..|articles| - 1], yearOf) + (if IsPublished(last) then [yearOf(last.published.value)] else [])
  }

  function KeywordKeys(articles: seq<Article>): seq<string> {
    if articles == [] then []
    else KeywordKeys(articles[..|articles| - 1]) + KeywordsIn(SplitOnWhitespace(LowerTitle(articles[|articles| - 1])))
  }

  function ThemeKeys(articles: seq<Article>, themes: ThemeTable): seq<string> {
    if articles == [] then []
    else ThemeKeys(articles[..|articles| - 1], themes) + ThemesIn(LowerTitle(articles[|articles| - 1]), themes, |themes|)
  }

  /** No theme is credited more often than there are articles. */
  lemma {:induction false} ThemeKeysBound(articles: seq<Article>, themes: ThemeTable, name: string)
    requires DistinctNames(themes)
    ensures multiset(ThemeKeys(articles, themes))[name] <= |articles|
  {
    if articles != [] {
      ThemeKeysBound(articles[..|articles| - 1], themes, name);
      ThemesInAtMostOnce(LowerTitle(articles[|articles| - 1]), themes, name);
    }
  }

  /** Articles with a non-empty hostname. */
  function CountWithDomain(articles: seq<Article>, hostname: string -> Option<string>): (r: nat)
    ensures r == |DomainKeys(articles, hostname)|
    ensures r <= |articles|
  {
    if articles == [] then 0
    else
      var last := if DomainOf(articles[|articles| - 1], hostname) != [] then 1 else 0;
      CountWithDomain(articles[..|articles| - 1], hostname) + last
  }

  /* ---------- reading time, frequency, language ---------- */

  /** `estimateReadTime(article)` in seconds: a fifth of the character count
      as words, read at 3.33 words a second, clamped to [30, 600]. */
  function EstimateReadTime(a: Article): (r: real)
    ensures 30.0 <= r <= 600.0
    ensures r == 30.0 || r == 600.0 ||
      r * 3.33 * 5.0 == (|Text(a.title)| + |Text(a.content)| + |Text(a.summary)|) as real
  {
    var totalLength := |Text(a.title)| + |Text(a.content)| + |Text(a.summary)|;
    var words := totalLength as real / 5.0;
    var perSecond := words / 3.33;
    var capped := if perSecond < 600.0 then perSecond else 600.0;
    if capped > 30.0 then capped else 30.0
  }

  datatype ReadingFrequency = MultipleDaily | Daily | Weekly | Irregular

  /** `determineReadingFrequency(articlesPerDay)`. */
  function DetermineReadingFrequency(articlesPerDay: real): ReadingFrequency {
    if articlesPerDay > 50.0 then MultipleDaily
    else if articlesPerDay > 20.0 then Daily
    else if articlesPerDay > 5.0 then Weekly
    else Irregular
  }

  function FrequencyRank(f: ReadingFrequency): nat {
    match f
    case Irregular => 0
    case Weekly => 1
    case Daily => 2
    case MultipleDaily => 3
  }

  /** Reading more articles a day never gives a lower frequency class, and
      the thresholds 5, 20 and 50 are exclusive. */
  lemma ReadingFrequencyMonotone(x: real, y: real)
    requires x <= y
    ensures FrequencyRank(DetermineReadingFrequency(x)) <= FrequencyRank(DetermineReadingFrequency(y))
    ensures DetermineReadingFrequency(5.0) == Irregular && DetermineReadingFrequency(20.0) == Weekly
    ensures DetermineReadingFrequency(50.0) == Daily
  {
  }

  /** The French heuristic of `analyzeLanguage`. */
  predicate LooksFrench(a: Article) {
    var title := LowerTitle(a);
    Contains(title, "les") || Contains(title, "des") || Contains(title, "une") ||
    (a.url.Some? && a.url.value != [] && Contains(a.url.value, ".fr"))
  }

  function FrenchCount(articles: seq<Article>): (r: nat)
    ensures r <= |articles|
  {
    if articles == [] then 0 else (if LooksFrench(articles[0]) then 1 else 0) + FrenchCount(articles[1..])
  }

  datatype LanguageShare = LanguageShare(count: nat, percentage: real)
  datatype LanguageDistribution = LanguageDistribution(french: LanguageShare, english: LanguageShare)

  /** `analyzeLanguage(articles)`: every article is French or English, and
      the two percentages add up to 100 when there is any article. */
  function AnalyzeLanguage(articles: seq<Article>): (r: LanguageDistribution)
    ensures r.french.count + r.english.count == |articles|
    ensures r.french.count == FrenchCount(articles)
    ensures |articles| > 0 ==> r.french.percentage + r.english.percentage == 100.0
    ensures |articles| == 0 ==> r.french.percentage == 0.0 && r.english.percentage == 0.0
  {
    var french := FrenchCount(articles);
    var english := |articles| - french;
    var total := |articles|;
    if total > 0 then
      var fp := french as real / total as real * 100.0;
      var ep := english as real / total as real * 100.0;
      SharesAddUp(french, english, total);
      LanguageDistribution(LanguageShare(french, fp), LanguageShare(english, ep))
    else LanguageDistribution(LanguageShare(french, 0.0), LanguageShare(english, 0.0))
  }

  /** Two shares of a positive total, as percentages, add up to 100. */
  lemma SharesAddUp(a: nat, b: nat, n: nat)
    requires n > 0 && a + b == n
    ensures a as real / n as real * 100.0 + b as real / n as real * 100.0 == 100.0
  {
    var x, y, m := a as real, b as real, n as real;
    var p, q := x / m, y / m;
    assert p * m == x && q * m == y && x + y == m;
    assert (p + q) * m == p * m + q * m;
    assert (p + q - 1.0) * m == 0.0;
    assert p + q == 1.0;
  }

  /* ---------- the analysis ---------- */

  datatype Cluster = Cluster(theme: string, score: nat, confidence: real, keywords: seq<string>)
  datatype YearStat = YearStat(year: int, count: nat)

  datatype Analysis = Analysis(
    totalArticles: nat,
    domains: seq<string>,
    authors: seq<string>,
    topDomains: Counts<string>,
    topAuthors: Counts<string>,
    topKeywords: Counts<string>,
    thematicClusters: seq<Cluster>,
    yearlyStats: seq<YearStat>,
    totalReadTime: real,
    avgReadTime: real,
    domainEngagement: Counts<string>)

  function CountKey(p: (string, nat)): real { p.1 as real }
  function NegYearKey(p: (int, nat)): real { -(p.0 as real) }
  function ClusterKey(c: Cluster): real { c.score as real }

  function Keys<K>(d: Counts<K>): (r: seq<K>)
    ensures |r| == |d| && forall i :: 0 <= i < |d| ==> r[i] == d[i].0
  {
    if d == [] then [] else [d[0].0] + Keys(d[1..])
  }

  /** `themes[theme]`: the keywords of the theme's entry in the table. */
  function ThemeKeywords(table: ThemeTable, theme: string): seq<string> {
    if table == [] then []
    else if table[0].0 == theme then table[0].1
    else ThemeKeywords(table[1..], theme)
  }

  /** `Math.min(score / 10, 1)`. */
  function Confidence(score: nat): (r: real)
    ensures 0.0 <= r <= 1.0
    ensures score >= 10 ==> r == 1.0
    ensures score < 10 ==> r * 10.0 == score as real
  {
    var ratio := score as real / 10.0;
    if ratio < 1.0 then ratio else 1.0
  }

  function ToClusters(table: ThemeTable, scores: Counts<string>): (r: seq<Cluster>)
    ensures |r| == |scores|
    ensures forall i :: 0 <= i < |r| ==>
      r[i].theme == scores[i].0 && r[i].score == scores[i].1 && r[i].confidence == Confidence(scores[i].1)
      && r[i].keywords == ThemeKeywords(table, scores[i].0)
  {
    if scores == [] then []
    else [Cluster(scores[0].0, scores[0].1, Confidence(scores[0].1), ThemeKeywords(table, scores[0].0))] + ToClusters(table, scores[1..])
  }

  function ToYearStats(years: Counts<int>): (r: seq<YearStat>)
    ensures |r| == |years|
    ensures forall i :: 0 <= i < |r| ==> r[i] == YearStat(years[i].0, years[i].1)
  {
    if years == [] then [] else [YearStat(years[0].0, years[0].1)] + ToYearStats(years[1..])
  }

  function Take<T>(s: seq<T>, n: nat): (r: seq<T>)
    ensures |r| <= n && |r| <= |s| && r == s[..|r|]
    ensures |s| >= n ==> |r| == n
  {
    if |s| <= n then s else s[..n]
  }

  /** The counters `performAnalysis` keeps while it walks the articles. */
  datatype Tallies = Tallies(
    domains: Counts<string>, authors: Counts<string>, keywords: Counts<string>,
    themeScores: Counts<string>, yearlyData: Counts<int>, engagement: Counts<string>,
    totalReadTime: real)

  const NoTallies := Tallies([], [], [], [], [], [], 0.0)

  /** What one article adds to the counters. */
  function Step(c: Tallies, a: Article, hostname: string -> Option<string>, yearOf: int -> int, themes: ThemeTable): Tallies {
    var domain := DomainOf(a, hostname);
    var title := LowerTitle(a);
    Tallies(
      if domain != [] then Bump(c.domains, domain) else c.domains,
      Bump(c.authors, AuthorOf(a)),
      BumpAll(c.keywords, KeywordsIn(SplitOnWhitespace(title))),
      BumpAll(c.themeScores, ThemesIn(title, themes, |themes|)),
      if IsPublished(a) then Bump(c.yearlyData, yearOf(a.published.value)) else c.yearlyData,
      if domain != [] && (a.starred || a.favorited) then Bump(c.engagement, domain) else c.engagement,
      c.totalReadTime + EstimateReadTime(a))
  }

  function TalliesOf(articles: seq<Article>, hostname: string -> Option<string>, yearOf: int -> int, themes: ThemeTable): Tallies {
    if articles == [] then NoTallies
    else Step(TalliesOf(articles[..|articles| - 1], hostname, yearOf, themes), articles[|articles| - 1], hostname, yearOf, themes)
  }

  /** After any number of articles the domain counter holds, for each
      hostname, the number of articles on it, and the engagement counter the
      number of those starred or favorited. */
  lemma {:induction false} TalliedDomains(articles: seq<Article>, hostname: string -> Option<string>, yearOf: int -> int, themes: ThemeTable)
    ensures TalliesOf(articles, hostname, yearOf, themes).domains == CountAll(DomainKeys(articles, hostname))
    ensures TalliesOf(articles, hostname, yearOf, themes).engagement == CountAll(EngagementKeys(articles, hostname))
  {
    if articles != [] {
      var prefix := articles[..|articles| - 1];
      var a := articles[|articles| - 1];
      var before := TalliesOf(prefix, hostname, yearOf, themes);
      TalliedDomains(prefix, hostname, yearOf, themes);
      assert TalliesOf(articles, hostname, yearOf, themes) == Step(before, a, hostname, yearOf, themes);
      var domain := DomainOf(a, hostname);
      if domain != [] {
        assert DomainKeys(articles, hostname) == DomainKeys(prefix, hostname) + [domain];
        CountAllSnoc(DomainKeys(prefix, hostname), domain);
      } else {
        assert DomainKeys(articles, hostname) == DomainKeys(prefix, hostname);
      }
      if domain != [] && (a.starred || a.favorited) {
        assert EngagementKeys(articles, hostname) == EngagementKeys(prefix, hostname) + [domain];
        CountAllSnoc(EngagementKeys(prefix, hostname), domain);
      } else {
        assert EngagementKeys(articles, hostname) == EngagementKeys(prefix, hostname);
      }
    }
  }

  lemma {:induction false} TalliedAuthors(articles: seq<Article>, hostname: string -> Option<string>, yearOf: int -> int, themes: ThemeTable)
    ensures TalliesOf(articles, hostname, yearOf, themes).authors == CountAll(AuthorKeys(articles))
  {
    if articles != [] {
      var prefix := articles[..|articles| - 1];
      TalliedAuthors(prefix, hostname, yearOf, themes);
      CountAllSnoc(AuthorKeys(prefix), AuthorOf(articles[|articles| - 1]));
    }
  }

  lemma {:induction false} TalliedYears(articles: seq<Article>, hostname: string -> Option<string>, yearOf: int -> int, themes: ThemeTable)
    ensures TalliesOf(articles, hostname, yearOf, themes).yearlyData == CountAll(YearKeys(articles, yearOf))
  {
    if articles != [] {
      var prefix := articles[..|articles| - 1];
      var a := articles[|articles| - 1];
      var before := TalliesOf(prefix, hostname, yearOf, themes);
      TalliedYears(prefix, hostname, yearOf, themes);
      assert TalliesOf(articles, hostname, yearOf, themes) == Step(before, a, hostname, yearOf, themes);
      if IsPublished(a) {
        var y := yearOf(a.published.value);
        assert YearKeys(articles, yearOf) == YearKeys(prefix, yearOf) + [y];
        CountAllSnoc(YearKeys(prefix, yearOf), y);
      } else {
        assert YearKeys(articles, yearOf) == YearKeys(prefix, yearOf);
      }
    }
  }

  lemma {:induction false} TalliedKeywords(articles: seq<Article>, hostname: string -> Option<string>, yearOf: int -> int, themes: ThemeTable)
    ensures TalliesOf(articles, hostname, yearOf, themes).keywords == CountAll(KeywordKeys(articles))
  {
    if articles != [] {
      var prefix := articles[..|articles| - 1];
      TalliedKeywords(prefix, hostname, yearOf, themes);
      BumpAllCountAll(KeywordKeys(prefix), KeywordsIn(SplitOnWhitespace(LowerTitle(articles[|articles| - 1]))));
    }
  }

  lemma {:induction false} TalliedThemes(articles: seq<Article>, hostname: string -> Option<string>, yearOf: int -> int, themes: ThemeTable)
    ensures TalliesOf(articles, hostname, yearOf, themes).themeScores == CountAll(ThemeKeys(articles, themes))
  {
    if articles != [] {
      var prefix := articles[..|articles| - 1];
      TalliedThemes(prefix, hostname, yearOf, themes);
      BumpAllCountAll(ThemeKeys(prefix, themes), ThemesIn(LowerTitle(articles[|articles| - 1]), themes, |themes|));
    }
  }

  lemma {:induction false} TalliedReadTime(articles: seq<Article>, hostname: string -> Option<string>, yearOf: int -> int, themes: ThemeTable)
    ensures TalliesOf(articles, hostname, yearOf, themes).totalReadTime == TotalReadTime(articles)
  {
    if articles != [] {
      TalliedReadTime(articles[..|articles| - 1], hostname, yearOf, themes);
    }
  }

  lemma {:induction false} KeywordKeysAreKeywords(articles: seq<Article>, k: string)
    requires k in KeywordKeys(articles)
    ensures IsKeyword(k)
  {
    var prefix := articles[..|articles| - 1];
    var last := KeywordsIn(SplitOnWhitespace(LowerTitle(articles[|articles| - 1])));
    if k in KeywordKeys(prefix) {
      KeywordKeysAreKeywords(prefix, k);
    } else {
      assert k in last;
    }
  }

  lemma {:induction false} KeywordsInSnoc(words: seq<string>, w: string)
    ensures KeywordsIn(words + [w]) == KeywordsIn(words) + (if IsKeyword(w) then [w] else [])
  {
    if words != [] {
      KeywordsInSnoc(words[1..], w);
      assert (words + [w])[1..] == words[1..] + [w];
    }
  }

  lemma KeywordsInNext(words: seq<string>, w: nat)
    requires w < |words|
    ensures IsKeyword(words[w]) ==> KeywordsIn(words[..w + 1]) == KeywordsIn(words[..w]) + [words[w]]
    ensures !IsKeyword(words[w]) ==> KeywordsIn(words[..w + 1]) == KeywordsIn(words[..w])
  {
    KeywordsInSnoc(words[..w], words[w]);
    assert words[..w + 1] == words[..w] + [words[w]];
    assert KeywordsIn(words[..w]) + [] == KeywordsIn(words[..w]);
  }

  /** Increments the keyword counter for every keyword among the words of a
      lower-cased title. */
  method CountKeywords(keywords: Counts<string>, title: string) returns (r: Counts<string>)
    ensures r == BumpAll(keywords, KeywordsIn(SplitOnWhitespace(title)))
  {
    var words := SplitOnWhitespace(title);
    r := keywords;
    var w := 0;
    while w < |words|
      invariant 0 <= w <= |words|
      invariant r == BumpAll(keywords, KeywordsIn(words[..w]))
    {
      KeywordsInNext(words, w);
      if IsKeyword(words[w]) {
        BumpAllSnoc(keywords, KeywordsIn(words[..w]), words[w]);
        r := Bump(r, words[w]);
      }
      w := w + 1;
    }
    assert words[..|words|] == words;
  }

  /** Credits every theme whose keywords occur in the lower-cased title. */
  method CreditThemes(themeScores: Counts<string>, title: string, table: ThemeTable)
    returns (r: Counts<string>)
    ensures r == BumpAll(themeScores, ThemesIn(title, table, |table|))
  {
    r := themeScores;
    var t := 0;
    while t < |table|
      invariant 0 <= t <= |table|
      invariant r == BumpAll(themeScores, ThemesIn(title, table, t))
    {
      var (theme, keywords) := table[t];
      ThemesInNext(title, table, t);
      if MentionsAny(title, keywords) {
        BumpAllSnoc(themeScores, ThemesIn(title, table, t), theme);
        r := Bump(r, theme);
      }
      t := t + 1;
    }
  }

  lemma ThemesInNext(title: string, table: ThemeTable, t: nat)
    requires t < |table|
    ensures MentionsAny(title, table[t].1) ==> ThemesIn(title, table, t + 1) == ThemesIn(title, table, t) + [table[t].0]
    ensures !MentionsAny(title, table[t].1) ==> ThemesIn(title, table, t + 1) == ThemesIn(title, table, t)
  {
    assert ThemesIn(title, table, t) + [] == ThemesIn(title, table, t);
  }

  /** The sum of the read-time estimates of the articles. */
  function TotalReadTime(articles: seq<Article>): real {
    if articles == [] then 0.0 else TotalReadTime(articles[..|articles| - 1]) + EstimateReadTime(articles[|articles| - 1])
  }

  /** The body of the per-article loop of `performAnalysis`. */
  method Tally(c: Tallies, a: Article, hostname: string -> Option<string>, yearOf: int -> int, themes: ThemeTable) returns (r: Tallies)
    ensures r == Step(c, a, hostname, yearOf, themes)
  {
    var domains, engagement, yearlyData := c.domains, c.engagement, c.yearlyData;
    var domain := DomainOf(a, hostname);
    if domain != [] {
      domains := Bump(domains, domain);
      if a.starred || a.favorited {
        engagement := Bump(engagement, domain);
      }
    }
    var authors := Bump(c.authors, AuthorOf(a));
    if IsPublished(a) {
      yearlyData := Bump(yearlyData, yearOf(a.published.value));
    }
    var totalReadTime := c.totalReadTime + EstimateReadTime(a);
    var title := LowerTitle(a);
    var keywords := CountKeywords(c.keywords, title);
    var themeScores := CreditThemes(c.themeScores, title, themes);
    ghost var step := Step(c, a, hostname, yearOf, themes);
    assert domains == step.domains && engagement == step.engagement;
    assert authors == step.authors && yearlyData == step.yearlyData;
    assert keywords == step.keywords && themeScores == step.themeScores;
    r := Tallies(domains, authors, keywords, themeScores, yearlyData, engagement, totalReadTime);
  }

  /** The per-article loop of `performAnalysis`. */
  method CountArticles(articles: seq<Article>, hostname: string -> Option<string>, yearOf: int -> int, themes: ThemeTable)
    returns (c: Tallies)
    ensures c == TalliesOf(articles, hostname, yearOf, themes)
  {
    c := NoTallies;
    var i := 0;
    while i < |articles|
      invariant 0 <= i <= |articles|
      invariant c == TalliesOf(articles[..i], hostname, yearOf, themes)
    {
      assert articles[..i + 1][..i] == articles[..i];
      c := Tally(c, articles[i], hostname, yearOf, themes);
      i := i + 1;
    }
    assert articles[..|articles|] == articles;
  }

  /** `n > 0 ? total / n : 0`. */
  function AverageOf(total: real, n: nat): (r: real)
    ensures n > 0 ==> r * n as real == total
    ensures n == 0 ==> r == 0.0
  {
    if n > 0 then
      var avg := total / n as real;
      assert avg * n as real == total;
      avg
    else 0.0
  }

  /** `Object.entries(d).sort((a, b) => b[1] - a[1])`. */
  function Ranked(d: Counts<string>): (r: Counts<string>)
    ensures SortedDesc(r, CountKey)
    ensures multiset(r) == multiset(d)
    ensures Total(r) == Total(d)
  {
    SortDescSorted(d, CountKey);
    TotalSortDesc(d, CountKey);
    SortDesc(d, CountKey)
  }

  /** The first `n` entries of the ranking (`.slice(0, n)`). */
  function Top(d: Counts<string>, n: nat): (r: Counts<string>)
    ensures |r| <= n && (|d| >= n ==> |r| == n) && (|d| <= n ==> |r| == |d|)
    ensures SortedDesc(r, CountKey)
    ensures r == Ranked(d)[..|r|]
    ensures forall i :: 0 <= i < |r| ==> r[i] in d
  {
    var ranked := Ranked(d);
    var r := Take(ranked, n);
    assert forall i :: 0 <= i < |r| ==> r[i] in multiset(d) by {
      forall i | 0 <= i < |r| ensures r[i] in multiset(d) {
        assert ranked[i] in multiset(ranked);
      }
    }
    r
  }

  /** The theme clusters, highest score first, each with its confidence. */
  function RankedClusters(table: ThemeTable, scores: Counts<string>): (r: seq<Cluster>)
    ensures SortedDesc(r, ClusterKey)
    ensures multiset(r) == multiset(ToClusters(table, scores))
    ensures forall i :: 0 <= i < |r| ==> r[i].confidence == Confidence(r[i].score)
  {
    var clusters := ToClusters(table, scores);
    SortDescSorted(clusters, ClusterKey);
    ClustersKeepConfidence(clusters, SortDesc(clusters, ClusterKey));
    SortDesc(clusters, ClusterKey)
  }

  /** The yearly counts, oldest year first. */
  function YearlyStats(years: Counts<int>): (r: seq<YearStat>)
    requires DistinctKeys(years)
    ensures |r| == |years|
    ensures forall i :: 0 <= i < |r| ==> (r[i].year, r[i].count) in years
    ensures forall i, j :: 0 <= i < j < |r| ==> r[i].year < r[j].year
  {
    var r := ToYearStats(SortDesc(years, NegYearKey));
    YearStatsOfSorted(years, r);
    r
  }

  lemma YearStatsOfSorted(years: Counts<int>, r: seq<YearStat>)
    requires DistinctKeys(years) && r == ToYearStats(SortDesc(years, NegYearKey))
    ensures forall i :: 0 <= i < |r| ==> (r[i].year, r[i].count) in years
    ensures forall i, j :: 0 <= i < j < |r| ==> r[i].year < r[j].year
  {
    var sorted := SortDesc(years, NegYearKey);
    YearsSorted(years);
    forall i | 0 <= i < |r| ensures (r[i].year, r[i].count) in years {
      assert r[i] == YearStat(sorted[i].0, sorted[i].1);
      assert (sorted[i].0, sorted[i].1) == sorted[i];
    }
    forall i, j | 0 <= i < j < |r| ensures r[i].year < r[j].year {
      assert r[i].year == sorted[i].0 && r[j].year == sorted[j].0;
    }
  }

  /** Sorting by descending negated year puts distinct years in ascending
      order and keeps every entry. */
  lemma YearsSorted(years: Counts<int>)
    requires DistinctKeys(years)
    ensures var sorted := SortDesc(years, NegYearKey);
      && (forall i :: 0 <= i < |sorted| ==> sorted[i] in years)
      && (forall i, j :: 0 <= i < j < |sorted| ==> sorted[i].0 < sorted[j].0)
  {
    var sorted := SortDesc(years, NegYearKey);
    SortDescSorted(years, NegYearKey);
    YearsAscending(years, sorted);
    forall i | 0 <= i < |sorted| ensures sorted[i] in years {
      assert sorted[i] in multiset(sorted);
    }
  }

  /** Every keyword reported is a word of three or more letters. */
  lemma TopKeywordsAreKeywords(articles: seq<Article>, keywords: Counts<string>)
    requires keywords == CountAll(KeywordKeys(articles))
    ensures forall i :: 0 <= i < |Top(keywords, 20)| ==> IsKeyword(Top(keywords, 20)[i].0)
  {
    var top := Top(keywords, 20);
    forall i | 0 <= i < |top| ensures IsKeyword(top[i].0) {
      var j :| 0 <= j < |keywords| && keywords[j] == top[i];
      KeySetHas(keywords, j);
      CountAllKeys(KeywordKeys(articles), top[i].0);
      KeywordKeysAreKeywords(articles, top[i].0);
    }
  }

  /** `performAnalysis(articles)` for a theme table with distinct names:
      counts, then sorts and truncates. */
  method AnalyzeWith(articles: seq<Article>, hostname: string -> Option<string>, yearOf: int -> int, themes: ThemeTable)
    returns (analysis: Analysis, authorCounts: Counts<string>, themeScores: Counts<string>)
    requires DistinctNames(themes)
    ensures analysis.totalArticles == |articles|
    // every article credits exactly one author ('Auteur inconnu' when missing)
    ensures Total(authorCounts) == |articles|
    ensures forall k :: Lookup(authorCounts, k) == multiset(AuthorKeys(articles))[k]
    ensures |analysis.topAuthors| == if |authorCounts| < 6 then |authorCounts| else 6
    ensures SortedDesc(analysis.topAuthors, CountKey)
    // domain counts cover exactly the articles with a hostname
    ensures analysis.topDomains == Ranked(CountAll(DomainKeys(articles, hostname)))
    ensures Total(analysis.topDomains) == CountWithDomain(articles, hostname)
    ensures forall k :: Lookup(CountAll(DomainKeys(articles, hostname)), k) == multiset(DomainKeys(articles, hostname))[k]
    // each article credits a theme at most once
    ensures forall t :: Lookup(themeScores, t) <= |articles|
    ensures SortedDesc(analysis.thematicClusters, ClusterKey)
    ensures forall i :: 0 <= i < |analysis.thematicClusters| ==>
      analysis.thematicClusters[i].confidence == Confidence(analysis.thematicClusters[i].score)
    ensures |analysis.topKeywords| <= 20 && SortedDesc(analysis.topKeywords, CountKey)
    ensures forall i :: 0 <= i < |analysis.topKeywords| ==> IsKeyword(analysis.topKeywords[i].0)
    ensures forall i, j :: 0 <= i < j < |analysis.yearlyStats| ==> analysis.yearlyStats[i].year < analysis.yearlyStats[j].year
    ensures analysis.totalReadTime == TotalReadTime(articles)
    ensures analysis.avgReadTime == AverageOf(analysis.totalReadTime, |articles|)
    // each output is the ranking, truncation or key list of its counter
    ensures analysis.domains == Keys(CountAll(DomainKeys(articles, hostname)))
    ensures authorCounts == CountAll(AuthorKeys(articles)) && analysis.authors == Keys(authorCounts)
    ensures analysis.topAuthors == Top(authorCounts, 6)
    ensures analysis.topKeywords == Top(CountAll(KeywordKeys(articles)), 20)
    ensures themeScores == CountAll(ThemeKeys(articles, themes))
    ensures analysis.thematicClusters == RankedClusters(themes, themeScores)
    ensures analysis.yearlyStats == YearlyStats(CountAll(YearKeys(articles, yearOf)))
    ensures analysis.domainEngagement == CountAll(EngagementKeys(articles, hostname))
  {
    var c := CountArticles(articles, hostname, yearOf, themes);
    TalliedDomains(articles, hostname, yearOf, themes);
    TalliedAuthors(articles, hostname, yearOf, themes);
    TalliedThemes(articles, hostname, yearOf, themes);
    TalliedYears(articles, hostname, yearOf, themes);
    TalliedKeywords(articles, hostname, yearOf, themes);
    TalliedReadTime(articles, hostname, yearOf, themes);
    authorCounts, themeScores := c.authors, c.themeScores;
    forall k ensures Lookup(authorCounts, k) == multiset(AuthorKeys(articles))[k] {
      CountAllLookup(AuthorKeys(articles), k);
    }
    forall k ensures Lookup(c.domains, k) == multiset(DomainKeys(articles, hostname))[k] {
      CountAllLookup(DomainKeys(articles, hostname), k);
    }
    forall t ensures Lookup(themeScores, t) <= |articles| {
      CountAllLookup(ThemeKeys(articles, themes), t);
      ThemeKeysBound(articles, themes, t);
    }
    TopKeywordsAreKeywords(articles, c.keywords);
    var avgReadTime := AverageOf(c.totalReadTime, |articles|);
    analysis := Analysis(|articles|, Keys(c.domains), Keys(c.authors), Ranked(c.domains), Top(c.authors, 6),
                         Top(c.keywords, 20), RankedClusters(themes, themeScores), YearlyStats(c.yearlyData),
                         c.totalReadTime, avgReadTime, c.engagement);
  }

  /** `performAnalysis(articles)`: counts, then sorts and truncates. */
  method PerformAnalysis(articles: seq<Article>, hostname: string -> Option<string>, yearOf: int -> int)
    returns (analysis: Analysis, authorCounts: Counts<string>, themeScores: Counts<string>)
    ensures analysis.totalArticles == |articles|
    // every article credits exactly one author ('Auteur inconnu' when missing)
    ensures Total(authorCounts) == |articles|
    ensures forall k :: Lookup(authorCounts, k) == multiset(AuthorKeys(articles))[k]
    ensures |analysis.topAuthors| == if |authorCounts| < 6 then |authorCounts| else 6
    ensures SortedDesc(analysis.topAuthors, CountKey)
    // domain counts cover exactly the articles with a hostname
    ensures analysis.topDomains == Ranked(CountAll(DomainKeys(articles, hostname)))
    ensures Total(analysis.topDomains) == CountWithDomain(articles, hostname)
    ensures forall k :: Lookup(CountAll(DomainKeys(articles, hostname)), k) == multiset(DomainKeys(articles, hostname))[k]
    // each article credits a theme at most once
    ensures forall t :: Lookup(themeScores, t) <= |articles|
    ensures SortedDesc(analysis.thematicClusters, ClusterKey)
    ensures forall i :: 0 <= i < |analysis.thematicClusters| ==>
      analysis.thematicClusters[i].confidence == Confidence(analysis.thematicClusters[i].score)
    ensures |analysis.topKeywords| <= 20 && SortedDesc(analysis.topKeywords, CountKey)
    ensures forall i :: 0 <= i < |analysis.topKeywords| ==> IsKeyword(analysis.topKeywords[i].0)
    ensures forall i, j :: 0 <= i < j < |analysis.yearlyStats| ==> analysis.yearlyStats[i].year < analysis.yearlyStats[j].year
    ensures analysis.totalReadTime == TotalReadTime(articles)
    ensures analysis.avgReadTime == AverageOf(analysis.totalReadTime, |articles|)
    // each output is the ranking, truncation or key list of its counter
    ensures analysis.domains == Keys(CountAll(DomainKeys(articles, hostname)))
    ensures authorCounts == CountAll(AuthorKeys(articles)) && analysis.authors == Keys(authorCounts)
    ensures analysis.topAuthors == Top(authorCounts, 6)
    ensures analysis.topKeywords == Top(CountAll(KeywordKeys(articles)), 20)
    ensures themeScores == CountAll(ThemeKeys(articles, Themes))
    ensures analysis.thematicClusters == RankedClusters(Themes, themeScores)
    ensures analysis.yearlyStats == YearlyStats(CountAll(YearKeys(articles, yearOf)))
    ensures analysis.domainEngagement == CountAll(EngagementKeys(articles, hostname))
  {
    ThemeNamesDistinct();
    analysis, authorCounts, themeScores := AnalyzeWith(articles, hostname, yearOf, Themes);
  }

  lemma ClustersKeepConfidence(a: seq<Cluster>, b: seq<Cluster>)
    requires forall i :: 0 <= i < |a| ==> a[i].confidence == Confidence(a[i].score)
    requires multiset(a) == multiset(b)
    ensures forall i :: 0 <= i < |b| ==> b[i].confidence == Confidence(b[i].score)
  {
    forall i | 0 <= i < |b| ensures b[i].confidence == Confidence(b[i].score) {
      assert b[i] in multiset(a);
      var j :| 0 <= j < |a| && a[j] == b[i];
    }
  }

  /** Sorting a year counter by descending negated year gives strictly
      ascending years. */
  lemma YearsAscending(a: Counts<int>, b: Counts<int>)
    requires DistinctKeys(a) && multiset(a) == multiset(b) && SortedDesc(b, NegYearKey)
    ensures forall i, j :: 0 <= i < j < |b| ==> b[i].0 < b[j].0
  {
    DistinctKeysPermutation(a, b);
    forall i, j | 0 <= i < j < |b| ensures b[i].0 < b[j].0 {
      assert NegYearKey(b[i]) >= NegYearKey(b[j]);
    }
  }
}
