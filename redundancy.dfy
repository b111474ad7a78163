/** Redundant-source detection of the subscription organizer
    (`analyzeSourceRedundancy`, `calculateRedundancyScore` and
    `findSimilarNamedSources` in analytics.js). */
module Redundancy {
  import opened Strings
  import opened Similarity
  import opened Sorting
  import Seqs

  /** One entry of a redundant group: the domain (also used as title), its
      article count and its engagement count. */
  datatype RedundantSource = RedundantSource(domain: string, title: string, count: int, engagement: nat)

  datatype RedundantGroup = RedundantGroup(theme: string, sources: seq<RedundantSource>, score: real)

  datatype RedundancyReport = RedundancyReport(groups: seq<RedundantGroup>, totalRedundantSources: nat)

  const SimilarNamesTheme: string := "Noms similaires"

  /** A theme and its keywords. */
  type ThemeTable = seq<(string, seq<string>)>

  /** The eight theme groups and their keywords, in declaration order. */
  const ThemeGroups: ThemeTable := [
    ("WordPress", ["wordpress", "wp", "plugin", "theme", "gutenberg", "woocommerce"]),
    ("JavaScript", ["javascript", "js", "react", "vue", "angular", "node", "typescript"]),
    ("CSS/Design", ["css", "design", "ui", "ux", "responsive", "frontend"]),
    ("Performance", ["performance", "speed", "optimization", "lighthouse", "webpagetest"]),
    ("Sécurité", ["security", "sécurité", "vulnérabilité", "cve", "threat", "malware"]),
    ("AI/ML", ["ai", "artificial intelligence", "machine learning", "gpt", "neural"]),
    ("News/Tech", ["news", "tech", "technology", "startup", "innovation"]),
    ("Blogs personnels", ["blog", "personal", "journal", "thoughts", "opinion"])
  ]

  /* ---------- mean pairwise similarity ---------- */

  function PairSimilarity(s: seq<RedundantSource>, i: nat, k: nat): real
    requires i < |s| && k < |s|
  {
    StringSimilarity(ToLower(s[i].domain), ToLower(s[k].domain))
  }

  /** Similarities of source `i` with sources i+1 .. j-1. */
  function RowSum(s: seq<RedundantSource>, i: nat, j: nat): real
    requires i < j <= |s|
    decreases j
  {
    if j == i + 1 then 0.0 else RowSum(s, i, j - 1) + PairSimilarity(s, i, j - 1)
  }

  /** Similarities of every pair whose first index is below `i`. */
  function PairSum(s: seq<RedundantSource>, i: nat): real
    requires i <= |s|
  {
    if i == 0 then 0.0 else PairSum(s, i - 1) + RowSum(s, i - 1, |s|)
  }

  /** Number of pairs (r, k) with r < i and r < k < n. */
  function PairsBefore(n: nat, i: nat): (r: nat)
    requires i <= n
    ensures 0 < i && 1 < n ==> r > 0
  {
    if i == 0 then 0 else PairsBefore(n, i - 1) + (n - i)
  }

  lemma {:induction false} PairsBeforeClosedForm(n: nat, i: nat)
    requires i <= n
    ensures 2 * PairsBefore(n, i) == i * (2 * n - i - 1)
  {
    if i > 0 {
      PairsBeforeClosedForm(n, i - 1);
    }
  }

  /** The mean similarity over all unordered pairs of lower-cased domains;
      0 for fewer than two sources. */
  function MeanSimilarity(s: seq<RedundantSource>): real {
    if |s| < 2 then 0.0 else PairSum(s, |s|) / PairsBefore(|s|, |s|) as real
  }

  lemma {:induction false} RowSumBounds(s: seq<RedundantSource>, i: nat, j: nat)
    requires i < j <= |s|
    ensures 0.0 <= RowSum(s, i, j) <= (j - i - 1) as real
    decreases j
  {
    if j > i + 1 {
      RowSumBounds(s, i, j - 1);
      SimilarityInUnitRange(ToLower(s[i].domain), ToLower(s[j - 1].domain));
    }
  }

  lemma {:induction false} PairSumBounds(s: seq<RedundantSource>, i: nat)
    requires i <= |s|
    ensures 0.0 <= PairSum(s, i) <= PairsBefore(|s|, i) as real
  {
    if i > 0 {
      PairSumBounds(s, i - 1);
      RowSumBounds(s, i - 1, |s|);
    }
  }

  /** The redundancy score is a proportion. */
  lemma MeanSimilarityInUnitRange(s: seq<RedundantSource>)
    ensures 0.0 <= MeanSimilarity(s) <= 1.0
  {
    if |s| >= 2 {
      PairSumBounds(s, |s|);
      PairsBeforeClosedForm(|s|, |s|);
      RatioInUnitRange(PairSum(s, |s|), PairsBefore(|s|, |s|) as real);
    }
  }

  lemma {:induction false} RowSumAllSame(s: seq<RedundantSource>, i: nat, j: nat)
    requires i < j <= |s|
    requires forall k :: 0 <= k < |s| ==> ToLower(s[k].domain) == ToLower(s[0].domain)
    ensures RowSum(s, i, j) == (j - i - 1) as real
    decreases j
  {
    if j > i + 1 {
      RowSumAllSame(s, i, j - 1);
      SimilarityOneIffEqual(ToLower(s[i].domain), ToLower(s[j - 1].domain));
    }
  }

  lemma {:induction false} PairSumAllSame(s: seq<RedundantSource>, i: nat)
    requires i <= |s|
    requires forall k :: 0 <= k < |s| ==> ToLower(s[k].domain) == ToLower(s[0].domain)
    ensures PairSum(s, i) == PairsBefore(|s|, i) as real
  {
    if i > 0 {
      PairSumAllSame(s, i - 1);
      RowSumAllSame(s, i - 1, |s|);
    }
  }

  /** Sources that all share one domain (up to case) are fully redundant. */
  lemma MeanSimilarityOfSameDomains(s: seq<RedundantSource>)
    requires |s| >= 2
    requires forall k :: 0 <= k < |s| ==> ToLower(s[k].domain) == ToLower(s[0].domain)
    ensures MeanSimilarity(s) == 1.0
  {
    PairSumAllSame(s, |s|);
    var p := PairsBefore(|s|, |s|) as real;
    var q := PairSum(s, |s|);
    assert MeanSimilarity(s) == q / p;
    assert q == p && p > 0.0;
    SelfRatio(p);
  }

  lemma SelfRatio(p: real)
    requires p > 0.0
    ensures p / p == 1.0
  {
  }

  /** The inner loop of `calculateRedundancyScore` for source `i`. */
  method RowTotal(sources: seq<RedundantSource>, i: nat) returns (total: real, comparisons: nat)
    requires i < |sources|
    ensures total == RowSum(sources, i, |sources|)
    ensures comparisons == |sources| - i - 1
  {
    total, comparisons := 0.0, 0;
    var j := i + 1;
    while j < |sources|
      invariant i + 1 <= j <= |sources|
      invariant total == RowSum(sources, i, j)
      invariant comparisons == j - i - 1
    {
      var similarity := CalculateStringSimilarity(ToLower(sources[i].domain), ToLower(sources[j].domain));
      total := total + similarity;
      comparisons := comparisons + 1;
      j := j + 1;
    }
  }

  /** `calculateRedundancyScore(sources)`: the mean similarity over the
      pairs i < j, summed and counted by two nested loops. */
  method CalculateRedundancyScore(sources: seq<RedundantSource>) returns (score: real)
    ensures score == MeanSimilarity(sources)
    ensures 0.0 <= score <= 1.0
  {
    if |sources| < 2 {
      return 0.0;
    }
    var totalSimilarity := 0.0;
    var comparisons := 0;
    var i := 0;
    while i < |sources|
      invariant 0 <= i <= |sources|
      invariant totalSimilarity == PairSum(sources, i)
      invariant comparisons == PairsBefore(|sources|, i)
    {
      var rowTotal, rowComparisons := RowTotal(sources, i);
      totalSimilarity := totalSimilarity + rowTotal;
      comparisons := comparisons + rowComparisons;
      i := i + 1;
    }
    assert comparisons > 0;
    score := totalSimilarity / comparisons as real;
    MeanSimilarityInUnitRange(sources);
  }

  /* ---------- similar names ---------- */

  function DomainSet(g: RedundantGroup): set<string> {
    set k | 0 <= k < |g.sources| :: g.sources[k].domain
  }

  /** Every domain placed in some group. */
  function Covered(groups: seq<RedundantGroup>): set<string> {
    if groups == [] then {} else Covered(groups[..|groups| - 1]) + DomainSet(groups[|groups| - 1])
  }

  lemma {:induction false} CoveredContains(groups: seq<RedundantGroup>, p: nat)
    requires p < |groups|
    ensures DomainSet(groups[p]) <= Covered(groups)
  {
    if p < |groups| - 1 {
      CoveredContains(groups[..|groups| - 1], p);
    }
  }

  predicate PairwiseDisjoint(groups: seq<RedundantGroup>) {
    forall p, q :: 0 <= p < q < |groups| ==> DomainSet(groups[p]) !! DomainSet(groups[q])
  }

  /** A similar-name group: led by its first source, every other source has a
      similarity above 0.7 with the leader, all entries come from the
      (domain, count) list with title = domain and engagement 0. */
  predicate SimilarNameGroup(g: RedundantGroup, domains: seq<(string, int)>) {
    g.theme == SimilarNamesTheme && g.score == 0.75 && |g.sources| >= 2 &&
    (forall k :: 1 <= k < |g.sources| ==> StringSimilarity(g.sources[0].domain, g.sources[k].domain) > 0.7) &&
    (forall k :: 0 <= k < |g.sources| ==>
       g.sources[k].title == g.sources[k].domain && g.sources[k].engagement == 0 &&
       (g.sources[k].domain, g.sources[k].count) in domains)
  }

  function MemberSet(s: seq<RedundantSource>): set<string> {
    set k | 0 <= k < |s| :: s[k].domain
  }

  lemma MemberSetAppend(s: seq<RedundantSource>, e: RedundantSource)
    ensures MemberSet(s + [e]) == MemberSet(s) + {e.domain}
  {
    var t := s + [e];
    forall d | d in MemberSet(t) ensures d in MemberSet(s) + {e.domain} {
      var k :| 0 <= k < |t| && t[k].domain == d;
      if k < |s| { assert s[k] == t[k]; }
    }
    forall d | d in MemberSet(s) ensures d in MemberSet(t) {
      var k :| 0 <= k < |s| && s[k].domain == d;
      assert t[k] == s[k];
    }
    assert t[|s|] == e;
  }

  lemma GroupDomains(leader: RedundantSource, members: seq<RedundantSource>, g: RedundantGroup)
    requires g.sources == [leader] + members
    ensures DomainSet(g) == {leader.domain} + MemberSet(members)
  {
    forall d | d in DomainSet(g) ensures d in {leader.domain} + MemberSet(members) {
      var k :| 0 <= k < |g.sources| && g.sources[k].domain == d;
      if k > 0 { assert members[k - 1] == g.sources[k]; }
    }
    forall d | d in MemberSet(members) ensures d in DomainSet(g) {
      var k :| 0 <= k < |members| && members[k].domain == d;
      assert g.sources[k + 1] == members[k];
    }
    assert g.sources[0] == leader;
  }

  lemma LeaderGroupValid(domains: seq<(string, int)>, index1: nat, members: seq<RedundantSource>, g: RedundantGroup)
    requires index1 < |domains| && |members| > 0
    requires forall k :: 0 <= k < |members| ==>
      StringSimilarity(domains[index1].0, members[k].domain) > 0.7 &&
      members[k].title == members[k].domain && members[k].engagement == 0 &&
      (members[k].domain, members[k].count) in domains
    requires g == RedundantGroup(SimilarNamesTheme,
      [RedundantSource(domains[index1].0, domains[index1].0, domains[index1].1, 0)] + members, 0.75)
    ensures SimilarNameGroup(g, domains)
  {
    assert g.sources[0].domain == domains[index1].0;
    forall k | 1 <= k < |g.sources|
      ensures StringSimilarity(g.sources[0].domain, g.sources[k].domain) > 0.7
    {
      assert g.sources[k] == members[k - 1];
    }
    forall k | 0 <= k < |g.sources|
      ensures g.sources[k].title == g.sources[k].domain && g.sources[k].engagement == 0 &&
              (g.sources[k].domain, g.sources[k].count) in domains
    {
      if k > 0 { assert g.sources[k] == members[k - 1]; }
    }
  }

  lemma AddDisjointGroup(groups: seq<RedundantGroup>, g: RedundantGroup)
    requires PairwiseDisjoint(groups)
    requires DomainSet(g) !! Covered(groups)
    ensures PairwiseDisjoint(groups + [g])
    ensures Covered(groups + [g]) == Covered(groups) + DomainSet(g)
  {
    forall p | 0 <= p < |groups| ensures DomainSet(groups[p]) !! DomainSet(g) {
      CoveredContains(groups, p);
    }
    assert (groups + [g])[..|groups|] == groups;
  }

  lemma CoveredSnoc(groups: seq<RedundantGroup>, g: RedundantGroup)
    ensures Covered(groups + [g]) == Covered(groups) + DomainSet(g)
  {
    assert (groups + [g])[..|groups|] == groups;
  }

  /** The members the inner scan for the leader at `index1` has collected
      once it has visited positions 0 .. j-1, `processed` being the domains
      processed before the scan began: a domain joins when it sits at
      another position, is not processed yet (an earlier member counts as
      processed) and is more than 0.7 similar to the leader. */
  function ScanMembers(domains: seq<(string, int)>, index1: nat, processed: set<string>, j: nat): seq<RedundantSource>
    requires index1 < |domains| && j <= |domains|
  {
    if j == 0 then []
    else
      var before := ScanMembers(domains, index1, processed, j - 1);
      var domain2 := domains[j - 1].0;
      if index1 != j - 1 && domain2 !in processed + MemberSet(before) && StringSimilarity(domains[index1].0, domain2) > 0.7
      then before + [RedundantSource(domain2, domain2, domains[j - 1].1, 0)]
      else before
  }

  /** The group led by the domain at `i`. */
  function LeaderGroup(domains: seq<(string, int)>, i: nat, members: seq<RedundantSource>): RedundantGroup
    requires i < |domains|
  {
    RedundantGroup(SimilarNamesTheme, [RedundantSource(domains[i].0, domains[i].0, domains[i].1, 0)] + members, 0.75)
  }

  /** The groups `findSimilarNamedSources` has pushed once it has visited the
      leaders at positions 0 .. i-1. The processed set is always the set of
      domains these groups cover: a domain that joins a group is marked at
      once, a leader only once its group has a second member. */
  function SimilarScan(domains: seq<(string, int)>, i: nat): seq<RedundantGroup>
    requires i <= |domains|
  {
    if i == 0 then []
    else
      var before := SimilarScan(domains, i - 1);
      if domains[i - 1].0 in Covered(before) then before
      else
        var members := ScanMembers(domains, i - 1, Covered(before), |domains|);
        if |members| > 0 then before + [LeaderGroup(domains, i - 1, members)] else before
  }

  /** The groups of `findSimilarNamedSources(domains)`. */
  function SimilarGroups(domains: seq<(string, int)>): seq<RedundantGroup> {
    SimilarScan(domains, |domains|)
  }

  /** What a domain that joins the leader at `index1` satisfies. */
  predicate Joins(domains: seq<(string, int)>, index1: nat, processed: set<string>, e: RedundantSource)
    requires index1 < |domains|
  {
    && e.title == e.domain && e.engagement == 0 && e.domain !in processed
    && StringSimilarity(domains[index1].0, e.domain) > 0.7
    && (e.domain, e.count) in domains
    && exists m :: 0 <= m < |domains| && m != index1 && domains[m] == (e.domain, e.count)
  }

  /** Every member of a scan sits at a position other than the leader's, was
      not processed before and is more than 0.7 similar to the leader. */
  lemma {:induction false} ScanMembersSound(domains: seq<(string, int)>, index1: nat, processed: set<string>, j: nat)
    requires index1 < |domains| && j <= |domains|
    ensures forall k :: 0 <= k < |ScanMembers(domains, index1, processed, j)| ==>
      Joins(domains, index1, processed, ScanMembers(domains, index1, processed, j)[k])
  {
    if j > 0 {
      ScanMembersSound(domains, index1, processed, j - 1);
      var before := ScanMembers(domains, index1, processed, j - 1);
      var members := ScanMembers(domains, index1, processed, j);
      if members != before {
        var e := members[|before|];
        assert domains[j - 1] == (e.domain, e.count);
        assert Joins(domains, index1, processed, e);
        forall k | 0 <= k < |members| ensures Joins(domains, index1, processed, members[k]) {
          if k < |before| {
            assert members[k] == before[k];
          }
        }
      }
    }
  }

  /** An unprocessed domain at another position that is more than 0.7
      similar to the leader gives the leader at least one member. */
  lemma {:induction false} ScanMembersNonEmpty(domains: seq<(string, int)>, index1: nat, processed: set<string>, j: nat, n: nat)
    requires index1 < |domains| && j < n <= |domains| && j != index1
    requires domains[j].0 !in processed && StringSimilarity(domains[index1].0, domains[j].0) > 0.7
    ensures |ScanMembers(domains, index1, processed, n)| > 0
  {
    if n > j + 1 {
      ScanMembersNonEmpty(domains, index1, processed, j, n - 1);
    } else {
      var before := ScanMembers(domains, index1, processed, j);
      if before == [] {
        assert MemberSet(before) == {};
      }
    }
  }

  /** Whether the domain at `i` leads a group when its turn comes: it is not
      processed, and some unprocessed domain at another position is more
      than 0.7 similar to it. */
  predicate Leads(domains: seq<(string, int)>, i: nat, processed: set<string>)
    requires i < |domains|
  {
    domains[i].0 !in processed &&
    exists j :: 0 <= j < |domains| && j != i && domains[j].0 !in processed &&
      StringSimilarity(domains[i].0, domains[j].0) > 0.7
  }

  /** A leader whose scan found a member leads. */
  lemma MembersLead(domains: seq<(string, int)>, i: nat, processed: set<string>)
    requires i < |domains|
    ensures domains[i].0 !in processed && ScanMembers(domains, i, processed, |domains|) != [] ==> Leads(domains, i, processed)
  {
    var members := ScanMembers(domains, i, processed, |domains|);
    if domains[i].0 !in processed && members != [] {
      ScanMembersSound(domains, i, processed, |domains|);
      assert Joins(domains, i, processed, members[0]);
      var m :| 0 <= m < |domains| && m != i && domains[m] == (members[0].domain, members[0].count);
      assert domains[m].0 !in processed && StringSimilarity(domains[i].0, domains[m].0) > 0.7;
    }
  }

  /** The scan of one leader: the groups found so far stay in place, and one
      group led by the domain at `i`, holding the members of its inner scan,
      is pushed exactly when that domain leads. */
  lemma SimilarScanStep(domains: seq<(string, int)>, i: nat)
    requires i < |domains|
    ensures var before := SimilarScan(domains, i);
      var after := SimilarScan(domains, i + 1);
      && (Leads(domains, i, Covered(before)) ==>
            after == before + [LeaderGroup(domains, i, ScanMembers(domains, i, Covered(before), |domains|))])
      && (!Leads(domains, i, Covered(before)) ==> after == before)
  {
    var before := SimilarScan(domains, i);
    var processed := Covered(before);
    MembersLead(domains, i, processed);
    if Leads(domains, i, processed) {
      var j :| 0 <= j < |domains| && j != i && domains[j].0 !in processed && StringSimilarity(domains[i].0, domains[j].0) > 0.7;
      ScanMembersNonEmpty(domains, i, processed, j, |domains|);
    }
  }

  lemma MembersValid(domains: seq<(string, int)>, i: nat, processed: set<string>, members: seq<RedundantSource>)
    requires i < |domains| && |members| > 0
    requires forall k :: 0 <= k < |members| ==> Joins(domains, i, processed, members[k])
    ensures SimilarNameGroup(LeaderGroup(domains, i, members), domains)
    ensures MemberSet(members) !! processed
  {
    LeaderGroupValid(domains, i, members, LeaderGroup(domains, i, members));
    forall d | d in MemberSet(members) ensures d !in processed {
      var k :| 0 <= k < |members| && members[k].domain == d;
      assert Joins(domains, i, processed, members[k]);
    }
  }

  /** Pushing a valid group whose domains are all new keeps the list valid
      and disjoint. */
  lemma SoundSnoc(domains: seq<(string, int)>, before: seq<RedundantGroup>, g: RedundantGroup)
    requires forall p :: 0 <= p < |before| ==> SimilarNameGroup(before[p], domains)
    requires PairwiseDisjoint(before)
    requires SimilarNameGroup(g, domains) && DomainSet(g) !! Covered(before)
    ensures forall p :: 0 <= p < |before + [g]| ==> SimilarNameGroup((before + [g])[p], domains)
    ensures PairwiseDisjoint(before + [g])
  {
    AddDisjointGroup(before, g);
    forall p | 0 <= p < |before + [g]| ensures SimilarNameGroup((before + [g])[p], domains) {
      if p < |before| {
        assert (before + [g])[p] == before[p];
      }
    }
  }

  /** The group a leader pushes is a similar-name group whose domains are
      all unprocessed. */
  lemma PushedGroup(domains: seq<(string, int)>, i: nat, processed: set<string>)
    requires i < |domains| && domains[i].0 !in processed
    requires |ScanMembers(domains, i, processed, |domains|)| > 0
    ensures var g := LeaderGroup(domains, i, ScanMembers(domains, i, processed, |domains|));
      SimilarNameGroup(g, domains) && DomainSet(g) !! processed
      && DomainSet(g) == {domains[i].0} + MemberSet(ScanMembers(domains, i, processed, |domains|))
  {
    var members := ScanMembers(domains, i, processed, |domains|);
    ScanMembersSound(domains, i, processed, |domains|);
    MembersValid(domains, i, processed, members);
    var g := LeaderGroup(domains, i, members);
    GroupDomains(g.sources[0], members, g);
  }

  /** The groups of the scan are similar-name groups with pairwise disjoint
      domains. */
  lemma {:induction false} SimilarScanSound(domains: seq<(string, int)>, i: nat)
    requires i <= |domains|
    ensures forall p :: 0 <= p < |SimilarScan(domains, i)| ==> SimilarNameGroup(SimilarScan(domains, i)[p], domains)
    ensures PairwiseDisjoint(SimilarScan(domains, i))
  {
    if i > 0 {
      SimilarScanSound(domains, i - 1);
      var before := SimilarScan(domains, i - 1);
      var processed := Covered(before);
      if domains[i - 1].0 !in processed {
        var members := ScanMembers(domains, i - 1, processed, |domains|);
        if |members| > 0 {
          PushedGroup(domains, i - 1, processed);
          SoundSnoc(domains, before, LeaderGroup(domains, i - 1, members));
        }
      }
    }
  }

  /** One turn of the outer loop when the leader is unprocessed and its scan
      found members: the group is pushed and its domains become processed. */
  lemma PushStep(domains: seq<(string, int)>, i: nat, groups: seq<RedundantGroup>, members: seq<RedundantSource>)
    requires i < |domains| && groups == SimilarScan(domains, i) && domains[i].0 !in Covered(groups)
    requires members == ScanMembers(domains, i, Covered(groups), |domains|) && |members| > 0
    ensures SimilarScan(domains, i + 1) == groups + [LeaderGroup(domains, i, members)]
    ensures Covered(groups + [LeaderGroup(domains, i, members)]) == Covered(groups) + MemberSet(members) + {domains[i].0}
  {
    var g := LeaderGroup(domains, i, members);
    GroupDomains(g.sources[0], members, g);
    CoveredSnoc(groups, g);
  }

  /** The inner scan of `findSimilarNamedSources` for the domain at
      `index1`: every other domain not yet processed whose similarity with it
      exceeds 0.7 joins, and is marked processed at once. */
  method CollectSimilar(domains: seq<(string, int)>, index1: nat, processed: set<string>)
    returns (members: seq<RedundantSource>, processedAfter: set<string>)
    requires index1 < |domains|
    ensures members == ScanMembers(domains, index1, processed, |domains|)
    ensures processedAfter == processed + MemberSet(members)
  {
    var domain1 := domains[index1].0;
    members := [];
    processedAfter := processed;
    var index2 := 0;
    while index2 < |domains|
      invariant 0 <= index2 <= |domains|
      invariant members == ScanMembers(domains, index1, processed, index2)
      invariant processedAfter == processed + MemberSet(members)
    {
      var (domain2, count2) := domains[index2];
      if index1 != index2 && domain2 !in processedAfter {
        var similarity := CalculateStringSimilarity(domain1, domain2);
        if similarity > 0.7 {
          var entry := RedundantSource(domain2, domain2, count2, 0);
          MemberSetAppend(members, entry);
          members := members + [entry];
          processedAfter := processedAfter + {domain2};
        }
      }
      index2 := index2 + 1;
    }
  }

  /** `findSimilarNamedSources(domains)`: the groups of the greedy scan,
      each a similar-name group, pairwise disjoint. */
  method FindSimilarNamedSources(domains: seq<(string, int)>) returns (groups: seq<RedundantGroup>)
    ensures groups == SimilarGroups(domains)
    ensures forall p :: 0 <= p < |groups| ==> SimilarNameGroup(groups[p], domains)
    ensures PairwiseDisjoint(groups)
  {
    groups := [];
    var processed: set<string> := {};
    var index1 := 0;
    while index1 < |domains|
      invariant 0 <= index1 <= |domains|
      invariant groups == SimilarScan(domains, index1)
      invariant processed == Covered(groups)
    {
      var domain1 := domains[index1].0;
      if domain1 !in processed {
        var members, processedAfter := CollectSimilar(domains, index1, processed);
        if |members| > 0 {
          PushStep(domains, index1, groups, members);
          groups := groups + [LeaderGroup(domains, index1, members)];
          processed := processedAfter + {domain1};
        } else {
          assert SimilarScan(domains, index1 + 1) == groups;
        }
      } else {
        assert SimilarScan(domains, index1 + 1) == groups;
      }
      index1 := index1 + 1;
    }
    SimilarScanSound(domains, |domains|);
  }

  /* ---------- themed groups and the report ---------- */

  predicate HasKeyword(domainLower: string, keywords: seq<string>) {
    exists k :: 0 <= k < |keywords| && Contains(domainLower, keywords[k])
  }

  function EngagementOf(engagement: map<string, nat>, domain: string): nat {
    if domain in engagement then engagement[domain] else 0
  }

  /** The `topDomains` entries of positive count whose lower-cased domain
      contains one of the theme's keywords, in order. */
  function ThemeMatches(keywords: seq<string>, topDomains: seq<(string, int)>, engagement: map<string, nat>): (r: seq<RedundantSource>)
    ensures |r| <= |topDomains|
    ensures forall k :: 0 <= k < |r| ==>
      r[k].count > 0 && HasKeyword(ToLower(r[k].domain), keywords) && (r[k].domain, r[k].count) in topDomains
  {
    if topDomains == [] then []
    else
      var (domain, count) := topDomains[0];
      var rest := ThemeMatches(keywords, topDomains[1..], engagement);
      if HasKeyword(ToLower(domain), keywords) && count > 0 then
        [RedundantSource(domain, domain, count, EngagementOf(engagement, domain))] + rest
      else rest
  }

  /** The groups the theme loop pushes for themes 0 .. t-1: a theme with at
      least two matching sources whose mean similarity exceeds 0.3. */
  function ThemedGroups(table: ThemeTable, topDomains: seq<(string, int)>, engagement: map<string, nat>, t: nat): seq<RedundantGroup>
    requires t <= |table|
  {
    if t == 0 then []
    else
      var before := ThemedGroups(table, topDomains, engagement, t - 1);
      var (theme, keywords) := table[t - 1];
      var matching := ThemeMatches(keywords, topDomains, engagement);
      if |matching| >= 2 && MeanSimilarity(matching) > 0.3 then before + [RedundantGroup(theme, matching, MeanSimilarity(matching))]
      else before
  }

  /** Every themed group names a theme, has at least two matching sources
      and a score above the 0.3 threshold. */
  lemma {:induction false} ThemedGroupsValid(table: ThemeTable, topDomains: seq<(string, int)>, engagement: map<string, nat>, t: nat)
    requires t <= |table|
    ensures forall p :: 0 <= p < |ThemedGroups(table, topDomains, engagement, t)| ==>
      var g := ThemedGroups(table, topDomains, engagement, t)[p];
      |g.sources| >= 2 && 0.3 < g.score <= 1.0 && g.score == MeanSimilarity(g.sources) &&
      exists k :: 0 <= k < |table| && g.theme == table[k].0 && g.sources == ThemeMatches(table[k].1, topDomains, engagement)
  {
    if t > 0 {
      ThemedGroupsValid(table, topDomains, engagement, t - 1);
      var matching := ThemeMatches(table[t - 1].1, topDomains, engagement);
      MeanSimilarityInUnitRange(matching);
    }
  }

  function SumSizes(groups: seq<RedundantGroup>): nat {
    if groups == [] then 0 else |groups[0].sources| + SumSizes(groups[1..])
  }

  lemma {:induction false} SumSizesAppend(a: seq<RedundantGroup>, b: seq<RedundantGroup>)
    ensures SumSizes(a + b) == SumSizes(a) + SumSizes(b)
  {
    if a == [] {
      assert a + b == b;
    } else {
      assert (a + b)[0] == a[0] && (a + b)[1..] == a[1..] + b;
      SumSizesAppend(a[1..], b);
    }
  }

  function Score(g: RedundantGroup): real { g.score }

  lemma {:induction false} SumSizesInsert(x: RedundantGroup, s: seq<RedundantGroup>)
    ensures SumSizes(Insert(x, s, Score)) == SumSizes(s) + |x.sources|
  {
    if s != [] && Score(s[0]) >= Score(x) {
      SumSizesInsert(x, s[1..]);
    }
  }

  /** Sorting by score moves groups around but keeps the number of sources. */
  lemma {:induction false} SumSizesSorted(s: seq<RedundantGroup>)
    ensures SumSizes(SortDesc(s, Score)) == SumSizes(s)
  {
    if s != [] {
      var init, last := s[..|s| - 1], s[|s| - 1];
      var sorted := SortDesc(init, Score);
      assert SortDesc(s, Score) == Insert(last, sorted, Score);
      SumSizesSorted(init);
      SumSizesInsert(last, sorted);
      Seqs.FrontLast(s);
      SumSizesAppend(init, [last]);
    }
  }

  /** `analyzeSourceRedundancy(analysis)`: themed groups in theme order, then
      the similar-name groups, sorted by score from the highest down; the
      total counts the sources of all groups. */
  method AnalyzeSourceRedundancy(topDomains: seq<(string, int)>, engagement: map<string, nat>)
    returns (report: RedundancyReport)
    ensures report.groups == SortDesc(ThemedGroups(ThemeGroups, topDomains, engagement, |ThemeGroups|) + SimilarGroups(topDomains), Score)
    ensures multiset(report.groups) == multiset(ThemedGroups(ThemeGroups, topDomains, engagement, |ThemeGroups|) + SimilarGroups(topDomains))
    ensures SortedDesc(report.groups, Score)
    ensures report.totalRedundantSources == SumSizes(report.groups)
    ensures report.totalRedundantSources == SumSizes(ThemedGroups(ThemeGroups, topDomains, engagement, |ThemeGroups|)) + SumSizes(SimilarGroups(topDomains))
  {
    report := AnalyzeWith(ThemeGroups, topDomains, engagement);
  }

  /** The analysis over a given theme table. */
  method AnalyzeWith(table: ThemeTable, topDomains: seq<(string, int)>, engagement: map<string, nat>)
    returns (report: RedundancyReport)
    ensures report.groups == SortDesc(ThemedGroups(table, topDomains, engagement, |table|) + SimilarGroups(topDomains), Score)
    ensures multiset(report.groups) == multiset(ThemedGroups(table, topDomains, engagement, |table|) + SimilarGroups(topDomains))
    ensures SortedDesc(report.groups, Score)
    ensures report.totalRedundantSources == SumSizes(report.groups)
    ensures report.totalRedundantSources == SumSizes(ThemedGroups(table, topDomains, engagement, |table|)) + SumSizes(SimilarGroups(topDomains))
  {
    var redundantGroups: seq<RedundantGroup> := [];
    var t := 0;
    while t < |table|
      invariant 0 <= t <= |table|
      invariant redundantGroups == ThemedGroups(table, topDomains, engagement, t)
    {
      var (theme, keywords) := table[t];
      var matchingSources := ThemeMatches(keywords, topDomains, engagement);
      if |matchingSources| >= 2 {
        var redundancyScore := CalculateRedundancyScore(matchingSources);
        if redundancyScore > 0.3 {
          redundantGroups := redundantGroups + [RedundantGroup(theme, matchingSources, redundancyScore)];
        }
      }
      t := t + 1;
    }
    var similarNameGroups := FindSimilarNamedSources(topDomains);
    redundantGroups := redundantGroups + similarNameGroups;
    var sorted := SortDesc(redundantGroups, Score);
    SortDescSorted(redundantGroups, Score);
    SumSizesSorted(redundantGroups);
    SumSizesAppend(ThemedGroups(table, topDomains, engagement, |table|), similarNameGroups);
    report := RedundancyReport(sorted, SumSizes(sorted));
  }
}
