/** The favorites migrator's migration module: the uploaded FreshRSS export,
    the Feedbin subscription list, the migration state, and the batch loop
    that stars each favorite in Feedbin. Feedbin's answers (search and star)
    are inputs, one per item position; the DOM and the clock are left out. */
module Migration {
  import opened Wrappers

  /* ---------- the FreshRSS export ---------- */

  /** One exported favorite: its URL, `feed_title` and `origin.title`. */
  datatype Item = Item(url: string, feedTitle: Option<string>, originTitle: Option<string>, published: Option<int>)

  /** A string field used with `||`: absent and empty are both falsy. */
  function OrDefault(s: Option<string>, default: string): (r: string)
    ensures s.Some? && s.value != [] ==> r == s.value
    ensures s.None? || s.value == [] ==> r == default
  {
    if s.Some? && s.value != [] then s.value else default
  }

  /** The source an item is counted under in the results. */
  function Source(item: Item): string {
    OrDefault(item.feedTitle, "Unknown")
  }

  /** The source an item is counted under when the file is loaded. */
  function OriginSource(item: Item): string {
    OrDefault(item.originTitle, "Unknown source")
  }

  /* ---------- handleFileUpload ---------- */

  datatype FileInfo = FileInfo(mimeType: string, size: int)

  /** What reading and parsing the file gave: unreadable (read failure,
      invalid JSON, or a value whose `items` cannot be read), or a parsed
      object whose `items` is an array or not (`None`). */
  datatype Content = Unreadable | Parsed(items: Option<seq<Item>>)

  const MaxUploadSize := 50 * 1024 * 1024
  const WrongTypeMessage := "Please select a JSON file exported from FreshRSS"
  const TooLargeMessage := "File too large (max 50MB)"
  const BadFormatMessage := "Invalid FreshRSS file format. The file must contain an \"items\" array."
  const NoItemsMessage := "FreshRSS file contains no items to migrate"
  const ReadErrorMessage := "Error reading file. Please check the file format."

  /** The outcome of an upload: nothing selected, refused with a message,
      or loaded. */
  datatype Upload = NoFile | Refused(message: string) | Loaded(items: seq<Item>)

  /** The checks of `handleFileUpload` in their order: file present, type,
      size, an `items` array, a non-empty one. */
  function CheckUpload(file: Option<FileInfo>, content: Content): (r: Upload)
    ensures r == NoFile <==> file.None?
    ensures file.Some? && file.value.mimeType != "application/json" ==> r == Refused(WrongTypeMessage)
    ensures file.Some? && file.value.mimeType == "application/json" && file.value.size > MaxUploadSize ==>
      r == Refused(TooLargeMessage)
    ensures r.Loaded? <==> (file.Some? && file.value.mimeType == "application/json" &&
                            file.value.size <= MaxUploadSize && content.Parsed? && content.items.Some? &&
                            content.items.value != [])
    ensures r.Loaded? ==> r.items == content.items.value
  {
    if file.None? then NoFile
    else if file.value.mimeType != "application/json" then Refused(WrongTypeMessage)
    else if file.value.size > MaxUploadSize then Refused(TooLargeMessage)
    else match content
      case Unreadable => Refused(ReadErrorMessage)
      case Parsed(items) =>
        if items.None? then Refused(BadFormatMessage)
        else if items.value == [] then Refused(NoItemsMessage)
        else Loaded(items.value)
  }

  /** A file of exactly 50 MiB passes the size check. */
  lemma SizeLimitInclusive(item: Item)
    ensures CheckUpload(Some(FileInfo("application/json", 52428800)), Parsed(Some([item]))) == Loaded([item])
    ensures CheckUpload(Some(FileInfo("application/json", 52428801)), Parsed(Some([item]))) == Refused(TooLargeMessage)
  {
  }

  /** The type is checked before the size. */
  lemma TypeBeforeSize(mimeType: string, size: int, content: Content)
    requires mimeType != "application/json"
    ensures CheckUpload(Some(FileInfo(mimeType, size)), content) == Refused(WrongTypeMessage)
  {
  }

  /* ---------- Feedbin answers ---------- */

  datatype Entry = Entry(id: int, url: string)

  /** `searchEntriesByURL`: it throws, or gives a list (a null list is the
      empty one). */
  datatype Search = SearchThrew | Entries(entries: seq<Entry>)

  /** `starEntry`: it throws, or answers whether it succeeded. */
  datatype Star = StarThrew | StarAnswered(success: bool)

  /** What Feedbin answers for one item. */
  datatype Answer = Answer(search: Search, star: Star)

  /** `findEntryInFeedbin(api, url)`: the id of the first entry whose URL is
      exactly `url`, and nothing when there is none or the search throws. */
  function FindEntryInFeedbin(search: Search, url: string): Option<int> {
    match search
    case SearchThrew => None
    case Entries(entries) => FirstMatch(entries, url)
  }

  function FirstMatch(entries: seq<Entry>, url: string): Option<int> {
    if entries == [] then None
    else if entries[0].url == url then Some(entries[0].id)
    else FirstMatch(entries[1..], url)
  }

  /** Nothing is found exactly when the search throws or no entry has the
      URL; otherwise the id found is that of the first entry with the URL. */
  lemma FindEntrySpec(search: Search, url: string)
    ensures var r := FindEntryInFeedbin(search, url);
      && (r.None? <==> search.SearchThrew? || forall k :: 0 <= k < |search.entries| ==> search.entries[k].url != url)
      && (r.Some? ==> exists k :: 0 <= k < |search.entries| && search.entries[k].url == url &&
                                  search.entries[k].id == r.value &&
                                  forall m :: 0 <= m < k ==> search.entries[m].url != url)
  {
    if search.Entries? {
      FirstMatchSpec(search.entries, url);
    }
  }

  lemma {:induction false} FirstMatchSpec(entries: seq<Entry>, url: string)
    ensures var r := FirstMatch(entries, url);
      && (r.None? <==> forall k :: 0 <= k < |entries| ==> entries[k].url != url)
      && (r.Some? ==> exists k :: 0 <= k < |entries| && entries[k].url == url &&
                                  entries[k].id == r.value &&
                                  forall m :: 0 <= m < k ==> entries[m].url != url)
    decreases |entries|
  {
    if entries != [] && entries[0].url != url {
      var tail := entries[1..];
      FirstMatchSpec(tail, url);
      assert forall k :: 1 <= k < |entries| ==> entries[k] == tail[k - 1];
      if FirstMatch(tail, url).Some? {
        var k :| 0 <= k < |tail| && tail[k].url == url && tail[k].id == FirstMatch(tail, url).value &&
                 forall m :: 0 <= m < k ==> tail[m].url != url;
        assert entries[k + 1] == tail[k];
      }
    }
  }

  /** An item is starred when an entry is found with a truthy (non-zero)
      id and starring it succeeds; anything else, a throw included, fails. */
  predicate Succeeds(item: Item, answer: Answer) {
    var entryId := FindEntryInFeedbin(answer.search, item.url);
    entryId.Some? && entryId.value != 0 && answer.star == StarAnswered(true)
  }

  /* ---------- the results record ---------- */

  datatype SourceStats = SourceStats(total: nat, starred: nat)

  /** `results.bySource`, keys in insertion order. */
  type BySource = seq<(string, SourceStats)>

  datatype Results = Results(total: nat, starred: nat, processed: nat, failed: nat, bySource: BySource)

  /** `bySource[key]`. */
  function Find(b: BySource, key: string): Option<SourceStats> {
    if b == [] then None else if b[0].0 == key then Some(b[0].1) else Find(b[1..], key)
  }

  /** Bumps `total` and `starred` of `key`, creating the entry at 0 first. */
  function Credit(b: BySource, key: string): BySource {
    if b == [] then [(key, SourceStats(1, 1))]
    else if b[0].0 == key then [(key, SourceStats(b[0].1.total + 1, b[0].1.starred + 1))] + b[1..]
    else [b[0]] + Credit(b[1..], key)
  }

  function SumStarred(b: BySource): nat {
    if b == [] then 0 else b[0].1.starred + SumStarred(b[1..])
  }

  /** Crediting a key changes that key's entry only, by one on each count. */
  lemma {:induction false} CreditFind(b: BySource, key: string, s: string)
    ensures Find(Credit(b, key), s) ==
      if s != key then Find(b, s)
      else match Find(b, key)
        case None => Some(SourceStats(1, 1))
        case Some(st) => Some(SourceStats(st.total + 1, st.starred + 1))
  {
    if b != [] && b[0].0 != key {
      var rest := Credit(b[1..], key);
      assert Credit(b, key) == [b[0]] + rest;
      assert ([b[0]] + rest)[1..] == rest;
      if b[0].0 != s {
        CreditFind(b[1..], key, s);
      }
    }
  }

  lemma {:induction false} CreditSum(b: BySource, key: string)
    ensures SumStarred(Credit(b, key)) == SumStarred(b) + 1
  {
    if b != [] && b[0].0 != key {
      CreditSum(b[1..], key);
    }
  }

  /** The effect of one item on the results. */
  function Record(r: Results, item: Item, answer: Answer): Results {
    if Succeeds(item, answer) then Results(r.total, r.starred + 1, r.processed + 1, r.failed, Credit(r.bySource, Source(item)))
    else Results(r.total, r.starred, r.processed + 1, r.failed + 1, r.bySource)
  }

  /** The results after the first `n` items, `answers(k)` being Feedbin's
      answers for item `k`. */
  function Migrated(items: seq<Item>, answers: nat -> Answer, n: nat): Results
    requires n <= |items|
  {
    if n == 0 then Results(|items|, 0, 0, 0, [])
    else Record(Migrated(items, answers, n - 1), items[n - 1], answers(n - 1))
  }

  /** How many of the first `n` items of source `s` were starred. */
  function SuccessCount(items: seq<Item>, answers: nat -> Answer, n: nat, s: string): nat
    requires n <= |items|
  {
    if n == 0 then 0
    else
      var hit := Succeeds(items[n - 1], answers(n - 1)) && Source(items[n - 1]) == s;
      SuccessCount(items, answers, n - 1, s) + (if hit then 1 else 0)
  }

  /** Every item is processed once and is either starred or failed, whatever
      Feedbin answers. */
  lemma {:induction false} MigratedCounters(items: seq<Item>, answers: nat -> Answer, n: nat)
    requires n <= |items|
    ensures Migrated(items, answers, n).total == |items|
    ensures Migrated(items, answers, n).processed == n
    ensures Migrated(items, answers, n).starred + Migrated(items, answers, n).failed == n
  {
    if n > 0 {
      MigratedCounters(items, answers, n - 1);
    }
  }

  /** A source has an entry exactly when one of its items was starred, and
      then both its counts are the number of its starred items. */
  lemma {:induction false} MigratedBySource(items: seq<Item>, answers: nat -> Answer, n: nat, s: string)
    requires n <= |items|
    ensures Find(Migrated(items, answers, n).bySource, s) == Stats(SuccessCount(items, answers, n, s))
  {
    if n > 0 {
      MigratedBySource(items, answers, n - 1, s);
      var ok := Succeeds(items[n - 1], answers(n - 1));
      BySourceStep(Migrated(items, answers, n - 1).bySource, Source(items[n - 1]), ok, s,
                   SuccessCount(items, answers, n - 1, s));
    }
  }

  /** The entry of a source with `c` starred items. */
  function Stats(c: nat): Option<SourceStats> {
    if c == 0 then None else Some(SourceStats(c, c))
  }

  lemma BySourceStep(b: BySource, source: string, ok: bool, s: string, c: nat)
    requires Find(b, s) == Stats(c)
    ensures Find(if ok then Credit(b, source) else b, s) == Stats(c + if ok && source == s then 1 else 0)
  {
    if ok {
      CreditFind(b, source, s);
    }
  }

  /** The per-source starred counts add up to the starred total. */
  lemma {:induction false} MigratedSum(items: seq<Item>, answers: nat -> Answer, n: nat)
    requires n <= |items|
    ensures SumStarred(Migrated(items, answers, n).bySource) == Migrated(items, answers, n).starred
  {
    if n > 0 {
      MigratedSum(items, answers, n - 1);
      var before := Migrated(items, answers, n - 1);
      if Succeeds(items[n - 1], answers(n - 1)) {
        CreditSum(before.bySource, Source(items[n - 1]));
      }
    }
  }

  /* ---------- the batch loop ---------- */

  const BatchSize := 10

  function Min(a: int, b: int): int {
    if a < b then a else b
  }

  /** `Math.round(done / count * 100)` for the progress bar. */
  function Progress(done: nat, count: nat): (r: int)
    requires 0 < count && done <= count
    ensures 0 <= r <= 100
    ensures done == count ==> r == 100
  {
    var ratio := done as real / count as real;
    assert 0.0 <= ratio <= 1.0 by {
      assert 0.0 <= done as real <= count as real;
    }
    assert done == count ==> ratio == 1.0;
    var x := ratio * 100.0 + 0.5;
    assert 0.5 <= x <= 100.5 && (done == count ==> x == 100.5);
    x.Floor
  }

  /** `performMigrationClientSide`: items in slices of ten, each item once,
      in order; `progress` holds the percentage shown before each slice. */
  method PerformMigration(items: seq<Item>, answers: nat -> Answer) returns (results: Results, progress: seq<int>)
    ensures results == Migrated(items, answers, |items|)
    ensures |progress| == (|items| + BatchSize - 1) / BatchSize
    ensures forall b :: 0 <= b < |progress| ==> progress[b] == Progress(Min((b + 1) * BatchSize, |items|), |items|)
  {
    results := Results(|items|, 0, 0, 0, []);
    progress := [];
    var i := 0;
    while i < |items|
      invariant 0 <= i && i % BatchSize == 0
      invariant i <= |items| || (|items| < i < |items| + BatchSize)
      invariant results == Migrated(items, answers, Min(i, |items|))
      invariant |progress| == i / BatchSize
      invariant forall b :: 0 <= b < |progress| ==> progress[b] == Progress(Min((b + 1) * BatchSize, |items|), |items|)
    {
      var end := Min(i + BatchSize, |items|);
      NextBatch(i);
      progress := progress + [Progress(end, |items|)];
      results := ProcessBatch(items, answers, i, end, results);
      i := i + BatchSize;
    }
    BatchCount(|items|, i);
  }

  /** The inner loop over one slice: items `start` to `end`, in order. */
  method ProcessBatch(items: seq<Item>, answers: nat -> Answer, start: nat, end: nat, before: Results)
    returns (results: Results)
    requires start <= end <= |items| && before == Migrated(items, answers, start)
    ensures results == Migrated(items, answers, end)
  {
    results := before;
    var j := start;
    while j < end
      invariant start <= j <= end
      invariant results == Migrated(items, answers, j)
    {
      MigratedStep(items, answers, j);
      results := Record(results, items[j], answers(j));
      j := j + 1;
    }
  }

  lemma MigratedStep(items: seq<Item>, answers: nat -> Answer, j: nat)
    requires j < |items|
    ensures Migrated(items, answers, j + 1) == Record(Migrated(items, answers, j), items[j], answers(j))
  {
  }

  /** The slice after the one starting at a multiple `i` of the batch size. */
  lemma NextBatch(i: nat)
    requires i % BatchSize == 0
    ensures (i / BatchSize + 1) * BatchSize == i + BatchSize
    ensures (i + BatchSize) / BatchSize == i / BatchSize + 1 && (i + BatchSize) % BatchSize == 0
  {
  }

  /** The first multiple of the batch size at or past `n` counts the slices. */
  lemma BatchCount(n: nat, i: nat)
    requires i % BatchSize == 0 && n <= i < n + BatchSize
    ensures i / BatchSize == (n + BatchSize - 1) / BatchSize
  {
    var q := i / BatchSize;
    assert i == q * BatchSize;
    assert q * BatchSize <= n + BatchSize - 1 < q * BatchSize + BatchSize;
  }

  /** The last slice always shows 100%. */
  lemma LastProgress(count: nat)
    requires 0 < count
    ensures Progress(Min(((count + BatchSize - 1) / BatchSize) * BatchSize, count), count) == 100
  {
  }

  /* ---------- getUnmigratedFavorites ---------- */

  /** The items, in order, whose source has no entry or none starred. */
  function Unmigrated(items: seq<Item>, bySource: BySource): seq<Item> {
    if items == [] then []
    else
      var before := Unmigrated(items[..|items| - 1], bySource);
      var st := Find(bySource, Source(items[|items| - 1]));
      if st.None? || st.value.starred == 0 then before + [items[|items| - 1]] else before
  }

  /** After a migration, an item is listed exactly when no item of its
      source was starred: a failed item whose source had a success is not
      listed. */
  lemma {:induction false} UnmigratedExactly(items: seq<Item>, answers: nat -> Answer, m: nat, x: Item)
    requires m <= |items|
    ensures x in Unmigrated(items[..m], Migrated(items, answers, |items|).bySource) <==>
      x in items[..m] && SuccessCount(items, answers, |items|, Source(x)) == 0
  {
    var b := Migrated(items, answers, |items|).bySource;
    MigratedBySource(items, answers, |items|, Source(x));
    if m > 0 {
      UnmigratedExactly(items, answers, m - 1, x);
      assert items[..m][..m - 1] == items[..m - 1];
      assert items[..m] == items[..m - 1] + [items[m - 1]];
      var y := items[m - 1];
      MigratedBySource(items, answers, |items|, Source(y));
    }
  }

  /* ---------- getSourceCount ---------- */

  function SourceSet(items: seq<Item>): set<string> {
    set k | 0 <= k < |items| :: OriginSource(items[k])
  }

  /** `getSourceCount(data)`: the number of distinct origin titles. */
  method SourceCount(items: seq<Item>) returns (count: nat)
    ensures count == |SourceSet(items)|
  {
    var sources: set<string> := {};
    var i := 0;
    while i < |items|
      invariant 0 <= i <= |items|
      invariant sources == SourceSet(items[..i])
    {
      assert SourceSet(items[..i + 1]) == SourceSet(items[..i]) + {OriginSource(items[i])} by {
        assert forall k :: 0 <= k < i ==> items[..i + 1][k] == items[..i][k];
      }
      sources := sources + {OriginSource(items[i])};
      i := i + 1;
    }
    assert items[..|items|] == items;
    count := |sources|;
  }

  /** There are at least one and at most as many sources as items. */
  lemma {:induction false} SourceCountBounds(items: seq<Item>)
    ensures |SourceSet(items)| <= |items|
    ensures items != [] ==> |SourceSet(items)| >= 1
  {
    if items != [] {
      var init := items[..|items| - 1];
      SourceCountBounds(init);
      assert SourceSet(items) == SourceSet(init) + {OriginSource(items[|items| - 1])} by {
        assert forall k :: 0 <= k < |init| ==> init[k] == items[k];
      }
      assert OriginSource(items[|items| - 1]) in SourceSet(items);
    }
  }

  /* ---------- the module's state ---------- */

  datatype MigrationState = Idle | Running | Completed | Failed

  /** `MigrationModule`. */
  class MigrationModule {
    var freshRssData: Option<seq<Item>>
    var feedbinSubscriptions: Option<seq<string>>
    var migrationState: MigrationState

    constructor()
      ensures freshRssData == None && feedbinSubscriptions == None && migrationState == Idle
    {
      freshRssData := None;
      feedbinSubscriptions := None;
      migrationState := Idle;
    }

    /** `handleFileUpload(event)`; `displayThrows` says whether showing the
        file's details throws (an item whose `published` is not a date). */
    method HandleFileUpload(file: Option<FileInfo>, content: Content, displayThrows: bool) returns (ok: bool, shown: Upload)
      modifies this
      ensures shown == (if CheckUpload(file, content).Loaded? && displayThrows then Refused(ReadErrorMessage)
                        else CheckUpload(file, content))
      ensures ok <==> shown.Loaded?
      ensures freshRssData == (if CheckUpload(file, content).Loaded? then Some(CheckUpload(file, content).items)
                               else old(freshRssData))
      ensures feedbinSubscriptions == old(feedbinSubscriptions) && migrationState == old(migrationState)
    {
      shown := CheckUpload(file, content);
      if shown.Loaded? {
        freshRssData := Some(shown.items);
        if displayThrows {
          shown := Refused(ReadErrorMessage);
        }
      }
      ok := shown.Loaded?;
    }

    /** `analyzeFeedbin()`: the subscription list is stored only when the
        user is signed in and the request answers (`None` when it throws). */
    method AnalyzeFeedbin(authenticated: bool, subscriptions: Option<seq<string>>)
      modifies this
      ensures feedbinSubscriptions == (if authenticated && subscriptions.Some? then subscriptions else old(feedbinSubscriptions))
      ensures freshRssData == old(freshRssData) && migrationState == old(migrationState)
    {
      if authenticated && subscriptions.Some? {
        feedbinSubscriptions := subscriptions;
      }
    }

    /** `startMigration()`: refused without both data sets; otherwise it
        runs and ends completed when signed in, in error when not. */
    method StartMigration(authenticated: bool, answers: nat -> Answer) returns (ok: bool, results: Option<Results>)
      modifies this
      ensures freshRssData == old(freshRssData) && feedbinSubscriptions == old(feedbinSubscriptions)
      ensures freshRssData.None? || feedbinSubscriptions.None? ==> !ok && results.None? && migrationState == old(migrationState)
      ensures freshRssData.Some? && feedbinSubscriptions.Some? ==>
        ok == authenticated && migrationState == (if authenticated then Completed else Failed)
      ensures ok ==> results == Some(Migrated(freshRssData.value, answers, |freshRssData.value|))
      ensures !ok ==> results.None?
    {
      if freshRssData.None? || feedbinSubscriptions.None? {
        return false, None;
      }
      migrationState := Running;
      if !authenticated {
        migrationState := Failed;
        return false, None;
      }
      var r, _ := PerformMigration(freshRssData.value, answers);
      migrationState := Completed;
      ok, results := true, Some(r);
    }

    /** `getUnmigratedFavorites(migrationResults)`. */
    method GetUnmigratedFavorites(migrationResults: Option<Results>) returns (unmigrated: seq<Item>)
      ensures freshRssData.None? || migrationResults.None? ==> unmigrated == []
      ensures freshRssData.Some? && migrationResults.Some? ==>
        unmigrated == Unmigrated(freshRssData.value, migrationResults.value.bySource)
    {
      if freshRssData.None? || migrationResults.None? {
        return [];
      }
      var items := freshRssData.value;
      var bySource := migrationResults.value.bySource;
      unmigrated := [];
      var i := 0;
      while i < |items|
        invariant 0 <= i <= |items|
        invariant unmigrated == Unmigrated(items[..i], bySource)
      {
        assert items[..i + 1][..i] == items[..i];
        var sourceStats := Find(bySource, Source(items[i]));
        if sourceStats.None? || sourceStats.value.starred == 0 {
          unmigrated := unmigrated + [items[i]];
        }
        i := i + 1;
      }
      assert items[..|items|] == items;
    }
  }
}
