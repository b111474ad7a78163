# ai-jaztools, modelled in Dafny

ai-jaztools is a toolbox of static, client-side browser tools, build-time asset
scripts and a small set of shared utilities for optional Node companion servers.
This project models the logic of that toolbox that is more than DOM wiring, and
proves what each piece promises:

- **Subscription organizer** (`analytics.dfy`, `redundancy.dfy`,
  `similarity.dfy`, `sorting.dfy`): the aggregation of an exported article list
  into per-domain, per-author, per-keyword, per-theme and per-year counts, the
  read-time and reading-frequency estimates, the language split, the
  Levenshtein distance and string similarity, and the detection of redundant
  and similarly named sources. `Array.prototype.sort` with a numeric comparator
  is modelled as a stable sort.
- **URLs to OPML** (`feedparser.dfy`, `opml.dfy`): normalising the pasted URL
  list, collecting feed candidates from a page, classifying a fetched candidate
  as RSS or Atom, and writing the OPML 2.0 subscription list with XML escaping.
- **Favorites migrator** (`migration.dfy`, `validation.dfy`, `auth.dfy`,
  `ui.dfy`, `controls.dfy`): the FreshRSS export and its checks, the batch loop
  that stars each favorite in Feedbin and counts the outcomes, the form and
  configuration validators, the login state, the step indicator and the tab
  keyboard navigation.
- **InstaFed** (`instafed.dfy`, `instafed_archive.dfy`): the event registry,
  the path-addressed application state, the error classification, the ZIP upload
  check and processed-file cache, the archive statistics, the username check and
  the conversion steps.
- **Build scripts** (`minifycss.dfy`, `optimizeassets.dfy`, `favicons.dfy`,
  `spacing.dfy`, `scan.dfy`): every global regular-expression replace of the CSS
  minifier and the SVG optimiser as the left-to-right scan it performs, the
  recursive search for SVG files and the size report over a model of the
  working tree, and the favicon name and layout.
- **Shared utilities** (`http.dfy`, `cors.dfy`, `security_headers.dfy`,
  `logger.dfy`, `healthcheck.dfy`, `errorhandling.dfy`, `tabs.dfy`): a model of
  the Node response object, the CORS and security headers, the
  Content-Security-Policy, the logger, the health-check handler, the standard
  error records and the Tabs component's state.
- `strings.dfy`, `sequences.dfy` and `wrappers.dfy` hold the string, sequence
  and `Option`/`Result` vocabulary the others share.

Objects whose methods update their fields in place (the migrator's modules, the
InstaFed file handler and event registry, the Tabs component, the Node
response) are classes with `modifies` clauses. Loops that build results are
methods proved against specification functions. Pure replace chains and
decisions are functions with lemmas.

Where a doc comment and the code disagree, the model follows the code. The
doc comment of `validateUrls`
(tools/feed-minitools/urls-to-opml/modules/feedParser.js:172-177) says it
returns an array of valid URLs. The code (lines 186-195) prefixes an entry
without a scheme with `https://` and keeps it whenever the URL parser accepts
the result. So a bare word such as `notaurl` is kept as `https://notaurl`
(`FeedParser.BareWordKept`).

## Model

| member | source | states |
|---|---|---|
| Similarity.LevenshteinDistance | tools/feed-minitools/subscription-organizer/analytics.js:1015-1041 | the table filled row by row returns the bottom-right cell, which is the unit-cost insert/delete/substitute edit distance of the two strings |
| Similarity.FillRow | tools/feed-minitools/subscription-organizer/analytics.js:1027-1037 | one pass of the inner loop makes every cell of row i equal to the recurrence's value for that cell and leaves the first column of the later rows alone |
| Similarity.LevStep | tools/feed-minitools/subscription-organizer/analytics.js:1028-1035 | a cell copies its diagonal neighbour for equal characters and is one more than the least of its three neighbours otherwise |
| Similarity.LevIsEditDistance | tools/feed-minitools/subscription-organizer/analytics.js:1026-1038 | the shortcut for equal characters loses nothing: every cell equals the textbook Levenshtein distance of the two prefixes |
| Similarity.EditEqualStep | tools/feed-minitools/subscription-organizer/analytics.js:1028-1029 | with equal last characters the textbook distance is the diagonal one, so the copied cell is right |
| Similarity.LevUnequalStep | tools/feed-minitools/subscription-organizer/analytics.js:1030-1035 | with different last characters the table's minimum agrees with the textbook recurrence |
| Similarity.EditLeftBound | tools/feed-minitools/subscription-organizer/analytics.js:1031-1035 | dropping one character of the column string changes the distance by at most one |
| Similarity.EditUpBound | tools/feed-minitools/subscription-organizer/analytics.js:1031-1035 | dropping one character of the row string changes the distance by at most one |
| Similarity.LevSymmetric | tools/feed-minitools/subscription-organizer/analytics.js:1015-1041 | the distance does not depend on which string indexes the rows |
| Similarity.LevBounds | tools/feed-minitools/subscription-organizer/analytics.js:1015-1041 | the distance is at most the longer length and at least the difference of the lengths (so the distance between s and "" is the length of s, either way round) |
| Similarity.LevZeroIffEqual | tools/feed-minitools/subscription-organizer/analytics.js:1015-1041 | the distance is 0 exactly when the two prefixes are equal |
| Similarity.CalculateStringSimilarity | tools/feed-minitools/subscription-organizer/analytics.js:1005-1013 | `calculateStringSimilarity` returns (longer − distance) / longer, or 1 for two empty strings; the result lies in [0, 1] and is 1 exactly for equal strings |
| Similarity.SimilarityInUnitRange | tools/feed-minitools/subscription-organizer/analytics.js:1005-1013 | similarity always lies in [0, 1] |
| Similarity.SimilaritySymmetric | tools/feed-minitools/subscription-organizer/analytics.js:1005-1013 | similarity is symmetric in its two arguments |
| Similarity.SimilarityOneIffEqual | tools/feed-minitools/subscription-organizer/analytics.js:1005-1013 | similarity is exactly 1 when, and only when, the strings are equal (two empty strings included) |
| Redundancy.RowTotal | tools/feed-minitools/subscription-organizer/analytics.js:992-999 | the inner loop adds the similarities of source i with every later source and counts one comparison per later source |
| Redundancy.CalculateRedundancyScore | tools/feed-minitools/subscription-organizer/analytics.js:985-1003 | the score is 0 below two sources and otherwise the mean similarity of the lower-cased domains over all unordered pairs; it lies in [0, 1] |
| Redundancy.PairsBeforeClosedForm | tools/feed-minitools/subscription-organizer/analytics.js:991-1000 | the comparison counter after i outer rounds is i(2n − i − 1)/2, so n(n − 1)/2 in the end |
| Redundancy.MeanSimilarityInUnitRange | tools/feed-minitools/subscription-organizer/analytics.js:985-1003 | the mean pairwise similarity lies in [0, 1] |
| Redundancy.MeanSimilarityOfSameDomains | tools/feed-minitools/subscription-organizer/analytics.js:985-1003 | two or more sources whose domains are equal up to case score exactly 1 |
| Redundancy.CollectSimilar | tools/feed-minitools/subscription-organizer/analytics.js:1057-1070 | the inner pass returns exactly the scan ScanMembers (each domain at another position, not yet processed and more than 0.7 similar to the leader, copied with engagement 0) and marks exactly those domains processed |
| Redundancy.FindSimilarNamedSources | tools/feed-minitools/subscription-organizer/analytics.js:1043-1083 | the groups are exactly those of the greedy scan SimilarGroups; each is "Noms similaires" with score 0.75, has at least two sources, each non-leader more than 0.7 similar to the leader, every source from the input, and no domain is in two groups |
| Redundancy.CoveredSnoc | tools/feed-minitools/subscription-organizer/analytics.js:1068-1078 | pushing a group adds exactly its domains to the covered set |
| Redundancy.ScanMembersSound | tools/feed-minitools/subscription-organizer/analytics.js:1057-1070 | every domain the inner scan collects sits at another position than the leader, was not processed and is more than 0.7 similar to the leader |
| Redundancy.ScanMembersNonEmpty | tools/feed-minitools/subscription-organizer/analytics.js:1057-1070 | an unprocessed domain at another position more than 0.7 similar to the leader gives the scan at least one member |
| Redundancy.MembersLead | tools/feed-minitools/subscription-organizer/analytics.js:1047-1079 | a leader that is not processed and whose scan found a member leads a group |
| Redundancy.SimilarScanStep | tools/feed-minitools/subscription-organizer/analytics.js:1047-1079 | one outer turn pushes the leader's group, holding its scan's members, exactly when the leader is unprocessed and some unprocessed domain at another position is more than 0.7 similar to it, and otherwise keeps the groups |
| Redundancy.MembersValid | tools/feed-minitools/subscription-organizer/analytics.js:1050-1079 | a leader with members that all join it forms a valid similar-name group whose members were unprocessed |
| Redundancy.SoundSnoc | tools/feed-minitools/subscription-organizer/analytics.js:1072-1078 | pushing a valid group of unprocessed domains keeps every group valid and the groups pairwise disjoint |
| Redundancy.PushedGroup | tools/feed-minitools/subscription-organizer/analytics.js:1050-1079 | the group an unprocessed leader pushes is valid, new, and covers exactly the leader and its members |
| Redundancy.SimilarScanSound | tools/feed-minitools/subscription-organizer/analytics.js:1043-1083 | the greedy scan yields valid similar-name groups with pairwise disjoint domains |
| Redundancy.PushStep | tools/feed-minitools/subscription-organizer/analytics.js:1072-1079 | a pushed group extends the scan by one group and adds its leader and members to the processed set |
| Redundancy.LeaderGroupValid | tools/feed-minitools/subscription-organizer/analytics.js:1072-1079 | a leader with at least one similar member forms a valid similar-name group |
| Redundancy.AddDisjointGroup | tools/feed-minitools/subscription-organizer/analytics.js:1068-1078 | adding a group of unprocessed domains keeps the groups pairwise disjoint and grows the covered set by exactly its domains |
| Redundancy.ThemeMatches | tools/feed-minitools/subscription-organizer/analytics.js:946-958 | the sources kept for a theme have a positive count, a lower-cased domain containing one of the theme's keywords, and come from the ranked domains |
| Redundancy.ThemedGroupsValid | tools/feed-minitools/subscription-organizer/analytics.js:942-973 | a theme is reported only with at least two matching domains and a mean similarity strictly above 0.3, and the group carries exactly that theme's matches and score |
| Redundancy.AnalyzeSourceRedundancy | tools/feed-minitools/subscription-organizer/analytics.js:926-983 | the report's groups are the themed groups followed by SimilarGroups of the top domains, sorted by score descending (a permutation of them), and totalRedundantSources is the sum of their sizes |
| Redundancy.AnalyzeWith | tools/feed-minitools/subscription-organizer/analytics.js:942-982 | for any theme table, the groups are that table's themed groups and SimilarGroups of the top domains, sorted by score descending, with the total of their sizes |
| Redundancy.SumSizesSorted | tools/feed-minitools/subscription-organizer/analytics.js:980-981 | sorting the groups keeps the total of their sizes |
| Sorting.SortDesc | tools/feed-minitools/subscription-organizer/analytics.js:212 | `sort((a, b) => key(b) − key(a))` returns a permutation of its input |
| Sorting.SortDescSorted | tools/feed-minitools/subscription-organizer/analytics.js:212 | the sorted list is non-increasing in the key |
| Sorting.InsertSorted | tools/feed-minitools/subscription-organizer/analytics.js:212 | inserting one element into a non-increasing list keeps it non-increasing |
| Analytics.Bump | tools/feed-minitools/subscription-organizer/analytics.js:175 | incrementing a counter entry (starting from 0 when missing) raises the total by one and adds k to the keys |
| Analytics.BumpLookup | tools/feed-minitools/subscription-organizer/analytics.js:175 | a bump adds one to the bumped key's count and changes no other count |
| Analytics.BumpDistinct | tools/feed-minitools/subscription-organizer/analytics.js:175 | a bump never creates a second entry for a key |
| Analytics.CountAll | tools/feed-minitools/subscription-organizer/analytics.js:168-204 | counting a list of keys gives distinct keys whose counts add up to the length of the list |
| Analytics.CountAllLookup | tools/feed-minitools/subscription-organizer/analytics.js:168-204 | each key's count is the number of times it was counted |
| Analytics.CountAllKeys | tools/feed-minitools/subscription-organizer/analytics.js:229-230 | a key is listed exactly when it was counted at least once |
| Analytics.BumpAllCountAll | tools/feed-minitools/subscription-organizer/analytics.js:193-197 | bumping a run of keys into the counts of earlier keys gives the counts of all of them |
| Analytics.SplitOnWhitespace | tools/feed-minitools/subscription-organizer/analytics.js:193 | `split(/\s+/)` yields at least one piece and no piece holds whitespace |
| Analytics.KeywordsIn | tools/feed-minitools/subscription-organizer/analytics.js:194-196 | only words of three or more letters from the accepted alphabet are counted |
| Analytics.KeywordKeysAreKeywords | tools/feed-minitools/subscription-organizer/analytics.js:193-197 | every counted keyword passes the keyword test |
| Analytics.CountKeywords | tools/feed-minitools/subscription-organizer/analytics.js:193-197 | the loop over a title's words bumps exactly the title's keywords, in order |
| Analytics.CreditThemes | tools/feed-minitools/subscription-organizer/analytics.js:199-203 | the loop over the theme table bumps exactly the themes one of whose keywords the title contains |
| Analytics.ThemeNamesDistinct | tools/feed-minitools/subscription-organizer/analytics.js:144-156 | the eleven theme names are distinct |
| Analytics.ThemesInAtMostOnce | tools/feed-minitools/subscription-organizer/analytics.js:199-203 | one article credits a theme at most once |
| Analytics.ThemeKeysBound | tools/feed-minitools/subscription-organizer/analytics.js:199-203 | no theme scores more than the number of articles |
| Analytics.Tally | tools/feed-minitools/subscription-organizer/analytics.js:169-203 | the body of the per-article loop performs exactly the specified step: domain, engagement, author, year, read time, keywords and themes |
| Analytics.CountArticles | tools/feed-minitools/subscription-organizer/analytics.js:168-204 | the loop over all articles yields the fold of that step over the articles |
| Analytics.TalliedDomains | tools/feed-minitools/subscription-organizer/analytics.js:172-180 | domain counts are the counts of the articles' hostnames, and engagement counts those of starred or favourited articles with a hostname |
| Analytics.TalliedAuthors | tools/feed-minitools/subscription-organizer/analytics.js:170-181 | author counts are the counts of the authors, a missing author being 'Auteur inconnu' |
| Analytics.TalliedYears | tools/feed-minitools/subscription-organizer/analytics.js:184-187 | yearly counts are the counts of the publication years of the published articles |
| Analytics.TalliedKeywords | tools/feed-minitools/subscription-organizer/analytics.js:193-197 | keyword counts are the counts of all title keywords |
| Analytics.TalliedThemes | tools/feed-minitools/subscription-organizer/analytics.js:199-203 | theme scores count, per theme, the articles crediting it |
| Analytics.TalliedReadTime | tools/feed-minitools/subscription-organizer/analytics.js:190-191 | the total read time is the sum of the per-article estimates |
| Analytics.CountWithDomain | tools/feed-minitools/subscription-organizer/analytics.js:172-175 | the articles with a hostname are at most all the articles |
| Analytics.EstimateReadTime | tools/feed-minitools/subscription-organizer/analytics.js:246-255 | the estimate lies in [30, 600] and, between the bounds, is the total text length / 5 / 3.33 |
| Analytics.ReadingFrequencyMonotone | tools/feed-minitools/subscription-organizer/analytics.js:274-279 | a higher article rate never gives a lower frequency class, and the thresholds 5, 20 and 50 are strict |
| Analytics.AnalyzeLanguage | tools/feed-minitools/subscription-organizer/analytics.js:294-306 | French and English counts add up to the number of articles, and the two percentages add up to 100 (or are both 0 for no article) |
| Analytics.Confidence | tools/feed-minitools/subscription-organizer/analytics.js:218 | confidence is min(score / 10, 1) |
| Analytics.AverageOf | tools/feed-minitools/subscription-organizer/analytics.js:207 | the average read time times the article count is the total, and 0 for no article |
| Analytics.Ranked | tools/feed-minitools/subscription-organizer/analytics.js:212 | the ranked pairs are a permutation of the counts, non-increasing by count, with the same total |
| Analytics.TotalSortDesc | tools/feed-minitools/subscription-organizer/analytics.js:212 | sorting keeps the sum of the counts |
| Analytics.Top | tools/feed-minitools/subscription-organizer/analytics.js:213-214 | `sort(...).slice(0, n)` keeps the first min(n, size) ranked pairs, each taken from the counts |
| Analytics.TopKeywordsAreKeywords | tools/feed-minitools/subscription-organizer/analytics.js:214 | every top keyword passes the keyword test |
| Analytics.RankedClusters | tools/feed-minitools/subscription-organizer/analytics.js:215-220 | the clusters are the theme scores with their confidence and the keywords of the same theme table the scores were counted with, sorted by score descending |
| Analytics.YearlyStats | tools/feed-minitools/subscription-organizer/analytics.js:223-225 | yearly stats list every counted year once, with its count, in strictly ascending year |
| Analytics.YearsSorted | tools/feed-minitools/subscription-organizer/analytics.js:223-224 | sorting by year puts the distinct years in strictly ascending order |
| Analytics.AnalyzeWith | tools/feed-minitools/subscription-organizer/analytics.js:140-244 | for any theme table with distinct names, every output is the ranking, truncation or key list of its own counter, as for PerformAnalysis |
| Analytics.PerformAnalysis | tools/feed-minitools/subscription-organizer/analytics.js:140-244 | domains and authors are the key lists of their counters, topAuthors is Top of the author counts at 6 and topKeywords Top of the keyword counts at 20, thematicClusters are the ranked clusters of the theme scores, yearlyStats the statistics of the year counts and domainEngagement the engagement counter; author counts sum to the article count, topDomains is ranked non-increasing and sums to the articles with a hostname, a theme scores at most once per article, clusters are sorted with confidence min(score / 10, 1), years ascend, and the average is total / count |
| Analytics.SharesAddUp | tools/feed-minitools/subscription-organizer/analytics.js:300-304 | the French and English percentages of a non-empty list add up to 100, before rounding |
| Analytics.DistinctKeysPermutation | tools/feed-minitools/subscription-organizer/analytics.js:212-225 | reordering entries with distinct keys keeps the keys distinct |
| Analytics.ClustersKeepConfidence | tools/feed-minitools/subscription-organizer/analytics.js:215-220 | sorting the clusters keeps each cluster's confidence tied to its own score |
| Analytics.YearsAscending | tools/feed-minitools/subscription-organizer/analytics.js:223-224 | after the year sort the years strictly increase |
| Analytics.YearStatsOfSorted | tools/feed-minitools/subscription-organizer/analytics.js:223-225 | every yearly entry is a year and its count from the tally, and the years strictly increase |
| Opml.EscapeXml | tools/feed-minitools/urls-to-opml/modules/opmlGenerator.js:51-59 | a missing or empty argument gives ''; otherwise the replace chain is the per-character entity map, and the output holds no `<`, `>`, `"` or `'` |
| Opml.EscapeChar | tools/feed-minitools/urls-to-opml/modules/opmlGenerator.js:53-58 | the text written for one character holds none of the four specials and no `&` after its first position |
| Opml.EscapeWithEntities | tools/feed-minitools/urls-to-opml/modules/opmlGenerator.js:53-58 | the five replacements applied in order (`&` first) escape each character exactly once |
| Opml.EntitiesNoReintroduction | tools/feed-minitools/urls-to-opml/modules/opmlGenerator.js:53-58 | no replacement writes a character that a later replacement rewrites |
| Strings.ReplaceAllIsEntityMap | tools/feed-minitools/urls-to-opml/modules/opmlGenerator.js:53-58 | a chain of global one-character replacements with that property is the per-character map |
| Opml.EscapeEachHasNoSpecials | tools/feed-minitools/urls-to-opml/modules/opmlGenerator.js:53-58 | escaped text holds no `<`, `>`, `"` or `'` |
| Opml.AmpersandsBeginEntities | tools/feed-minitools/urls-to-opml/modules/opmlGenerator.js:53-58 | every `&` of escaped text begins one of the five entities of section 4.6 of XML 1.0 |
| Opml.UnescapeEscape | tools/feed-minitools/urls-to-opml/modules/opmlGenerator.js:53-58 | decoding the five entities recovers the escaped text |
| Opml.UnescapeXml | tools/feed-minitools/urls-to-opml/modules/opmlGenerator.js:51-59 | decoding the output of `escapeXML` gives back its argument |
| Opml.SiteOutlines | tools/feed-minitools/urls-to-opml/modules/opmlGenerator.js:23-30 | the inner loop appends one outline line per feed of the site, in feed order |
| Opml.AllOutlines | tools/feed-minitools/urls-to-opml/modules/opmlGenerator.js:22-31 | the outer loop appends the lines of every (site, feed) pair, in site order then feed order; a site without feeds adds nothing |
| Opml.PairsCount | tools/feed-minitools/urls-to-opml/modules/opmlGenerator.js:22-31 | there is exactly one outline per feed |
| Opml.LinesAppend | tools/feed-minitools/urls-to-opml/modules/opmlGenerator.js:22-31 | the outlines of two runs of pairs are the concatenation of their outlines |
| Opml.GenerateOpml | tools/feed-minitools/urls-to-opml/modules/opmlGenerator.js:17-42 | the document is the fixed OPML 2.0 envelope with the given timestamp as dateCreated and the outlines inside the body |
| Opml.OutlineRoundTrip | tools/feed-minitools/urls-to-opml/modules/opmlGenerator.js:24-29 | each outline line reads back as its text (the feed title when present, else the site URL), xmlUrl (the feed URL) and htmlUrl (the site URL) |
| FeedParser.Normalize | tools/feed-minitools/urls-to-opml/modules/feedParser.js:186-189 | a line already starting with http:// or https:// is kept as is; any other gets https:// in front, so every result has a web scheme |
| FeedParser.LineEntry | tools/feed-minitools/urls-to-opml/modules/feedParser.js:183-199 | a line is kept, trimmed and normalised, exactly when it is not blank and the URL parser gives it an http: or https: protocol |
| FeedParser.ValidateUrls | tools/feed-minitools/urls-to-opml/modules/feedParser.js:178-203 | the loop over the lines keeps, in input order, the entry of every accepted line |
| FeedParser.EntriesHaveScheme | tools/feed-minitools/urls-to-opml/modules/feedParser.js:186-194 | every kept URL starts with http:// or https:// |
| FeedParser.EntriesBound | tools/feed-minitools/urls-to-opml/modules/feedParser.js:182-200 | no more URLs are kept than there are non-blank lines |
| FeedParser.EntriesMembership | tools/feed-minitools/urls-to-opml/modules/feedParser.js:182-200 | a URL is kept exactly when some non-blank line normalises to it and the parser accepts it |
| FeedParser.BareWordKept | tools/feed-minitools/urls-to-opml/modules/feedParser.js:186-195 | a bare word such as 'notaurl' is kept as 'https://notaurl' whenever the URL parser accepts it |
| FeedParser.FindFeedsInHtml | tools/feed-minitools/urls-to-opml/modules/feedParser.js:75-117 | the candidates are the resolved `<link>` hrefs, then the eight common paths resolved against the base URL, without duplicates and in first-occurrence order |
| Seqs.Dedup | tools/feed-minitools/urls-to-opml/modules/feedParser.js:116 | `[...new Set(s)]` holds exactly the values of s and is no longer |
| Seqs.DedupOrder | tools/feed-minitools/urls-to-opml/modules/feedParser.js:116 | `[...new Set(s)]` holds no duplicate and lists values in order of first occurrence |
| Seqs.DedupDistinct | tools/feed-minitools/urls-to-opml/modules/feedParser.js:116 | a list without duplicates is its own dedup |
| FeedParser.CheckFeed | tools/feed-minitools/urls-to-opml/modules/feedParser.js:15-66 | null exactly on an exception, a non-OK answer, a parse error or a document with neither `<rss>` nor `<feed>`; RSS is tested before Atom; the URL is kept and the title is the trimmed channel or feed title, or null |
| FeedParser.ValidFeedsMembership | tools/feed-minitools/urls-to-opml/modules/feedParser.js:153-157 | the feeds kept are exactly the non-null check results, in candidate order |
| FeedParser.ValidFeedsDistinct | tools/feed-minitools/urls-to-opml/modules/feedParser.js:150-157 | distinct candidates give feeds with distinct URLs, each one a candidate |
| FeedParser.ProcessSite | tools/feed-minitools/urls-to-opml/modules/feedParser.js:125-170 | an exception gives the raw input as site_url with no feeds; otherwise site_url is the trimmed, normalised URL, with no feeds on a non-OK answer and the checked candidates' feeds on an OK one |
| FeedParser.ProcessSiteDistinct | tools/feed-minitools/urls-to-opml/modules/feedParser.js:125-170 | a site never lists the same feed URL twice |
| Migration.CheckUpload | tools/feed-minitools/favorites-migrator/modules/migration.js:14-46 | no file gives nothing; then a type other than application/json, a size above 50 × 1024 × 1024, a missing or non-array `items` and an empty `items` are refused in that order with their messages; only a file passing every check is loaded |
| Migration.SizeLimitInclusive | tools/feed-minitools/favorites-migrator/modules/migration.js:25-28 | a file of exactly 52,428,800 bytes passes and one byte more is refused as too large |
| Migration.TypeBeforeSize | tools/feed-minitools/favorites-migrator/modules/migration.js:19-28 | a wrong type is reported before the size, whatever the size |
| Migration.MigrationModule.constructor | tools/feed-minitools/favorites-migrator/modules/migration.js:3-7 | a new module holds no data, no subscriptions and the state 'idle' |
| Migration.MigrationModule.HandleFileUpload | tools/feed-minitools/favorites-migrator/modules/migration.js:14-64 | the data is stored only once every check passes; the call succeeds exactly when the file loads and showing its details does not throw; nothing else changes |
| Migration.MigrationModule.AnalyzeFeedbin | tools/feed-minitools/favorites-migrator/modules/migration.js:70-102 | the subscriptions are stored only when signed in and the request answers; nothing else changes |
| Migration.MigrationModule.StartMigration | tools/feed-minitools/favorites-migrator/modules/migration.js:108-161 | without data or subscriptions it refuses and changes nothing; otherwise the state ends 'completed' with the migration's results when signed in and 'error' when not |
| Migration.FindEntrySpec | tools/feed-minitools/favorites-migrator/modules/migration.js:240-253 | the id of the first entry whose url equals the argument exactly, and null when none matches or the search throws |
| Migration.FirstMatchSpec | tools/feed-minitools/favorites-migrator/modules/migration.js:246-247 | `entries.find(e => e.url === url)` returns the first match, or nothing when there is none |
| Migration.PerformMigration | tools/feed-minitools/favorites-migrator/modules/migration.js:168-232 | the batch loop visits every item once, in order, in slices of ten, and ends with the results of migrating all items; it shows one progress value per slice |
| Migration.ProcessBatch | tools/feed-minitools/favorites-migrator/modules/migration.js:194-222 | the inner loop over one slice extends the results item by item |
| Migration.MigratedStep | tools/feed-minitools/favorites-migrator/modules/migration.js:195-221 | one item adds one processed item, and one starred item (credited to its source) or one failed item |
| Migration.MigratedCounters | tools/feed-minitools/favorites-migrator/modules/migration.js:168-232 | total is the number of items, processed is the number visited, and starred + failed = processed, whatever the API answers or throws |
| Migration.MigratedBySource | tools/feed-minitools/favorites-migrator/modules/migration.js:199-209 | a source has an entry exactly when one of its items was starred, and then total = starred = the number of its starred items; the key is feed_title or 'Unknown' |
| Migration.CreditFind | tools/feed-minitools/favorites-migrator/modules/migration.js:204-209 | crediting a source creates it at 1/1 or adds one to both counters, and leaves every other source alone |
| Migration.CreditSum | tools/feed-minitools/favorites-migrator/modules/migration.js:204-209 | crediting a source adds one to the sum of starred counts |
| Migration.MigratedSum | tools/feed-minitools/favorites-migrator/modules/migration.js:199-209 | the per-source starred counts add up to results.starred |
| Migration.Progress | tools/feed-minitools/favorites-migrator/modules/migration.js:189 | the rounded percentage lies in [0, 100] and is 100 when every item is done |
| Migration.LastProgress | tools/feed-minitools/favorites-migrator/modules/migration.js:185-189 | the last slice shows exactly 100 |
| Migration.BatchCount | tools/feed-minitools/favorites-migrator/modules/migration.js:185 | the loop runs ceil(n / 10) times |
| Migration.MigrationModule.GetUnmigratedFavorites | tools/feed-minitools/favorites-migrator/modules/migration.js:260-280 | [] when the data or the results are missing; otherwise the items, in order, whose source has no entry or zero starred |
| Migration.UnmigratedExactly | tools/feed-minitools/favorites-migrator/modules/migration.js:260-280 | an item is listed exactly when no item of its source was starred, so a failed item of a source with any success is not listed |
| Migration.SourceCount | tools/feed-minitools/favorites-migrator/modules/migration.js:661-668 | the loop counts the distinct origin titles ('Unknown source' when missing) |
| Migration.SourceCountBounds | tools/feed-minitools/favorites-migrator/modules/migration.js:661-668 | there are at most as many sources as items, and at least one for a non-empty list |
| Validation.EmailPatternShape | tools/feed-minitools/favorites-migrator/modules/validation.js:7 | the address pattern holds exactly when there is one @ not at the start, no whitespace, and after the @ a dot with text on both sides and no further @ |
| Validation.ValidateEmail | tools/feed-minitools/favorites-migrator/modules/validation.js:28-46 | an empty trimmed address is reported as required; the field passes exactly when the trimmed address is non-empty and matches the pattern |
| Validation.ValidatePassword | tools/feed-minitools/favorites-migrator/modules/validation.js:53-71 | the password passes exactly when it is non-empty, and any failure carries the password message |
| Validation.ValidateFile | tools/feed-minitools/favorites-migrator/modules/validation.js:78-101 | a file is accepted exactly when its type is application/json and its size is at most 50 MiB; the wrong type is reported before the size |
| Validation.ValidateFreshRssData | tools/feed-minitools/favorites-migrator/modules/validation.js:108-148 | a non-object, a missing items array and an empty one each get their own message; otherwise the data is valid exactly when the first five items all have a title and a date |
| Validation.InputCheckCases | tools/feed-minitools/favorites-migrator/modules/validation.js:161-187 | file inputs are skipped, email and password inputs use their own rules, and any other input fails exactly when it is required and blank after trimming |
| Validation.ValidateForm | tools/feed-minitools/favorites-migrator/modules/validation.js:155-191 | every input gets its own verdict in order, and the form is valid exactly when none of them failed |
| Validation.MarksStep | tools/feed-minitools/favorites-migrator/modules/validation.js:161-188 | appending one input's verdict keeps the verdicts aligned with the inputs and the form valid exactly when it was and the new verdict passes |
| Validation.FlaggedThree | tools/feed-minitools/favorites-migrator/modules/validation.js:227-246 | the error list holds, in the order retry, batch, delay, exactly the messages whose checks failed |
| Validation.ValidateMigrationConfigAsWritten | tools/feed-minitools/favorites-migrator/modules/validation.js:226-248 | the checks as written: a message for each setting that is not a number or compares below or above its range, success exactly when no message |
| Validation.NaNConfigAccepted | tools/feed-minitools/favorites-migrator/modules/validation.js:230-241 | a configuration whose three settings are all NaN draws no message, so it is accepted |
| Validation.ValidateMigrationConfig | tools/feed-minitools/favorites-migrator/modules/validation.js:226-248 | corrected checks: success exactly when retry attempts lie in 1 to 10, batch size in 10 to 1000 and delay in 0 to 10000, each as a real number |
| Validation.AsWrittenDiffersOnlyOnNaN | tools/feed-minitools/favorites-migrator/modules/validation.js:230-241 | the written range test and the intended one agree on every value except NaN |
| Validation.SanitizeNoReintroduction | tools/feed-minitools/favorites-migrator/modules/validation.js:351-354 | no replacement in the chain produces a character that a later replacement in the chain rewrites |
| Validation.SanitizeChar | tools/feed-minitools/favorites-migrator/modules/validation.js:351-354 | the text one character becomes holds no angle bracket and no quote, and no ampersand other than at its start |
| Validation.EntityFromIsSanitizeChar | tools/feed-minitools/favorites-migrator/modules/validation.js:351-354 | running one character through the chain of replacements gives its per-character rewriting |
| Validation.EscapeWithSanitize | tools/feed-minitools/favorites-migrator/modules/validation.js:349-354 | the four global replacements applied one after another equal a single left-to-right per-character rewriting |
| Validation.SanitizeInput | tools/feed-minitools/favorites-migrator/modules/validation.js:344-355 | a value that is not a string comes back unchanged; a string is trimmed, then rewritten character by character |
| Validation.SanitizeEachSafe | tools/feed-minitools/favorites-migrator/modules/validation.js:349-354 | sanitised text holds no angle bracket and no quote, and every ampersand in it starts one of the three entities it writes |
| Validation.SanitizeEachAppend | tools/feed-minitools/favorites-migrator/modules/validation.js:351-354 | sanitising distributes over concatenation |
| Validation.TrimBeforeRemoval | tools/feed-minitools/favorites-migrator/modules/validation.js:349-351 | trimming happens before the brackets are removed, so a space left in front of a removed bracket survives |
| Validation.ValidateNumericInput | tools/feed-minitools/favorites-migrator/modules/validation.js:363-387 | a required field with no number or an empty value is reported first, then a value below the minimum, then one above the maximum; it passes exactly when none of these holds |
| Auth.CheckEmail | tools/feed-minitools/favorites-migrator/modules/auth.js:268-284 | the trimmed address passes exactly when it matches the address pattern; an empty one is reported as required, any other failure as a bad format |
| Auth.CheckPassword | tools/feed-minitools/favorites-migrator/modules/auth.js:291-306 | the password passes exactly when it is non-empty, and every failure says the password is required |
| Auth.CheckEmailAgrees | tools/feed-minitools/favorites-migrator/modules/auth.js:268-306 | the login page's field checks accept exactly what the validation module's email and password checks accept |
| Auth.UserMessage | tools/feed-minitools/favorites-migrator/modules/auth.js:364-376 | each of the nine known messages is replaced by its French text and every other message is shown as it is |
| Auth.TranslationsAreNotKeys | tools/feed-minitools/favorites-migrator/modules/auth.js:364-374 | no French text is itself one of the known messages |
| Auth.UserMessageIdempotent | tools/feed-minitools/favorites-migrator/modules/auth.js:364-376 | a message is changed exactly when it is a known one, and translating twice gives the same text as translating once |
| Auth.LoginOutcomeCases | tools/feed-minitools/favorites-migrator/modules/auth.js:47-115 | the email is checked before the password; the login succeeds exactly when both pass, the client is loaded and the authentication test answers true |
| Auth.ApiMissingIsConnectionFailure | tools/feed-minitools/favorites-migrator/modules/auth.js:74-76 | a missing Feedbin client ends in the generic connection error banner, not the CORS one |
| Auth.AuthModule.constructor | tools/feed-minitools/favorites-migrator/modules/auth.js:23-26 | a new module holds no credentials and no client and is not authenticated |
| Auth.AuthModule.HandleLogin | tools/feed-minitools/favorites-migrator/modules/auth.js:47-115 | the notice is the login outcome; only a successful login stores the trimmed email, the password and the client and sets the module authenticated; a field error leaves the button alone, any later ending leaves it idle and enabled |
| Auth.AuthModule.GetFeedbinApi | tools/feed-minitools/favorites-migrator/modules/auth.js:121-126 | the stored client is returned exactly when the module is authenticated and holds one; otherwise the error is Not authenticated |
| Auth.AuthModule.Logout | tools/feed-minitools/favorites-migrator/modules/auth.js:131-134 | credentials and client are cleared, the module is not authenticated, and asking for the client then fails |
| Auth.AuthModule.UpdateStepStatus | tools/feed-minitools/favorites-migrator/modules/auth.js:211-233 | a missing step is ignored; otherwise the four status classes are replaced by the requested one when it is one of them, and the step's other classes are kept |
| Auth.WithStatus | tools/feed-minitools/favorites-migrator/modules/auth.js:216-232 | classes outside the four statuses are kept, and among the four only the requested one remains |
| Auth.WithStatusExclusive | tools/feed-minitools/favorites-migrator/modules/auth.js:216-232 | a step carries at most one status class, and the requested one when it is valid |
| Controls.Button.SetLoading | tools/feed-minitools/favorites-migrator/modules/ui.js:584-592 | the loading class and the disabled flag both follow the requested state |
| Ui.TabTarget | tools/feed-minitools/favorites-migrator/modules/ui.js:69-94 | a navigation key gives a target inside the tab list, and any other key gives none |
| Ui.Forward | tools/feed-minitools/favorites-migrator/modules/ui.js:74-78 | ArrowRight and ArrowDown go to the next tab and wrap from the last to the first |
| Ui.Backward | tools/feed-minitools/favorites-migrator/modules/ui.js:79-83 | ArrowLeft and ArrowUp go to the previous tab and wrap from the first to the last |
| Ui.ArrowsAreInverse | tools/feed-minitools/favorites-migrator/modules/ui.js:73-91 | moving forward and then back, or back and then forward, returns to the same tab; Home goes to the first and End to the last |
| Ui.Lookup | tools/feed-minitools/favorites-migrator/modules/ui.js:189-198 | an element lookup by name finds the first element of that name, and none when no element has it |
| Ui.ChosenIsUnique | tools/feed-minitools/favorites-migrator/modules/ui.js:189-202 | at most one element is chosen, and one is chosen exactly when the name exists |
| Ui.MakeAuthenticatedRequest | tools/feed-minitools/favorites-migrator/modules/ui.js:613-617 | the request always fails with a non-empty message |
| Ui.LoadTabDataAlwaysFails | tools/feed-minitools/favorites-migrator/modules/ui.js:224-292 | preferences, activity and admin always end in an error that carries the request's failure message; other tabs load nothing |
| Ui.UiModule.SwitchTab | tools/feed-minitools/favorites-migrator/modules/ui.js:173-207 | every panel and button is active exactly when it is the one found for the name, the current tab becomes the name even when nothing is found, and the tab's data is loaded |
| Ui.UiModule.HandleTabKeydown | tools/feed-minitools/favorites-migrator/modules/ui.js:69-100 | any other key changes nothing; a navigation key switches to the tab at the target index: every panel and button is active exactly when it is the one found for that tab, the names are kept and the tab's data is loaded |
| Ui.SwitchSelectsOne | tools/feed-minitools/favorites-migrator/modules/ui.js:182-202 | after a switch to an existing name exactly one button is active, and it carries that name |
| ErrorHandling.CreateError | shared/utils/error-handler.js:36-46 | the record keeps the message, takes the type given or unknown, is stamped with the current time, and copies only the message and stack of an original error |
| ErrorHandling.Normalize | shared/utils/error-handler.js:65-67 | a record is used as it is; a plain message becomes a record of unknown type with no original error |
| ErrorHandling.NormalizeIdempotent | shared/utils/error-handler.js:65-67 | normalising a normalised record changes nothing, and a plain message normalises to the record created for it |
| ErrorHandling.DisplayText | shared/utils/error-handler.js:72 | the shown text is the message, or a fixed French fallback when the message is empty, and never empty |
| ErrorHandling.LogError | shared/utils/error-handler.js:95-106 | the console entry carries the normalised record |
| ErrorHandling.DisplayError | shared/utils/error-handler.js:58-85 | with no container only the complaint is logged; otherwise the container holds exactly the one message, is shown, and the error is logged |
| InstaFed.EventManager.constructor | tools/instafed/app.js:24-25 | the registry starts with no listeners |
| InstaFed.EventManager.On | tools/instafed/app.js:27-32 | the callback is appended to the event's list, which is created when missing; other events are untouched |
| InstaFed.EventManager.Emit | tools/instafed/app.js:34-45 | every registered callback is called once, in registration order, and a throwing callback does not stop the later ones |
| InstaFed.EventManager.RemoveListener | tools/instafed/app.js:47-55 | the first registration of the callback is removed from the event's list; an unknown event or callback changes nothing |
| InstaFed.RemoveFirst | tools/instafed/app.js:50-53 | removing a callback that is absent changes nothing, and one that is present shortens the list by one |
| InstaFed.RemoveFirstCount | tools/instafed/app.js:50-53 | removal takes away exactly one occurrence, the first, and keeps the rest in order |
| InstaFed.OnThenRemove | tools/instafed/app.js:27-55 | registering a new callback and removing it again restores the event's list |
| InstaFed.IndexOfDecimal | tools/instafed/app.js:290-303 | every array index is named by its decimal text, so a path such as processingErrors.0 reaches an element |
| InstaFed.Child | tools/instafed/app.js:272-303 | an object has exactly its own fields as keys, an array has its in-range indices and length, and no other value has any key |
| InstaFed.Assign | tools/instafed/app.js:283 | an object gains or replaces the field, an array replaces an element or appends at its length, and the value then reads back at the key; every other key on an array is outside the model |
| InstaFed.AssignFrame | tools/instafed/app.js:283 | an assignment changes no other key, apart from an array's length |
| InstaFed.SetPath | tools/instafed/app.js:272-284 | the walk throws exactly when a value it meets is not an object or array, is outside the model exactly when it writes an array key that is not an index up to the length, and otherwise keeps the root's kind, an object root gaining the first key |
| InstaFed.LookupNone | tools/instafed/app.js:290-303 | get is undefined exactly when its walk reaches a value that lacks the next key, or is not an object or array |
| InstaFed.LookupAfterSet | tools/instafed/app.js:272-303 | after a successful update, reading the same path gives the value written |
| InstaFed.SetPathFrame | tools/instafed/app.js:272-303 | an update leaves every path that is neither a prefix nor an extension of the updated one reading as before, apart from the length of an array appended to |
| InstaFed.SetPathCreates | tools/instafed/app.js:276-281 | after an update every proper prefix of the path holds an object or array, missing ones having been created |
| InstaFed.RecordValue | shared/utils/error-handler.js:37-45 | the record createError builds has exactly the fields message, type, timestamp and originalError |
| InstaFed.ProcessingEntry | tools/instafed/app.js:306-311 | the entry has exactly the fields message, timestamp and type; it is typed processing, stamped with the time, and its message is the record's non-empty message, the plain string itself, or the whole record when its message is empty |
| InstaFed.ErrorsOf | tools/instafed/app.js:306-315 | push can work exactly when get of processingErrors gives an array, which is then the state's own field |
| InstaFed.WithErrors | tools/instafed/app.js:306-321 | setting processingErrors makes it that array and keeps every other field |
| InstaFed.ErrorsReadBack | tools/instafed/app.js:290-303 | get of processingErrors.length gives the list's size, and get of processingErrors.k gives the k-th entry, undefined past the end |
| InstaFed.ErrorPathSplit | tools/instafed/app.js:291 | the path processingErrors.k splits into the keys processingErrors and k |
| InstaFed.LengthPathSplit | tools/instafed/app.js:291 | the path processingErrors.length splits into the keys processingErrors and length |
| InstaFed.PushedReadBack | tools/instafed/app.js:290-315 | after a push, get reads the new entry at its index and a length grown by one |
| InstaFed.AppStateManager.constructor | tools/instafed/app.js:249-269 | the state starts as the source's initial literal, with an empty processingErrors array, and no path has listeners |
| InstaFed.AppStateManager.Subscribe | tools/instafed/app.js:327-332 | the callback is appended to the path's list, which is created when missing; the state is unchanged |
| InstaFed.AppStateManager.NotifyListeners | tools/instafed/app.js:335-345 | every listener of the path is called once with the value, in subscription order, and a throwing one stops none of the others |
| InstaFed.AppStateManager.Reset | tools/instafed/app.js:348-369 | the state becomes the initial literal again, with an empty processingErrors array; the listeners are kept |
| InstaFed.AppStateManager.Update | tools/instafed/app.js:272-287 | the outcome is the walk's: when it writes, the state is the rebuilt tree and the path's listeners get the value; a throwing walk changes nothing and notifies no one; the state stays an object |
| InstaFed.AppStateManager.Get | tools/instafed/app.js:290-303 | get is undefined exactly when its walk stops at some key |
| InstaFed.UpdateThenGet | tools/instafed/app.js:272-303 | a successful update followed by a read of the same path gives the value written |
| InstaFed.AppStateManager.AddError | tools/instafed/app.js:306-315 | when processingErrors is an array, exactly one entry is pushed onto it, every other field is kept and its listeners get the new array; otherwise push throws and nothing changes |
| InstaFed.AddErrorThenGet | tools/instafed/app.js:290-315 | after addError, get of processingErrors.n gives the new entry and get of processingErrors.length gives n + 1 |
| InstaFed.AppStateManager.ClearErrors | tools/instafed/app.js:318-321 | processingErrors becomes an empty array, every other field is kept, and its listeners get the empty array |
| InstaFed.Classify | tools/instafed/app.js:117-122 | network wins when the name or message says so, validation only otherwise, and unknown is the rest |
| InstaFed.InvalideSubsumed | tools/instafed/app.js:120 | the French word test adds nothing, since a message containing invalide already contains invalid |
| InstaFed.HandledNotices | tools/instafed/app.js:190-201 | an error classified by the handler never gets the API notice, and gets the connection notice exactly when it is a network error |
| InstaFed.HandledRecord | tools/instafed/app.js:125-129 | the record carries the classification, a non-empty message and the original error exactly when an Error instance was thrown |
| InstaFed.HandleError | tools/instafed/app.js:115-149 | the record is built and classified, the user notice follows its type, and an entry carrying its message is pushed onto processingErrors when that is an array; otherwise the push throws and the state is unchanged |
| InstaFedArchive.AllUsernameChars | tools/instafed/app.js:102 | true exactly when every character is a letter, a digit, a dot or an underscore |
| InstaFedArchive.IsValidUsername | tools/instafed/app.js:101-103 | a username is valid exactly when it is present, at least three characters long and made only of letters, digits, dots and underscores |
| InstaFedArchive.LastUnderscore | tools/instafed/app.js:396 | two keys that end in an underscore and an underscore-free part split the same way |
| InstaFedArchive.DecimalHasNoUnderscore | tools/instafed/app.js:396 | a decimal number holds no underscore |
| InstaFedArchive.FileKeyInjective | tools/instafed/app.js:396 | two files share a cache key only when their name, size and modification time agree |
| InstaFedArchive.FileHandler.constructor | tools/instafed/app.js:385 | the cache starts empty |
| InstaFedArchive.FileHandler.ProcessFile | tools/instafed/app.js:388-416 | a file that is not a ZIP is refused before the cache is read; a cached file is answered from the cache; otherwise the analysis is returned and stored only when it succeeded |
| InstaFedArchive.AnalyzeArchiveContent | tools/instafed/app.js:457-487 | counts all entries, the media ones, the photos and videos among them, and sums the uncompressed sizes of the media entries |
| InstaFedArchive.TotalSize | tools/instafed/app.js:479-484 | the loop adds up exactly the sizes of the media entries, a missing size counting zero |
| InstaFedArchive.ArchiveCounts | tools/instafed/app.js:461-474 | photos and videos are each at most the media count, which is at most the file count, and a name with both words counts in both |
| InstaFedArchive.ConversionStepsRise | tools/instafed/app.js:1382-1413 | for every combination of options the steps' progress strictly increases, starts with extraction and ends at 100 |
| InstaFedArchive.OptionalStepsRise | tools/instafed/app.js:1382-1406 | the steps before conversion rise strictly, stay below 70 and start with extraction |
| InstaFedArchive.FirstOptionalSteps | tools/instafed/app.js:1382-1394 | the caption and metadata steps follow extraction and configuration and stay below 41 |
| InstaFedArchive.RisingSnoc | tools/instafed/app.js:1388-1406 | appending an optional step whose progress is above every earlier one keeps the list rising |
| InstaFedArchive.RisingTail | tools/instafed/app.js:1408-1413 | the four closing steps keep a list rising when every earlier step is below 70 |
| Spacing.RunLength | scripts/minify-css.js:17 | the leading whitespace run ends at the first non-whitespace character |
| Spacing.Tighten | scripts/minify-css.js:17 | replacing each whitespace run around the character with the character never lengthens the text and keeps a non-whitespace first character |
| Spacing.TightenGuards | scripts/minify-css.js:17-24 | after the pass no whitespace touches the character, and every adjacency guarantee established by earlier passes still holds |
| Spacing.TightenNoop | scripts/minify-css.js:30-31 | on text where no whitespace touches the character the pass changes nothing |
| Spacing.Collapse | scripts/minify-css.js:27 | replacing every whitespace run by one space never lengthens the text and turns a leading run into a space |
| Spacing.CollapseCollapses | scripts/minify-css.js:27 | after collapsing every whitespace character is a single space with no whitespace beside it |
| Spacing.CollapseGuards | scripts/minify-css.js:27 | collapsing keeps every guarantee that no whitespace touches a given character |
| Spacing.DropBefore | scripts/minify-css.js:37 | deleting the whitespace run before the character never lengthens the text and keeps a non-whitespace last character |
| Spacing.DropBeforeGuards | scripts/minify-css.js:37 | after the pass no whitespace precedes the character, and earlier adjacency guarantees still hold |
| Spacing.DropBeforeCollapsed | scripts/minify-css.js:37 | deleting whitespace before the character keeps collapsed text collapsed |
| Spacing.DropAfter | scripts/optimize-assets.js:28 | deleting the whitespace run after the character never lengthens the text and keeps its first character |
| Spacing.DropAfterGuards | scripts/optimize-assets.js:28 | after the pass no whitespace follows the character, and earlier adjacency guarantees still hold |
| Spacing.DropAfterCollapsed | scripts/optimize-assets.js:28 | deleting whitespace after the character keeps collapsed text collapsed |
| Spacing.TrimKeeps | scripts/minify-css.js:34 | trimming keeps both the adjacency guarantees and the single-space property |
| Scan.FindFrom | scripts/minify-css.js:14 | the search returns the first occurrence of the delimiter at or after the start, and none exactly when there is no occurrence there |
| Scan.StripDelimited | scripts/minify-css.js:14 | deleting delimited blocks never lengthens the text |
| Scan.StripWithoutOpen | scripts/minify-css.js:14 | text without an opening delimiter is left unchanged |
| Scan.StripBlock | scripts/minify-css.js:14 | a block is deleted up to the first closing delimiter after its opening one, and scanning resumes right after it |
| MinifyCss.StripComments | scripts/minify-css.js:14 | comment deletion never lengthens the stylesheet |
| MinifyCss.TightenEach | scripts/minify-css.js:17-24 | the chain of punctuation passes never lengthens the text |
| MinifyCss.TightenEachGuards | scripts/minify-css.js:17-24 | after the chain no whitespace touches any of the characters passed, and earlier guarantees are kept |
| MinifyCss.TightenPunctuation | scripts/minify-css.js:17-24 | the eight punctuation passes never lengthen the text |
| MinifyCss.TightenPunctuationGuards | scripts/minify-css.js:17-24 | after the eight passes no whitespace touches any of the braces, colon, semicolon, comma, greater-than, plus or tilde |
| MinifyCss.BeforeTrim | scripts/minify-css.js:17-27 | after the punctuation passes and collapsing, no whitespace touches the punctuation and every whitespace is a lone space |
| MinifyCss.SecondBracePassIsIdentity | scripts/minify-css.js:30-31 | the second pair of brace passes never changes the text |
| MinifyCss.TrimDropShape | scripts/minify-css.js:34-37 | trimming and deleting whitespace before at-signs keeps the guarantees and adds that no whitespace precedes an at-sign and none is at either end |
| MinifyCss.Minify | scripts/minify-css.js:10-40 | the minified stylesheet is never longer than the original |
| MinifyCss.MinifyShape | scripts/minify-css.js:10-40 | in the output no whitespace touches the punctuation or precedes an at-sign, every whitespace is a lone space, and neither end is whitespace |
| MinifyCss.CommentSplice | scripts/minify-css.js:13-14 | deleting a comment can join a slash and an asterisk into a new comment opener, so the output is not always free of comments |
| MinifyCss.SpliceTail | scripts/minify-css.js:14 | a comment is deleted up to its first closer and the text after it, which holds no opener, is kept as is |
| OptimizeAssets.StripXmlComments | scripts/optimize-assets.js:19 | deleting comments, each up to the first closer after its opener, never lengthens the text |
| OptimizeAssets.DeclEnd | scripts/optimize-assets.js:22 | a declaration match, when there is one, spans at least seven characters and stays inside the text |
| OptimizeAssets.StripXmlDecls | scripts/optimize-assets.js:22 | deleting XML declarations with their trailing whitespace never lengthens the text |
| OptimizeAssets.DeclBlock | scripts/optimize-assets.js:22 | a declaration without a greater-than sign inside is deleted together with the whitespace after it |
| OptimizeAssets.DeclEndOfBlock | scripts/optimize-assets.js:22 | a declaration match ends exactly where the whitespace after the declaration ends |
| OptimizeAssets.FirstCloser | scripts/optimize-assets.js:22 | the declaration ends at the first greater-than sign after its opener |
| OptimizeAssets.RunOfWhitespace | scripts/optimize-assets.js:22 | the whitespace run after a declaration is exactly the whitespace before the next non-whitespace character |
| OptimizeAssets.NameLength | scripts/optimize-assets.js:32 | the attribute-name run ends at the first character that is not a letter or a dash |
| OptimizeAssets.AttrSpace | scripts/optimize-assets.js:32 | replacing the whitespace before an attribute name by one space never lengthens the text |
| OptimizeAssets.AttrSpaceIsIdentity | scripts/optimize-assets.js:25-32 | on collapsed text the attribute-space pass changes nothing |
| OptimizeAssets.SpaceBeforeName | scripts/optimize-assets.js:32 | a single space before an attribute name and its equals sign is kept as it is |
| OptimizeAssets.SpaceBeforeOther | scripts/optimize-assets.js:32 | a single space not before an attribute assignment is left alone |
| OptimizeAssets.SingleSpace | scripts/optimize-assets.js:25 | in collapsed text a whitespace character is a lone space |
| OptimizeAssets.DropLeadingZeros | scripts/optimize-assets.js:35 | removing a zero before a decimal point never lengthens the text and keeps the first and last characters |
| OptimizeAssets.DropLeadingZerosGuards | scripts/optimize-assets.js:35 | the number pass keeps every guarantee that no whitespace touches the tag brackets |
| OptimizeAssets.DropLeadingZerosCollapsed | scripts/optimize-assets.js:35 | the number pass keeps collapsed text collapsed |
| OptimizeAssets.DropLeadingZerosKeepsOthers | scripts/optimize-assets.js:35 | the number pass deletes only zeros: the other characters are kept in order |
| OptimizeAssets.ZeroStep | scripts/optimize-assets.js:35 | one rewrite of a non-digit, zero, point, digit group drops only the zero |
| OptimizeAssets.LeadingZeroExamples | scripts/optimize-assets.js:35 | a zero after a space is dropped, a zero at the very start is kept, and a zero after a digit is kept |
| OptimizeAssets.TagsShape | scripts/optimize-assets.js:28-29 | after the two tag passes no whitespace precedes an opening bracket or follows a closing one, and the text stays collapsed |
| OptimizeAssets.Optimize | scripts/optimize-assets.js:15-41 | the optimised SVG is never longer than the original |
| OptimizeAssets.OptimizeShape | scripts/optimize-assets.js:15-41 | in the output no whitespace precedes an opening bracket or follows a closing one, every whitespace is a lone space, and neither end is whitespace |
| OptimizeAssets.Named | scripts/optimize-assets.js:85-88 | a directory lookup by name finds the first entry of that name, and none when no entry has it |
| OptimizeAssets.FileContent | scripts/optimize-assets.js:48 | a path has content exactly when it resolves to a regular file |
| OptimizeAssets.Write | scripts/optimize-assets.js:54 | writing a file keeps the number of entries of the directory written into from the top |
| OptimizeAssets.WriteKeepsNames | scripts/optimize-assets.js:54 | writing a file keeps every entry's name |
| OptimizeAssets.ResolveAfterWrite | scripts/optimize-assets.js:54 | after a file is written, reading it gives the new content |
| OptimizeAssets.SavedPercent | scripts/optimize-assets.js:55 | the saved percentage is positive and at most 100 when the file shrank, zero when it kept its size, and negative when it grew |
| OptimizeAssets.RatioAgainstOne | scripts/optimize-assets.js:55 | the size ratio is below, at or above one exactly as the new size is below, at or above the old one |
| OptimizeAssets.SvgOutcomeCases | scripts/optimize-assets.js:46-71 | the file counts as optimised exactly when the rewritten text is smaller in UTF-8 bytes; then the reduction is positive, otherwise the sizes are equal and the reduction is zero |
| OptimizeAssets.Disk.constructor | scripts/optimize-assets.js:46-54 | the working tree is the one given |
| OptimizeAssets.Disk.ProcessSvg | scripts/optimize-assets.js:46-76 | a path that is not a regular file gives no result and changes nothing; otherwise the outcome is computed and the file is rewritten only when it shrinks |
| OptimizeAssets.SvgFilesSound | scripts/optimize-assets.js:81-103 | every path found lies below the start, names an SVG file and passes through no ignored directory |
| OptimizeAssets.EntrySvgsSound | scripts/optimize-assets.js:87-98 | every path one entry contributes lies below the directory, names an SVG file and passes through no ignored directory |
| OptimizeAssets.SvgFilesComplete | scripts/optimize-assets.js:87-98 | every path an entry contributes is among the paths found in its directory |
| OptimizeAssets.WalkDir | scripts/optimize-assets.js:84-99 | the walk appends to the list exactly the SVG paths of the directory, in visiting order |
| OptimizeAssets.FindSvgFiles | scripts/optimize-assets.js:81-103 | the search returns exactly the SVG paths of the tree, in visiting order |
| OptimizeAssets.GetFileReport | scripts/optimize-assets.js:108-123 | a path is reported present exactly when it exists, with its size, and missing with size zero otherwise |
| OptimizeAssets.ExistingReports | scripts/optimize-assets.js:144-150 | only reports of existing files are kept |
| OptimizeAssets.CssReductionPresence | scripts/optimize-assets.js:161-167 | a stylesheet has a reduction exactly when its minified copy exists |
| OptimizeAssets.GenerateAssetReport | scripts/optimize-assets.js:128-195 | each category lists the existing files in order and its total is the sum of their sizes; for stylesheets the total counts the original sizes |
| OptimizeAssets.CssSection | scripts/optimize-assets.js:152-170 | the stylesheet entries are those of the existing originals, and the total is the sum of their original sizes |
| OptimizeAssets.SumExisting | scripts/optimize-assets.js:144-150 | the loop keeps the reports of existing files and totals their sizes |
| Favicons.Capitalize | scripts/generate-favicons.js:37 | a capitalised piece has the same length as the piece |
| Favicons.Spelled | scripts/generate-favicons.js:34-39 | the character-by-character spelling of the display name has the tool name's length |
| Favicons.SpelledIsJoin | scripts/generate-favicons.js:34-39 | spelling the name character by character equals splitting at dashes, capitalising each piece and joining with spaces |
| Favicons.JoinedAtDash | scripts/generate-favicons.js:36-38 | a dash becomes a space and the next piece starts capitalised |
| Favicons.JoinedAtOther | scripts/generate-favicons.js:37 | any other character is kept, upper-cased only at the start of a piece |
| Favicons.DisplayNameSpelling | scripts/generate-favicons.js:34-39 | the display name is the name with dashes turned into spaces and each piece's first character upper-cased, so it has the name's length |
| Favicons.CapitalizeKeepsSpaces | scripts/generate-favicons.js:37 | capitalising a piece adds no space |
| Favicons.DisplayNameWords | scripts/generate-favicons.js:34-39 | for a name without spaces, the display name's words are the capitalised dash pieces, so there are as many words as pieces |
| Favicons.SplitPiecesIn | scripts/generate-favicons.js:36 | every character of a piece comes from the split text |
| Favicons.FontSize | scripts/generate-favicons.js:51-62 | the font size is one of 20, 16, 12, 10 and 8 |
| Favicons.FontSizeNonIncreasing | scripts/generate-favicons.js:51-62 | a longer name never gets a larger font |
| Favicons.MidPoint | scripts/generate-favicons.js:77 | the first line takes half the words, rounded up |
| Favicons.JoinAppend | scripts/generate-favicons.js:78-79 | joining two non-empty word lists with a space between equals joining them as one list |
| Favicons.IconLayout | scripts/generate-favicons.js:45-126 | the icon is 64 by 64 with text at x 32 and the ladder's font size; it has two lines exactly when the name has several words and more than eight characters; the first line holds the first half of the words, the two lines joined by a space give the name back, and the first line is above the second |
| Favicons.MainIconLayout | scripts/generate-favicons.js:138 | the main icon, AI JazTools, uses size 10 on two lines, AI at y 29 and JazTools at y 38 |
| Favicons.MainNameWords | scripts/generate-favicons.js:138 | the main name splits into the two words AI and JazTools |
| Favicons.FinalDisplayName | scripts/generate-favicons.js:146 | a given display name is used, and an empty or missing one is derived from the tool name |
| Favicons.DestinationShape | scripts/generate-favicons.js:152-159 | every icon goes under tools and ends in the tool's own directory and favicon.svg; it goes under feed-minitools exactly for feed-minitools and its three sub-tools, one level deeper for the sub-tools; different tools get different paths |
| Favicons.AllIcons | scripts/generate-favicons.js:131-169 | the main icon comes first, then one icon per tool in order, each at its destination with its final display name and color |
| Favicons.ToolIcons | scripts/generate-favicons.js:144-169 | one icon per tool, in order, at its destination with its final display name and color |
| Favicons.IconPathsDistinct | scripts/generate-favicons.js:131-169 | tools with different names never write to the same path, nor to the main icon's path |
| Http.HeaderIndex | shared/utils/cors.js:65-70 | a header is found at the first entry whose name matches without regard to case, and none when no entry matches |
| Http.WithHeader | shared/utils/cors.js:65-70 | setting a header that is present keeps the number of headers, and a new one is appended |
| Http.LastValue | shared/utils/security-headers.js:92-96 | a list of headers to set gives a name a value exactly when one of its entries has that name |
| Http.IndexAfterWith | shared/utils/cors.js:65-70 | after a header is set it reads back as the value given, in any case, and every other header reads as before |
| Http.IndexIs | shared/utils/cors.js:65-70 | the first matching entry is the one found |
| Http.IndexNone | shared/utils/cors.js:65-70 | with no matching entry no header is found |
| Http.SameIndex | shared/utils/cors.js:65-70 | replacing the found entry under the same name keeps its position and gives the new value |
| Http.KeptIndex | shared/utils/cors.js:65-70 | replacing an entry of another name leaves a header's lookup unchanged |
| Http.NewIndex | shared/utils/cors.js:65-70 | appending a new header changes only the lookup of that name |
| Http.GetAfterWithHeaders | shared/utils/security-headers.js:92-96 | after a list of headers is set each name reads as the last value given to it, and names not in the list read as before |
| Http.SameNameGet | shared/utils/cors.js:65-70 | names equal up to case read the same header |
| Http.LastValueCons | shared/utils/security-headers.js:92-96 | a later entry for a name overrides an earlier one |
| Http.LastOfDistinct | shared/utils/security-headers.js:92-96 | in a list with distinct names each entry's value is the one its name ends with |
| Http.SetDistinct | shared/utils/security-headers.js:92-96 | after a list with distinct names is set each of them reads as its value, and any name outside the list reads as before |
| Http.NamesDiffer | shared/utils/cors.js:65-70 | names of different lengths never match |
| Http.NamesDifferAt | shared/utils/cors.js:65-70 | names that differ at a position, ignoring case, never match |
| Http.SetNext | shared/utils/cors.js:65-70 | setting the next header of a list extends the headers set so far by that one |
| Http.WithHeadersSnoc | shared/utils/security-headers.js:92-96 | setting a list and then one more header equals setting the longer list |
| Http.FieldInAt | shared/utils/health-check.js:54-61 | a JSON field reads as the first member with that key |
| Http.Response.SetHeader | shared/utils/cors.js:65-70 | the header is set and status, end flag and body are unchanged |
| Http.Response.WriteHead | shared/utils/health-check.js:42 | the status is set and the extra headers are added, with the end flag and body unchanged |
| Http.Response.End | shared/utils/health-check.js:43-46 | the response is ended with the body, with headers and status unchanged |
| SecurityHeaders.IndexOf | shared/utils/security-headers.js:81 | a directive is found at its first occurrence, and none when absent |
| SecurityHeaders.ValueOf | shared/utils/security-headers.js:81 | a directive has a value exactly when it occurs in the policy |
| SecurityHeaders.Names | shared/utils/security-headers.js:84 | the policy has one directive name per entry |
| SecurityHeaders.Put | shared/utils/security-headers.js:81 | spreading a directive that is not yet present appends it at the end |
| SecurityHeaders.PutLookup | shared/utils/security-headers.js:81 | after a directive is spread in it reads as its new sources and every other directive reads as before |
| SecurityHeaders.ReplacedSlot | shared/utils/security-headers.js:81 | replacing a directive in its slot leaves every other directive's value alone |
| SecurityHeaders.AppendedSlot | shared/utils/security-headers.js:81 | appending a directive leaves every other directive's value alone |
| SecurityHeaders.FirstAt | shared/utils/security-headers.js:81 | the first entry with a name is the one found |
| SecurityHeaders.MergeLookup | shared/utils/security-headers.js:71-81 | in the merged policy a directive given by the caller has the caller's sources, and every other directive keeps its default |
| SecurityHeaders.HeadLookup | shared/utils/security-headers.js:81 | with distinct directives the first entry's value is the one its name reads as |
| SecurityHeaders.NamesPut | shared/utils/security-headers.js:81 | an override keeps its slot and a new directive is added at the end |
| SecurityHeaders.MergeNames | shared/utils/security-headers.js:81 | the merged order is the six defaults in their order, then the caller's new directives in the caller's order |
| SecurityHeaders.MergeNothing | shared/utils/security-headers.js:64-81 | with no caller directives the policy is the default one |
| SecurityHeaders.SecurityHeaderList | shared/utils/security-headers.js:92-96 | exactly five headers are set |
| SecurityHeaders.SetSecurityHeaders | shared/utils/security-headers.js:62-97 | the five headers are set in order, and status, end flag and body are unchanged |
| SecurityHeaders.HeaderNamesDistinct | shared/utils/security-headers.js:92-96 | the five header names are distinct |
| SecurityHeaders.SecurityHeadersSet | shared/utils/security-headers.js:62-97 | afterwards nosniff, the framing, referrer and permissions options or their defaults, and the rendered merged policy are the header values, and every other header is as it was |
| SecurityHeaders.DirectiveAvoids | shared/utils/security-headers.js:84-88 | a well-formed directive renders without a semicolon and splits at spaces into its name and sources |
| SecurityHeaders.ReadsBack | shared/utils/security-headers.js:84-88 | a rendered directive, with or without a leading space, reads back as the directive |
| SecurityHeaders.ReadPolicy | shared/utils/security-headers.js:89 | reading a policy gives one directive per semicolon-separated piece |
| SecurityHeaders.RenderSplits | shared/utils/security-headers.js:84-89 | splitting the rendered policy at semicolons gives the first directive and then each later directive preceded by a space |
| SecurityHeaders.RenderOne | shared/utils/security-headers.js:84-89 | a one-directive policy renders as that directive alone |
| SecurityHeaders.RenderSplitsStep | shared/utils/security-headers.js:89 | a directive joined in front of a rendered policy adds one piece at the front |
| SecurityHeaders.RenderCons | shared/utils/security-headers.js:89 | directives are joined with a semicolon and a space |
| SecurityHeaders.SpaceSplit | shared/utils/security-headers.js:89 | a leading space stays with the first piece |
| SecurityHeaders.WellFormedTail | shared/utils/security-headers.js:84-89 | the rest of a well-formed policy is well-formed |
| SecurityHeaders.RenderRoundTrip | shared/utils/security-headers.js:84-89 | a well-formed policy reads back from its rendered text as itself |
| SecurityHeaders.DefaultWellFormed | shared/utils/security-headers.js:71-78 | the default policy is well-formed |
| SecurityHeaders.SourcesPlain | shared/utils/security-headers.js:72-77 | the default sources hold no space or semicolon |
| SecurityHeaders.DefaultNamesPlain | shared/utils/security-headers.js:71-78 | the default directive names are non-empty and hold no space or semicolon |
| SecurityHeaders.DefaultDistinct | shared/utils/security-headers.js:71-78 | the six default directives are distinct |
| SecurityHeaders.SixWellFormed | shared/utils/security-headers.js:71-78 | six well-formed directives make a well-formed policy |
| SecurityHeaders.SixDistinct | shared/utils/security-headers.js:71-78 | six directives whose names differ make a policy with distinct directives |
| SecurityHeaders.DistinctFive | shared/utils/security-headers.js:92-96 | five header names that pairwise differ are distinct |
| SecurityHeaders.MergedReadsBack | shared/utils/security-headers.js:81-89 | the merged policy reads back from the header's text as itself when the caller's directives are well-formed |
| SecurityHeaders.MergeWellFormed | shared/utils/security-headers.js:81 | merging well-formed caller directives into a well-formed policy keeps it well-formed |
| Cors.OriginValue | shared/utils/cors.js:58-63 | a missing origin is the wildcard, a string origin is used as it is, and a one-element list gives its element |
| Cors.CorsHeaderList | shared/utils/cors.js:65-71 | three headers are set, and a fourth exactly when credentials are allowed |
| Cors.SetCorsHeaders | shared/utils/cors.js:56-72 | the CORS headers are set in order, and status, end flag and body are unchanged |
| Cors.HandlePreflight | shared/utils/cors.js:92-100 | the request is handled exactly when it is an OPTIONS request; then the headers are set, the status is 204 and the response ends with no body; otherwise nothing changes |
| Cors.HeaderNamesDistinct | shared/utils/cors.js:65-70 | the CORS header names are distinct |
| Cors.CorsHeadersSet | shared/utils/cors.js:56-72 | afterwards origin, methods and headers read as the options or defaults give them, the credentials header is true when allowed and untouched otherwise, and every other header is as it was |
| Cors.DefaultValues | shared/utils/cors.js:57-61 | with no options the values are the wildcard origin, GET, POST, OPTIONS and Content-Type, and three headers are set |
| Logger.Rank | shared/utils/logger.js:20-25 | the four levels rank from 0 to 3 |
| Logger.ParseLevel | shared/utils/logger.js:33-41 | a recognised level is the one whose name the value spells in lower case |
| Logger.CurrentLevel | shared/utils/logger.js:32-44 | a recognised LOG_LEVEL decides the threshold |
| Logger.Emit | shared/utils/logger.js:67-104 | a message is written exactly when its level ranks at least the threshold, as the formatted line on its level's console channel |
| Logger.TagIsUpperName | shared/utils/logger.js:55-60 | the printed tag is the upper-cased level name |
| Logger.LevelNamesRoundTrip | shared/utils/logger.js:33-41 | every level's name and tag read back as that level |
| Logger.ParseByLower | shared/utils/logger.js:33-41 | any value that lower-cases to a level's name reads as that level |
| Logger.NameIsLower | shared/utils/logger.js:33-41 | the level names are already lower case |
| Logger.TagLowers | shared/utils/logger.js:33-41 | lower-casing a tag gives the level's name |
| Logger.RankInjective | shared/utils/logger.js:20-25 | different levels have different ranks |
| Logger.ThresholdChoice | shared/utils/logger.js:32-44 | a recognised LOG_LEVEL decides the threshold whatever NODE_ENV says; otherwise production gives error and anything else gives info |
| Logger.ErrorsAlwaysShown | shared/utils/logger.js:89-93 | errors are written whatever the threshold |
| Logger.ShownUpward | shared/utils/logger.js:67-104 | when a level is written, every higher level is written too |
| Logger.DefaultThresholds | shared/utils/logger.js:42-43 | without LOG_LEVEL, production writes only errors and any other environment writes everything but debug |
| Logger.TagHasNoBracket | shared/utils/logger.js:55-60 | a tag holds no closing bracket |
| Logger.ReadTaggedOf | shared/utils/logger.js:55-60 | the tagged part of a line reads back as its level and text |
| Logger.Bracketed | shared/utils/logger.js:55-60 | a line starts with the bracketed timestamp |
| Logger.FormatRoundTrip | shared/utils/logger.js:55-60 | every line reads back as its timestamp, its level and the message followed by the data when given |
| HealthCheck.CreateHealthCheck | shared/utils/health-check.js:36-37 | the handler keeps the service name, the version or 1.0.0 when none is given, and the time it was created |
| HealthCheck.Uptime | shared/utils/health-check.js:51 | the uptime is the elapsed time in whole seconds, rounded down, and never negative when the clock has not gone back |
| HealthCheck.Environment | shared/utils/health-check.js:60 | the environment is NODE_ENV when set and non-empty, and production otherwise |
| HealthCheck.Handle | shared/utils/health-check.js:39-66 | any method but GET gets 405 with the refusal body; GET gets 200 with the health body; both are labelled JSON and end the response |
| HealthCheck.UptimeMonotone | shared/utils/health-check.js:51 | the uptime never decreases as the clock moves forward |
| HealthCheck.HealthFields | shared/utils/health-check.js:43-61 | the answer's fields read as the service, version, timestamp, uptime and environment with ok true, and the refusal has ok false and its error text |
| HealthCheck.AnswerIsJson | shared/utils/health-check.js:42-64 | both answers read as application/json under any case of the header name |
| Tabs.InitialButtons | shared/components/Tabs/Tabs.js:36-71 | one button per tab, each set up with its ids, ARIA state and tab index |
| Tabs.InitialPanels | shared/components/Tabs/Tabs.js:36-71 | one panel per tab, each set up with its ids and hidden state |
| Tabs.SwitchButtons | shared/components/Tabs/Tabs.js:86-91 | every button is switched on exactly when it is the chosen one |
| Tabs.SwitchPanels | shared/components/Tabs/Tabs.js:92-94 | every panel is shown exactly when it is the chosen one |
| Tabs.TabGroup.constructor | shared/components/Tabs/Tabs.js:22-82 | the buttons and panels are the initial ones and nothing has focus |
| Tabs.TabGroup.SwitchTab | shared/components/Tabs/Tabs.js:85-98 | every button and panel is switched and the chosen button takes focus |
| Tabs.TabGroup.HandleKeyDown | shared/components/Tabs/Tabs.js:101-129 | a navigation key switches to its target tab, and any other key changes nothing |
| Tabs.SwitchMakesOnlyActive | shared/components/Tabs/Tabs.js:85-98 | after a switch exactly the chosen button and panel are active, the others inactive and hidden, and the id wiring is kept |
| Tabs.SwitchIdempotent | shared/components/Tabs/Tabs.js:85-98 | switching to the tab that is already the only active one changes nothing |
| Tabs.InitiallyFirst | shared/components/Tabs/Tabs.js:41-71 | each button controls its panel and each panel is labelled by its button, and without pre-set active classes only the first tab is active |
| Tabs.PreActiveButtonStays | shared/components/Tabs/Tabs.js:64-71 | a later button that already carried the active class keeps it at initialisation, while its panel starts hidden |
| Tabs.DecimalHasNoDash | shared/components/Tabs/Tabs.js:41-42 | a decimal index holds no dash |
| Tabs.IdParts | shared/components/Tabs/Tabs.js:41-42 | an id splits at its first dash after the prefix into the index and the suffix |
| Tabs.IdsInjective | shared/components/Tabs/Tabs.js:41-42 | two tab ids, or two panel ids, are equal only for the same index and suffix |
| Tabs.TabIdIsNotPanelId | shared/components/Tabs/Tabs.js:41-42 | a tab id is never a panel id |
| Strings.TrimStart | tools/feed-minitools/favorites-migrator/modules/validation.js:29 | the leading whitespace, and only that, is removed |
| Strings.TrimEnd | tools/feed-minitools/favorites-migrator/modules/validation.js:29 | the trailing whitespace, and only that, is removed |
| Strings.Trim | tools/feed-minitools/favorites-migrator/modules/validation.js:29 | a trimmed string is no longer than the original and neither starts nor ends with whitespace |
| Strings.TrimKeepsInner | tools/feed-minitools/favorites-migrator/modules/validation.js:29 | a string that neither starts nor ends with whitespace is its own trim |
| Strings.TrimAllWhitespace | tools/feed-minitools/favorites-migrator/modules/validation.js:29 | a string made only of whitespace trims to the empty string |
| Strings.Split | scripts/generate-favicons.js:36 | splitting gives at least one piece and no piece holds the separator |
| Strings.SplitJoin | scripts/generate-favicons.js:36-38 | joining the pieces of a split with the separator gives the string back |
| Strings.JoinSplit | scripts/generate-favicons.js:36-38 | splitting a join of separator-free pieces gives the pieces back |
| Strings.SplitCount | scripts/generate-favicons.js:72 | a string splits into one more piece than it has separators |
| Strings.ToUpper | scripts/generate-favicons.js:37 | upper-casing keeps the length and maps each character on its own |
| Strings.UpTo | shared/utils/logger.js:55-60 | the text before the first occurrence of a character, and the rest after it, or none when the character is absent |
| Strings.UpToFirst | shared/utils/logger.js:55-60 | splitting at the first occurrence of a character that the first part lacks gives both parts back |
| Strings.DecimalRoundTrip | tools/instafed/app.js:396 | the decimal text of a number reads back as the number |
| Strings.DecimalInjective | tools/instafed/app.js:396 | different numbers have different decimal texts |

## Left out

The environment is reduced to parameters or left out:

- The DOM (element creation, classes other than the ones modelled, focus, `preventDefault`, modals, live regions) is left out. It is presentation, tied to the browser.
- `fetch` and the Feedbin API client (`api.js`) are left out. Their answers (`testAuth`, search, star, the fetched page and candidate feeds) are inputs of the operations that use them.
- `FileReader`, JSZip, `DOMParser` and the URL parser are parameters. The outcome of reading or parsing is given to the model.
- The clock (`Date.now`, `new Date().toISOString()`, `getFullYear`) is a parameter. The same goes for `Math.random` id suffixes. `setTimeout`/`setInterval` delays and the 100 ms throttle between batches are left out.
- `Promise.all` fan-out is modelled as a sequential map in order, because the results are combined in order.
- Console output is reduced to the line or record that would be written. `JSON.stringify` is reduced to the `Json` value handed to it.
- Floating point is modelled with exact reals, including ratios, percentages and the read-time estimate. `toFixed`, `parseFloat`, `toLocaleString` and JavaScript rounding are left out. So are the log-scale chart heights, `formatFileSize` and the date-range formatting.
- `toLowerCase`/`toUpperCase` and whitespace are ASCII and Unicode-space code points only: no case folding beyond ASCII. String lengths count characters, not UTF-16 code units. File sizes on disk are the UTF-8 length of the content.
- The ordering of JavaScript object keys that look like integers is not modelled. Maps and dictionaries keep insertion order.
- `path.join` is component append, without normalisation. The file system is a tree of directories and files, and other file types are skipped.
- The date arithmetic of the organizer (articles per day, date range, freshness, weekends) is left out. So are its card builders and clipboard, and `parseOpml`'s DOM parsing.
- The other shared components (Button, Card, Modal, forms and the like) and `shared/utils/messages.js` are left out: they are DOM factories and auto-dismissing banners.
- The page bootstrap files of the tools are left out. So are the demo server and the logger demo script.
- The rest of InstaFed's app.js is left out: username extraction, Blob downloads, progress animation, modals, and the float estimates of `analyzeArchiveIssues`.
- The `processFile`/`main` file loop of the CSS minifier is left out. `generateAllFavicons` writes no file: the model gives each icon's destination and layout (size, text position, font size, fill, lines) rather than the SVG text.

Contracts stated weaker than the source, or with a documented difference:

- Analytics.AnalyzeLanguage: with no articles the source gives the string '0' as each percentage; the model gives 0. Percentages are exact, without `toFixed(1)`, so they add up to exactly 100.
- Analytics.SharesAddUp: the percentages add up to 100 before rounding; after `toFixed(1)` they may not.
- Analytics.EstimateReadTime: the division by 5 and by 3.33 is exact, not floating point.
- OptimizeAssets.SavedPercent: exact real, without the `toFixed(1)`/`parseFloat` rounding of the report.
- InstaFedArchive.FileHandler.ProcessFile: on failure the source also calls the error handler and rethrows; the model returns the error and leaves the cache unchanged. After a success, the `EventManager.emit('file-processed', result)` of tools/instafed/app.js:408 is not modelled; no listener subscribes to that event.
- Auth.AuthModule.HandleLogin: the delayed switch to the dashboard (a `setTimeout`) is left out.
- Ui.UiModule.SwitchTab: focus and the data loads started asynchronously are reduced to the tab whose data is requested.
- Tabs.TabGroup.SwitchTab: focus is modelled as the index of the button `focus()` is called on; the browser focus ring and focus events are left out.
- Cors.SetCorsHeaders: `credentials` is a boolean; a truthy value that is not `true` is not modelled.
- InstaFed.AppStateManager.Update: a write that puts a named property, `length` or an index past the end on an array is outside the model (`Unmodelled`). There the model keeps the state and notifies no one, while JavaScript adds the property or resizes the array. Numbers in the state are integers, and functions as state values are not modelled.
- InstaFed.SetPathFrame: stated for paths without a `length` key, since appending to an array changes its `length`.
- InstaFed.AppStateManager.AddError: the listeners get the new array as a value. That it is the live `processingErrors` array itself (aliasing) is not modelled, nor is the `appState` alias of the state object (tools/instafed/app.js:378).
- InstaFed.AppStateManager.NotifyListeners: listeners are modelled as not touching the state or the listener table. What a listener does when called is left out.
- InstaFed.AppStateManager.Reset: the notification of every subscribed path with its new value is not modelled, because the listener table is a map without the insertion order `Object.keys` follows.
- InstaFed.EventManager.Emit: callbacks are modelled as not touching the registry. `forEach` walks the live array, so a callback that removes itself during `emit` makes the next one be skipped; the model calls every callback registered when `emit` began.
- Analytics.Bump: the counters are plain objects in the source. A key naming a property inherited from `Object.prototype` (`constructor`, `toString`, `__proto__` and the like) starts there from that inherited value, while the model starts every key at 0.
- Analytics.PerformAnalysis: stated for author names, keywords, domains and years that are not property names inherited from `Object.prototype`. There an author named `__proto__` is lost and a keyword `constructor` counts as a string, so the source's author counts can fall short of the article count.
- InstaFed.LookupAfterSet: stated for paths with no inherited key. There `update('x.toString.y', v)` writes onto the shared `Object.prototype.toString`, after which `get` of that path is undefined.
- Migration.CreditFind: `bySource` is a plain object. A feed title naming an inherited property (`constructor`, `__proto__` and the like) finds that property there instead of a missing entry; the model treats every title as its own key.
- Migration.MigratedBySource: stated under the same reading of `bySource`, with no key inherited from `Object.prototype`.
- Auth.UserMessage: the table of known messages is a plain object, so a message equal to an inherited property name (`constructor`, `toString` and the like) yields that property there; the model shows such a message as it is.
- InstaFed.SetPath: an object key that names a property inherited from `Object.prototype` counts as present in `in` there; the model's objects have only their own fields.
- InstaFed.AppStateManager.Subscribe: the listener table is a plain object (tools/instafed/app.js:324), so for a path naming an inherited property such as `constructor` or `toString`, `this.listeners[path]` is an inherited function and `push` throws; the model treats every path as its own key.
- InstaFed.AppStateManager.NotifyListeners: likewise, for such a path `this.listeners[path].forEach` throws; the model delivers to the path's own list only.
- InstaFed.AppStateManager.Get: likewise, a key inherited from `Object.prototype` or `Array.prototype` is found by `in` there, and reading it gives the inherited value; the model reads only own fields, array indices and `length`.
- Redundancy.AnalyzeSourceRedundancy: scores are exact reals. The `toFixed(2)` text of a themed score and the `parseFloat` comparison of those texts are left out. So any two groups whose scores round to the same two decimals keep their input order in the source, but are ordered by exact value here. This includes a themed score in [0.745, 0.75) against the '0.75' similar-name groups: the source keeps the themed group first, while the model puts it after them.
- Logger.FormatLog: the data is its serialised text, and a falsy data value is modelled as no data.

## Findings

| source | as written | input that shows it | evidently intended | confidence | as-written member | corrected member |
|---|---|---|---|---|---|---|
| tools/feed-minitools/favorites-migrator/modules/validation.js:230-241 | each setting is refused only when it is not of type number or compares below or above its range; NaN is of type number and compares false both ways | `{retryAttempts: NaN, batchSize: NaN, delayBetweenBatches: NaN}` is accepted with no error | a setting outside its range or not a real number is refused | not executed | Validation.NaNConfigAccepted | Validation.ValidateMigrationConfig |

Other behaviours are recorded as lemmas but are not claimed as defects:

- `MinifyCss.SecondBracePassIsIdentity`: the minifier's second brace pass changes nothing.
- `OptimizeAssets.AttrSpaceIsIdentity`: the attribute-spacing pass of the SVG optimiser changes nothing after whitespace collapsing.
- `MinifyCss.CommentSplice`: deleting comments can join text into a new comment opener.
- `Tabs.PreActiveButtonStays`: a later button that already carries `active` keeps it from initialisation until the first switch, while its panel starts hidden.
