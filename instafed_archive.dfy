/** InstaFed's file side: the ZIP upload check and processed-file cache,
    the statistics of an archive's entries, the username check and the
    list of conversion steps. Reading the ZIP (FileReader, JSZip) is a
    parameter: the outcome of the analysis is given to the cache. */
module InstaFedArchive {
  import opened Wrappers
  import opened Strings
  import opened Seqs

  /* ---------- ValidationUtils ---------- */

  /** The selected file: name, MIME type, size in bytes and modification
      time in milliseconds. */
  datatype UploadFile = UploadFile(name: string, mimeType: string, size: nat, lastModified: nat)

  /** `isValidFile(file)`. */
  predicate IsValidFile(file: Option<UploadFile>) {
    file.Some? && file.value.mimeType == "application/zip"
  }

  /** A character of `[a-zA-Z0-9._]`. */
  predicate UsernameChar(c: char) {
    'a' <= c <= 'z' || 'A' <= c <= 'Z' || '0' <= c <= '9' || c == '.' || c == '_'
  }

  /** The regular expression's scan: every character is allowed. */
  function AllUsernameChars(s: string): (r: bool)
    ensures r <==> forall k :: 0 <= k < |s| ==> UsernameChar(s[k])
  {
    if s == [] then true else UsernameChar(s[0]) && AllUsernameChars(s[1..])
  }

  /** `isValidUsername(username)` is truthy exactly for strings of three
      or more characters from `[a-zA-Z0-9._]`. */
  function IsValidUsername(username: Option<string>): (r: bool)
    ensures r <==> (username.Some? && |username.value| >= 3 &&
      forall k :: 0 <= k < |username.value| ==> UsernameChar(username.value[k]))
  {
    username.Some? && username.value != [] && |username.value| >= 3 && AllUsernameChars(username.value)
  }

  /* ---------- FileHandler ---------- */

  /** `${name}_${size}_${lastModified}`. */
  function FileKey(file: UploadFile): string {
    file.name + ("_" + (NatToDecimal(file.size) + ("_" + NatToDecimal(file.lastModified))))
  }

  /** Splitting at the last `_`: the part after it has none. */
  lemma LastUnderscore(a1: string, d1: string, a2: string, d2: string)
    requires '_' !in d1 && '_' !in d2
    requires a1 + ("_" + d1) == a2 + ("_" + d2)
    ensures a1 == a2 && d1 == d2
  {
    var s := a1 + ("_" + d1);
    assert s[|s| - |d1| - 1] == '_';
    assert s[|s| - |d2| - 1] == '_' by {
      assert s == a2 + ("_" + d2);
    }
    assert forall k :: |s| - |d1| <= k < |s| ==> s[k] == d1[k - (|s| - |d1|)];
    assert forall k :: |s| - |d2| <= k < |s| ==> s[k] == (a2 + ("_" + d2))[k];
    assert forall k :: |s| - |d2| <= k < |s| ==> s[k] == d2[k - (|s| - |d2|)];
    assert |d1| == |d2|;
    assert d1 == s[|s| - |d1|..];
    assert a1 == s[..|a1|];
    assert s == a2 + ("_" + d2);
    assert d2 == s[|s| - |d2|..];
    assert a2 == s[..|a2|];
  }

  lemma DecimalHasNoUnderscore(n: nat)
    ensures '_' !in NatToDecimal(n)
  {
    var d := NatToDecimal(n);
    assert forall k :: 0 <= k < |d| ==> d[k] != '_';
  }

  /** Two files share a cache key only when name, size and modification
      time all agree. */
  lemma FileKeyInjective(f: UploadFile, g: UploadFile)
    requires FileKey(f) == FileKey(g)
    ensures f.name == g.name && f.size == g.size && f.lastModified == g.lastModified
  {
    DecimalHasNoUnderscore(f.size);
    DecimalHasNoUnderscore(g.size);
    DecimalHasNoUnderscore(f.lastModified);
    DecimalHasNoUnderscore(g.lastModified);
    var fm := NatToDecimal(f.lastModified);
    var gm := NatToDecimal(g.lastModified);
    var fs := NatToDecimal(f.size);
    var gs := NatToDecimal(g.size);
    assert (f.name + ("_" + fs)) + ("_" + fm) == FileKey(f);
    assert (g.name + ("_" + gs)) + ("_" + gm) == FileKey(g);
    LastUnderscore(f.name + ("_" + fs), fm, g.name + ("_" + gs), gm);
    LastUnderscore(f.name, fs, g.name, gs);
    DecimalInjective(f.size, g.size);
    DecimalInjective(f.lastModified, g.lastModified);
  }

  /** Statistics of an archive, as `analyzeArchiveContent` counts them. */
  datatype ArchiveStats = ArchiveStats(totalFiles: nat, mediaFiles: nat, photos: nat, videos: nat, totalSize: nat)

  /** What `processFile` resolves with: the file, its analysis and the
      time it was analysed. */
  datatype Processed = Processed(file: UploadFile, analysis: ArchiveStats, timestamp: nat)

  const InvalidFileMessage := "Fichier invalide. Seuls les fichiers ZIP sont acceptés."

  /** `FileHandler`: the cache of processed files. */
  class FileHandler {
    var processedFiles: map<string, Processed>

    constructor()
      ensures processedFiles == map[]
    {
      processedFiles := map[];
    }

    /** `processFile(file)`. A non-ZIP file is refused before the cache is
        consulted; a cached file is answered from the cache; otherwise
        `analyzed` (the outcome of reading the ZIP) is returned and, on
        success only, stored under the file's key. */
    method ProcessFile(file: Option<UploadFile>, analyzed: Result<Processed, string>) returns (r: Result<Processed, string>)
      modifies this
      ensures !IsValidFile(file) ==> r == Err(InvalidFileMessage) && processedFiles == old(processedFiles)
      ensures IsValidFile(file) && FileKey(file.value) in old(processedFiles) ==>
        r == Ok(old(processedFiles)[FileKey(file.value)]) && processedFiles == old(processedFiles)
      ensures IsValidFile(file) && FileKey(file.value) !in old(processedFiles) ==>
        r == analyzed &&
        processedFiles == (if analyzed.Ok? then old(processedFiles)[FileKey(file.value) := analyzed.value] else old(processedFiles))
    {
      if !IsValidFile(file) {
        return Err(InvalidFileMessage);
      }
      var fileKey := FileKey(file.value);
      if fileKey in processedFiles {
        return Ok(processedFiles[fileKey]);
      }
      r := analyzed;
      if analyzed.Ok? {
        processedFiles := processedFiles[fileKey := analyzed.value];
      }
    }
  }

  /* ---------- analyzeArchiveContent ---------- */

  /** An entry of `zip.files`: directories are not returned by
      `zip.file(name)`, and the uncompressed size may be missing. */
  datatype ZipEntry = ZipEntry(name: string, isDir: bool, uncompressedSize: Option<nat>)

  predicate HasPhoto(e: ZipEntry) {
    Contains(ToLower(e.name), "photo")
  }

  predicate HasVideo(e: ZipEntry) {
    Contains(ToLower(e.name), "video")
  }

  /** The media filter: the lower-cased name mentions a photo, a video, a
      `.jpg` or a `.mp4`. */
  predicate IsMedia(e: ZipEntry) {
    var lower := ToLower(e.name);
    Contains(lower, "photo") || Contains(lower, "video") || Contains(lower, ".jpg") || Contains(lower, ".mp4")
  }

  /** `file._data.uncompressedSize || 0` for a file entry; a directory
      adds nothing. */
  function EntrySize(e: ZipEntry): nat {
    if e.isDir then 0 else e.uncompressedSize.GetOr(0)
  }

  /** `analyzeArchiveContent(zip)` over the entries in key order. */
  method AnalyzeArchiveContent(entries: seq<ZipEntry>) returns (stats: ArchiveStats)
    ensures stats.totalFiles == |entries|
    ensures stats.mediaFiles == |Filter(entries, IsMedia)|
    ensures stats.photos == |Filter(Filter(entries, IsMedia), HasPhoto)|
    ensures stats.videos == |Filter(Filter(entries, IsMedia), HasVideo)|
    ensures stats.totalSize == SumOf(Filter(entries, IsMedia), EntrySize)
  {
    var mediaFiles := Filter(entries, IsMedia);
    stats := ArchiveStats(|entries|, |mediaFiles|, |Filter(mediaFiles, HasPhoto)|, |Filter(mediaFiles, HasVideo)|, 0);
    var totalSize := TotalSize(mediaFiles);
    stats := stats.(totalSize := totalSize);
  }

  /** The size loop of `analyzeArchiveContent`: the media entries' sizes,
      a directory counting nothing. */
  method TotalSize(mediaFiles: seq<ZipEntry>) returns (totalSize: nat)
    ensures totalSize == SumOf(mediaFiles, EntrySize)
  {
    var i := 0;
    totalSize := 0;
    while i < |mediaFiles|
      invariant 0 <= i <= |mediaFiles|
      invariant totalSize == SumOf(mediaFiles[..i], EntrySize)
    {
      SumOfPrefix(mediaFiles, i, EntrySize);
      var e := mediaFiles[i];
      if !e.isDir {
        totalSize := totalSize + e.uncompressedSize.GetOr(0);
      }
      i := i + 1;
    }
    assert mediaFiles[..i] == mediaFiles;
  }

  /** Photos and videos are media, media are files, and every entry whose
      name mentions a photo (or a video) is counted, so a name mentioning
      both is counted twice. */
  lemma ArchiveCounts(entries: seq<ZipEntry>)
    ensures |Filter(Filter(entries, IsMedia), HasPhoto)| <= |Filter(entries, IsMedia)| <= |entries|
    ensures |Filter(Filter(entries, IsMedia), HasVideo)| <= |Filter(entries, IsMedia)|
    ensures Filter(Filter(entries, IsMedia), HasPhoto) == Filter(entries, HasPhoto)
    ensures Filter(Filter(entries, IsMedia), HasVideo) == Filter(entries, HasVideo)
  {
    FilterOfFilter(entries, HasPhoto, IsMedia);
    FilterOfFilter(entries, HasVideo, IsMedia);
  }

  /* ---------- simulateConversion ---------- */

  /** The conversion options `simulateConversion` reads. */
  datatype ConversionOptions = ConversionOptions(
    fixEmptyCaptions: bool, captionPlaceholder: string,
    cleanMetadata: bool, metadataLevel: string,
    optimizeStructure: bool,
    addHashtags: bool, hashtagList: string,
    preserveDates: bool)

  /** The steps of the simulated conversion. */
  datatype ConversionStep =
    | Extract | Configure
    | FixCaptions(placeholder: string) | CleanMetadata(level: string) | Optimize
    | AddHashtags(hashtags: string) | PreserveDates
    | Convert | ValidateCompatibility | Generate | Complete

  function StepProgress(step: ConversionStep): nat {
    match step
    case Extract => 10
    case Configure => 20
    case FixCaptions(_) => 30
    case CleanMetadata(_) => 40
    case Optimize => 50
    case AddHashtags(_) => 60
    case PreserveDates => 65
    case Convert => 70
    case ValidateCompatibility => 80
    case Generate => 90
    case Complete => 100
  }

  function StepMessage(step: ConversionStep): string {
    match step
    case Extract => "Extracting and analyzing Instagram archive..."
    case Configure => "Applying selected configuration options..."
    case FixCaptions(p) => "Fixing empty captions with \"" + p + "\"..."
    case CleanMetadata(level) => "Cleaning metadata (level: " + level + ")..."
    case Optimize => "Optimizing archive structure..."
    case AddHashtags(list) => "Adding hashtags: " + list + "..."
    case PreserveDates => "Setting all posts to migration date/time..."
    case Convert => "Converting Instagram format to Pixelfed..."
    case ValidateCompatibility => "Validating compatibility..."
    case Generate => "Generating final archive..."
    case Complete => "Conversion complete - ready for import!"
  }

  /** `[step]` when `on`. */
  function When(on: bool, step: ConversionStep): seq<ConversionStep> {
    if on then [step] else []
  }

  /** The step list: two fixed steps, one per enabled option, then four
      fixed steps. */
  function ConversionSteps(o: ConversionOptions): seq<ConversionStep> {
    [Extract, Configure]
    + When(o.fixEmptyCaptions, FixCaptions(o.captionPlaceholder))
    + When(o.cleanMetadata, CleanMetadata(o.metadataLevel))
    + When(o.optimizeStructure, Optimize)
    + When(o.addHashtags, AddHashtags(o.hashtagList))
    + When(o.preserveDates, PreserveDates)
    + [Convert, ValidateCompatibility, Generate, Complete]
  }

  /** Progress rises strictly from step to step. */
  predicate Rising(steps: seq<ConversionStep>) {
    forall i, j :: 0 <= i < j < |steps| ==> StepProgress(steps[i]) < StepProgress(steps[j])
  }

  /** Every step's progress is below `bound`. */
  predicate Below(steps: seq<ConversionStep>, bound: nat) {
    forall i :: 0 <= i < |steps| ==> StepProgress(steps[i]) < bound
  }

  /** Appending a step whose progress is at least every earlier bound keeps
      the list rising. */
  lemma RisingSnoc(steps: seq<ConversionStep>, bound: nat, on: bool, step: ConversionStep)
    requires Rising(steps) && Below(steps, bound) && bound <= StepProgress(step)
    ensures Rising(steps + When(on, step)) && Below(steps + When(on, step), StepProgress(step) + 1)
  {
  }

  /** The four closing steps rise above anything below 70. */
  lemma RisingTail(steps: seq<ConversionStep>)
    requires Rising(steps) && Below(steps, 70)
    ensures Rising(steps + [Convert, ValidateCompatibility, Generate, Complete])
  {
    var tail := [Convert, ValidateCompatibility, Generate, Complete];
    assert Rising(tail);
    var r := steps + tail;
    forall i, j | 0 <= i < j < |r|
      ensures StepProgress(r[i]) < StepProgress(r[j])
    {
      if j < |steps| {
        assert r[i] == steps[i] && r[j] == steps[j];
      } else if i < |steps| {
        assert r[i] == steps[i] && r[j] == tail[j - |steps|];
      } else {
        assert r[i] == tail[i - |steps|] && r[j] == tail[j - |steps|];
      }
    }
  }

  /** Whatever the options, progress rises strictly, starts at 10 and ends
      at 100. */
  lemma ConversionStepsRise(o: ConversionOptions)
    ensures Rising(ConversionSteps(o))
    ensures ConversionSteps(o)[0] == Extract && StepProgress(ConversionSteps(o)[|ConversionSteps(o)| - 1]) == 100
  {
    OptionalStepsRise(o);
    var s5 := OptionalSteps(o);
    RisingTail(s5);
    var r := s5 + [Convert, ValidateCompatibility, Generate, Complete];
    assert ConversionSteps(o) == r;
    assert r[0] == s5[0];
  }

  /** The two opening steps and the enabled optional ones. */
  function OptionalSteps(o: ConversionOptions): seq<ConversionStep> {
    [Extract, Configure]
    + When(o.fixEmptyCaptions, FixCaptions(o.captionPlaceholder))
    + When(o.cleanMetadata, CleanMetadata(o.metadataLevel))
    + When(o.optimizeStructure, Optimize)
    + When(o.addHashtags, AddHashtags(o.hashtagList))
    + When(o.preserveDates, PreserveDates)
  }

  lemma OptionalStepsRise(o: ConversionOptions)
    ensures Rising(OptionalSteps(o)) && Below(OptionalSteps(o), 70) && OptionalSteps(o)[0] == Extract
  {
    var s2 := FirstOptionalSteps(o);
    var s3 := s2 + When(o.optimizeStructure, Optimize);
    RisingSnoc(s2, 41, o.optimizeStructure, Optimize);
    var s4 := s3 + When(o.addHashtags, AddHashtags(o.hashtagList));
    RisingSnoc(s3, 51, o.addHashtags, AddHashtags(o.hashtagList));
    RisingSnoc(s4, 61, o.preserveDates, PreserveDates);
    assert OptionalSteps(o)[0] == s2[0];
  }

  /** The opening steps and the first two optional ones rise, below 41. */
  lemma FirstOptionalSteps(o: ConversionOptions) returns (s2: seq<ConversionStep>)
    ensures s2 == [Extract, Configure]
                  + When(o.fixEmptyCaptions, FixCaptions(o.captionPlaceholder))
                  + When(o.cleanMetadata, CleanMetadata(o.metadataLevel))
    ensures Rising(s2) && Below(s2, 41) && s2[0] == Extract
  {
    var s0: seq<ConversionStep> := [Extract, Configure];
    assert Rising(s0) && Below(s0, 21);
    var s1 := s0 + When(o.fixEmptyCaptions, FixCaptions(o.captionPlaceholder));
    RisingSnoc(s0, 21, o.fixEmptyCaptions, FixCaptions(o.captionPlaceholder));
    s2 := s1 + When(o.cleanMetadata, CleanMetadata(o.metadataLevel));
    RisingSnoc(s1, 31, o.cleanMetadata, CleanMetadata(o.metadataLevel));
    assert s2[0] == s0[0];
  }
}
