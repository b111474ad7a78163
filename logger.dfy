/** The shared logger of the native Node servers: four levels, a threshold
    read once from LOG_LEVEL and NODE_ENV, and one line per message of the
    form `[timestamp] [LEVEL] message data`. */
module Logger {
  import opened Wrappers
  import opened Strings

  datatype Level = Debug | Info | Warn | Error

  /** The numeric value of each level; a message is shown when its level's
      rank is at least the threshold's. */
  function Rank(l: Level): (r: nat)
    ensures r <= 3
  {
    match l
    case Debug => 0
    case Info => 1
    case Warn => 2
    case Error => 3
  }

  /** The lower-case name each logging function hands to the formatter. */
  function LevelName(l: Level): string {
    match l
    case Debug => "debug"
    case Info => "info"
    case Warn => "warn"
    case Error => "error"
  }

  /** The LOG_LEVEL value read without regard to ASCII case; anything else
      is not a level. */
  function ParseLevel(s: string): (r: Option<Level>)
    ensures r.Some? ==> ToLower(s) == LevelName(r.value)
  {
    var t := ToLower(s);
    if t == "debug" then Some(Debug)
    else if t == "info" then Some(Info)
    else if t == "warn" then Some(Warn)
    else if t == "error" then Some(Error)
    else None
  }

  /** The threshold, from LOG_LEVEL and NODE_ENV (`None` when unset). */
  function CurrentLevel(logLevel: Option<string>, nodeEnv: Option<string>): (r: Level)
    ensures logLevel.Some? && ParseLevel(logLevel.value).Some? ==> r == ParseLevel(logLevel.value).value
  {
    var parsed := if logLevel.Some? then ParseLevel(logLevel.value) else None;
    if parsed.Some? then parsed.value
    else if nodeEnv == Some("production") then Error
    else Info
  }

  /** The level as it is printed, between brackets. */
  function Tag(l: Level): string {
    match l
    case Debug => "DEBUG"
    case Info => "INFO"
    case Warn => "WARN"
    case Error => "ERROR"
  }

  /** The text after the message: a space and the serialised data when data
      was given, nothing otherwise. */
  function DataSuffix(data: Option<string>): string {
    if data.Some? then " " + data.value else ""
  }

  /** `formatLog(level, message, data)` at time `timestamp`: the bracketed
      timestamp, then the tagged text. */
  function FormatLog(timestamp: string, l: Level, message: string, data: Option<string>): string {
    "[" + timestamp + "]" + TaggedText(l, message + DataSuffix(data))
  }

  /** A space, the bracketed level tag, a space and the text. */
  function TaggedText(l: Level, body: string): string {
    " [" + Tag(l) + "] " + body
  }

  /** The console method each level writes to. */
  datatype Channel = ConsoleDebug | ConsoleLog | ConsoleWarn | ConsoleError

  function ChannelOf(l: Level): Channel {
    match l
    case Debug => ConsoleDebug
    case Info => ConsoleLog
    case Warn => ConsoleWarn
    case Error => ConsoleError
  }

  /** `debug`, `info`, `warn` or `error` under threshold `current`: the line
      written and where, or nothing. */
  function Emit(current: Level, l: Level, timestamp: string, message: string, data: Option<string>)
    : (r: Option<(Channel, string)>)
    ensures r.Some? <==> Rank(current) <= Rank(l)
    ensures r.Some? ==> r.value == (ChannelOf(l), FormatLog(timestamp, l, message, data))
  {
    if Rank(current) <= Rank(l) then Some((ChannelOf(l), FormatLog(timestamp, l, message, data))) else None
  }

  // ----- Levels -----

  /** The printed tag is the upper-cased level name. */
  lemma TagIsUpperName(l: Level)
    ensures Tag(l) == ToUpper(LevelName(l))
  {
    var n := LevelName(l);
    assert ToUpper(n) == [UpperChar(n[0])] + ToUpper(n[1..]);
  }

  /** Every level name reads back as its level, in lower or upper case. */
  lemma LevelNamesRoundTrip(l: Level)
    ensures ParseLevel(LevelName(l)) == Some(l)
    ensures ParseLevel(Tag(l)) == Some(l)
  {
    NameIsLower(l);
    ParseByLower(LevelName(l), l);
    TagLowers(l);
    ParseByLower(Tag(l), l);
  }

  lemma ParseByLower(s: string, l: Level)
    requires ToLower(s) == LevelName(l)
    ensures ParseLevel(s) == Some(l)
  {
  }

  lemma NameIsLower(l: Level)
    ensures ToLower(LevelName(l)) == LevelName(l)
  {
    var n := LevelName(l);
    forall i | 0 <= i < |n| ensures ToLower(n)[i] == n[i] {
      assert 'a' <= n[i] <= 'z';
    }
  }

  lemma TagLowers(l: Level)
    ensures ToLower(Tag(l)) == LevelName(l)
  {
    var t, n := Tag(l), LevelName(l);
    forall i | 0 <= i < |t| ensures ToLower(t)[i] == n[i] {
      assert 'A' <= t[i] <= 'Z';
    }
  }

  lemma RankInjective(a: Level, b: Level)
    requires Rank(a) == Rank(b)
    ensures a == b
  {
  }

  /** A recognised LOG_LEVEL decides the threshold whatever NODE_ENV says;
      otherwise production shows only errors and any other environment shows
      info and above. */
  lemma ThresholdChoice(logLevel: Option<string>, nodeEnv: Option<string>)
    ensures var r := CurrentLevel(logLevel, nodeEnv);
      && (logLevel.Some? && ParseLevel(logLevel.value).Some? ==> r == ParseLevel(logLevel.value).value)
      && (logLevel.Some? && ParseLevel(logLevel.value).Some? ==> r == CurrentLevel(logLevel, None))
      && ((logLevel.None? || ParseLevel(logLevel.value).None?) ==>
            r == if nodeEnv == Some("production") then Error else Info)
  {
  }

  /** Errors are always written. */
  lemma ErrorsAlwaysShown(current: Level, timestamp: string, message: string, data: Option<string>)
    ensures Emit(current, Error, timestamp, message, data).Some?
  {
  }

  /** A level that is shown makes every higher level shown too. */
  lemma ShownUpward(current: Level, a: Level, b: Level, timestamp: string, message: string, data: Option<string>)
    requires Emit(current, a, timestamp, message, data).Some? && Rank(a) <= Rank(b)
    ensures Emit(current, b, timestamp, message, data).Some?
  {
  }

  /** In production with no recognised LOG_LEVEL, only errors are written;
      elsewhere debug messages are the only ones held back. */
  lemma DefaultThresholds(l: Level, timestamp: string, message: string, data: Option<string>)
    ensures Emit(CurrentLevel(None, Some("production")), l, timestamp, message, data).Some? <==> l == Error
    ensures Emit(CurrentLevel(None, None), l, timestamp, message, data).Some? <==> l != Debug
  {
  }

  // ----- Reading a line back -----

  datatype LogLine = LogLine(timestamp: string, level: Level, text: string)

  /** A written line split back into its timestamp, its level and the text
      after the level. */
  function ReadLog(line: string): Option<LogLine> {
    if line == [] || line[0] != '[' then None
    else match UpTo(line[1..], ']')
      case None => None
      case Some((timestamp, rest)) =>
        match ReadTagged(rest)
        case None => None
        case Some((l, text)) => Some(LogLine(timestamp, l, text))
  }

  /** The part after the timestamp: " [LEVEL] text". */
  function ReadTagged(rest: string): Option<(Level, string)> {
    if |rest| < 2 || rest[0] != ' ' || rest[1] != '[' then None
    else match UpTo(rest[2..], ']')
      case None => None
      case Some((tag, tail)) =>
        if tail == [] || tail[0] != ' ' then None
        else match ParseLevel(tag)
          case None => None
          case Some(l) => Some((l, tail[1..]))
  }

  lemma TagHasNoBracket(l: Level)
    ensures ']' !in Tag(l)
  {
  }

  lemma ReadTaggedOf(l: Level, body: string)
    ensures ReadTagged(TaggedText(l, body)) == Some((l, body))
  {
    var afterTag := " " + body;
    var rest := TaggedText(l, body);
    assert rest[2..] == Tag(l) + [']'] + afterTag;
    TagHasNoBracket(l);
    UpToFirst(Tag(l), ']', afterTag);
    LevelNamesRoundTrip(l);
    assert afterTag[1..] == body;
  }

  lemma Bracketed(timestamp: string, rest: string)
    ensures var line := "[" + timestamp + "]" + rest;
      line != [] && line[0] == '[' && line[1..] == timestamp + [']'] + rest
  {
    var line := "[" + timestamp + "]" + rest;
    assert line[1..] == timestamp + [']'] + rest;
  }

  /** Every written line reads back as its timestamp, its level and the
      message followed by the data, provided the timestamp holds no `]` (an
      ISO 8601 timestamp holds none). */
  lemma FormatRoundTrip(timestamp: string, l: Level, message: string, data: Option<string>)
    requires ']' !in timestamp
    ensures ReadLog(FormatLog(timestamp, l, message, data))
         == Some(LogLine(timestamp, l, message + DataSuffix(data)))
  {
    var body := message + DataSuffix(data);
    var rest := TaggedText(l, body);
    Bracketed(timestamp, rest);
    UpToFirst(timestamp, ']', rest);
    ReadTaggedOf(l, body);
  }
}
