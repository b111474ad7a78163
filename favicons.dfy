/** The favicon generator of the build scripts: the display name derived
    from a tool name, the text layout of the 64×64 SVG icon (font size, one
    or two lines) and where each icon is written. */
module Favicons {
  import opened Wrappers
  import opened Strings
  import opened Seqs

  // ---------------------------------------------------------------------
  // generateDisplayName

  /** `word.charAt(0).toUpperCase() + word.slice(1)`; `charAt(0)` of the
      empty word is the empty string. */
  function Capitalize(word: string): (r: string)
    ensures |r| == |word|
  {
    if word == [] then [] else [UpperChar(word[0])] + word[1..]
  }

  /** `generateDisplayName(name)`. */
  function DisplayName(name: string): (r: string) {
    Join(MapSeq(Split(name, '-'), Capitalize), " ")
  }

  /** An independent reading of the same rule, one character at a time:
      every `-` becomes a space and the character starting each piece is
      upper-cased. `atStart` says whether `s` starts a piece. */
  function Spelled(s: string, atStart: bool): (r: string)
    ensures |r| == |s|
  {
    if s == [] then []
    else if s[0] == '-' then [' '] + Spelled(s[1..], true)
    else [if atStart then UpperChar(s[0]) else s[0]] + Spelled(s[1..], false)
  }

  function CapitalizeIf(word: string, atStart: bool): string {
    if atStart then Capitalize(word) else word
  }

  lemma JoinCons(first: string, rest: seq<string>, sep: string)
    requires rest != []
    ensures Join([first] + rest, sep) == first + sep + Join(rest, sep)
  {
    assert ([first] + rest)[1..] == rest;
  }

  lemma JoinHead(c: char, w: string, rest: seq<string>, sep: string)
    ensures Join([[c] + w] + rest, sep) == [c] + Join([w] + rest, sep)
  {
    if rest != [] {
      JoinCons([c] + w, rest, sep);
      JoinCons(w, rest, sep);
    }
  }

  /** The join of the capitalized pieces of `s`, the first piece capitalized
      only when `s` starts a piece. */
  function JoinedPieces(s: string, atStart: bool): string {
    var pieces := Split(s, '-');
    Join([CapitalizeIf(pieces[0], atStart)] + MapSeq(pieces[1..], Capitalize), " ")
  }

  lemma {:induction false} SpelledIsJoin(s: string, atStart: bool)
    ensures Spelled(s, atStart) == JoinedPieces(s, atStart)
    decreases |s|
  {
    if s != [] {
      if s[0] == '-' {
        SpelledIsJoin(s[1..], true);
        JoinedAtDash(s, atStart);
      } else {
        SpelledIsJoin(s[1..], false);
        JoinedAtOther(s, atStart);
      }
    }
  }

  lemma JoinedAtDash(s: string, atStart: bool)
    requires s != [] && s[0] == '-'
    ensures JoinedPieces(s, atStart) == " " + JoinedPieces(s[1..], true)
  {
    var rest := Split(s[1..], '-');
    assert Split(s, '-') == [[]] + rest;
    assert Split(s, '-')[1..] == rest;
    var words := MapSeq(rest, Capitalize);
    MapSeqCons(rest, Capitalize);
    assert JoinedPieces(s[1..], true) == Join(words, " ");
    assert JoinedPieces(s, atStart) == Join([[]] + words, " ");
    JoinCons([], words, " ");
  }

  lemma JoinedAtOther(s: string, atStart: bool)
    requires s != [] && s[0] != '-'
    ensures JoinedPieces(s, atStart)
         == [if atStart then UpperChar(s[0]) else s[0]] + JoinedPieces(s[1..], false)
  {
    var rest := Split(s[1..], '-');
    assert Split(s, '-') == [[s[0]] + rest[0]] + rest[1..];
    var c := if atStart then UpperChar(s[0]) else s[0];
    assert CapitalizeIf([s[0]] + rest[0], atStart) == [c] + rest[0];
    JoinHead(c, rest[0], MapSeq(rest[1..], Capitalize), " ");
  }

  /** The display name is the tool name with every `-` turned into a space
      and each piece's first character upper-cased; in particular it is as
      long as the name. */
  lemma DisplayNameSpelling(name: string)
    ensures DisplayName(name) == Spelled(name, true)
    ensures |DisplayName(name)| == |name|
  {
    var pieces := Split(name, '-');
    SpelledIsJoin(name, true);
    MapSeqCons(pieces, Capitalize);
  }

  lemma CapitalizeKeepsSpaces(word: string)
    requires ' ' !in word
    ensures ' ' !in Capitalize(word)
  {
    if word != [] {
      assert UpperChar(word[0]) != ' ';
      assert forall c :: c in word[1..] ==> c in word;
    }
  }

  /** For a name without spaces, the display name has exactly one word per
      `-` piece of the name, each piece capitalized. */
  lemma DisplayNameWords(name: string)
    requires ' ' !in name
    ensures Split(DisplayName(name), ' ') == MapSeq(Split(name, '-'), Capitalize)
    ensures |Split(DisplayName(name), ' ')| == |Split(name, '-')|
  {
    var pieces := Split(name, '-');
    var words := MapSeq(pieces, Capitalize);
    forall k | 0 <= k < |words|
      ensures ' ' !in words[k]
    {
      assert forall c :: c in pieces[k] ==> c in name by {
        SplitPiecesIn(name, '-', k);
      }
      CapitalizeKeepsSpaces(pieces[k]);
    }
    JoinSplit(words, ' ');
  }

  lemma {:induction false} SplitPiecesIn(s: string, sep: char, k: nat)
    requires k < |Split(s, sep)|
    ensures forall c :: c in Split(s, sep)[k] ==> c in s
    decreases |s|
  {
    if s != [] {
      var rest := Split(s[1..], sep);
      if s[0] == sep {
        if k > 0 {
          SplitPiecesIn(s[1..], sep, k - 1);
        }
      } else if k == 0 {
        SplitPiecesIn(s[1..], sep, 0);
      } else {
        SplitPiecesIn(s[1..], sep, k);
      }
    }
  }

  // ---------------------------------------------------------------------
  // generateSVGFavicon

  /** The fixed size of every icon, and the horizontal anchor of its text. */
  const IconSize: nat := 64

  /** The font-size ladder over the display name's length. */
  function FontSize(textLength: nat): (r: nat)
    ensures r in {20, 16, 12, 10, 8}
  {
    if textLength <= 3 then 20
    else if textLength <= 6 then 16
    else if textLength <= 10 then 12
    else if textLength <= 15 then 10
    else 8
  }

  /** A longer name never gets a larger font. */
  lemma FontSizeNonIncreasing(shorter: nat, longer: nat)
    requires shorter <= longer
    ensures FontSize(longer) <= FontSize(shorter)
  {
  }

  /** One `<text>` element: its baseline height and its content. */
  datatype TextLine = TextLine(y: real, content: string)

  /** What generateSVGFavicon puts into the icon template. */
  datatype Icon = Icon(size: nat, textX: real, fontSize: nat, fill: string, lines: seq<TextLine>)

  /** `Math.ceil(words.length / 2)`. */
  function MidPoint(wordCount: nat): (m: nat)
    ensures 2 * m == wordCount || 2 * m == wordCount + 1
  {
    (wordCount + 1) / 2
  }

  predicate TwoLines(displayName: string) {
    |Split(displayName, ' ')| > 1 && |displayName| > 8
  }

  /** `generateSVGFavicon({ displayName, color })`. */
  function GenerateIcon(displayName: string, color: string): (r: Icon) {
    var fontSize := FontSize(|displayName|);
    var lineHeight := fontSize as real * 1.2;
    var center := IconSize as real / 2.0;
    var words := Split(displayName, ' ');
    var lines :=
      if |words| > 1 && |displayName| > 8 then
        var mid := MidPoint(|words|);
        [TextLine(center - lineHeight / 4.0, Join(words[..mid], " ")),
         TextLine(center + lineHeight / 2.0, Join(words[mid..], " "))]
      else [TextLine(center, displayName)];
    Icon(IconSize, center, fontSize, color, lines)
  }

  lemma JoinAppend(a: seq<string>, b: seq<string>, sep: string)
    requires a != [] && b != []
    ensures Join(a + b, sep) == Join(a, sep) + sep + Join(b, sep)
    decreases |a|
  {
    if |a| == 1 {
      JoinCons(a[0], b, sep);
      assert a + b == [a[0]] + b;
    } else {
      assert (a + b)[1..] == a[1..] + b;
      JoinAppend(a[1..], b, sep);
    }
  }

  /** The icon is 64 wide with its text centered at x = 32 and a font from
      the ladder; the text is on two lines exactly when the name has several
      words and more than 8 characters. Then the first line holds the first
      half of the words (rounded up), the second line at least one word, and
      the two lines joined by a space give back the name. */
  lemma IconLayout(displayName: string, color: string)
    ensures var icon := GenerateIcon(displayName, color);
            && icon.size == 64 && icon.textX == 32.0
            && icon.fontSize == FontSize(|displayName|)
            && icon.fill == color
            && (|icon.lines| == 2 <==> TwoLines(displayName))
            && (|icon.lines| == 1 <==> !TwoLines(displayName))
            && (!TwoLines(displayName) ==> icon.lines[0].content == displayName)
            && (TwoLines(displayName) ==>
                  (var words := Split(displayName, ' ');
                   && icon.lines[0].content == Join(words[..MidPoint(|words|)], " ")
                   && icon.lines[0].content + " " + icon.lines[1].content == displayName
                   && icon.lines[0].y < icon.lines[1].y))
  {
    var words := Split(displayName, ' ');
    if TwoLines(displayName) {
      var mid := MidPoint(|words|);
      assert words[..mid] + words[mid..] == words;
      JoinAppend(words[..mid], words[mid..], " ");
      SplitJoin(displayName, ' ');
    }
  }

  /** The main icon's name, 11 characters and two words, is set in size 10
      on two lines. */
  lemma MainIconLayout(primary: string)
    ensures var icon := GenerateIcon("AI JazTools", primary);
            && icon.fontSize == 10
            && icon.lines == [TextLine(29.0, "AI"), TextLine(38.0, "JazTools")]
  {
    MainNameWords();
    assert ["AI", "JazTools"][..1] == ["AI"] && ["AI", "JazTools"][1..] == ["JazTools"];
  }

  lemma MainNameWords()
    ensures Split("AI JazTools", ' ') == ["AI", "JazTools"]
  {
    var a, b := "AI", "JazTools";
    assert ' ' !in a && ' ' !in b;
    SplitTwo(a, ' ', b);
    assert a + [' '] + b == "AI JazTools";
  }

  // ---------------------------------------------------------------------
  // generateAllFavicons: names and destinations

  datatype Tool = Tool(name: string, displayName: string, color: string)

  /** `tool.displayName || generateDisplayName(tool.name)`: an empty display
      name counts as missing. */
  function FinalDisplayName(tool: Tool): (r: string)
    ensures tool.displayName != [] ==> r == tool.displayName
    ensures tool.displayName == [] ==> r == DisplayName(tool.name)
  {
    if tool.displayName != [] then tool.displayName else DisplayName(tool.name)
  }

  /** A path below the repository root, one component per name. */
  type Path = seq<string>

  const FeedSubTools: seq<string> := ["favorites-migrator", "subscription-organizer", "urls-to-opml"]

  /** Where a tool's icon is written. */
  function Destination(name: string): (r: Path) {
    if name == "feed-minitools" then ["tools", name, "favicon.svg"]
    else if name in FeedSubTools then ["tools", "feed-minitools", name, "favicon.svg"]
    else ["tools", name, "favicon.svg"]
  }

  /** Every icon lands in `tools/`, in a directory named after the tool,
      below `tools/feed-minitools/` exactly for the feed tools; distinct
      tools never share a destination. */
  lemma DestinationShape(name: string, other: string)
    ensures var p := Destination(name);
            && p[0] == "tools" && p[|p| - 1] == "favicon.svg" && p[|p| - 2] == name
            && (p[1] == "feed-minitools" <==> name == "feed-minitools" || name in FeedSubTools)
            && (|p| == 4 <==> name in FeedSubTools)
    ensures Destination(name) == Destination(other) ==> name == other
  {
    var p, q := Destination(name), Destination(other);
    if p == q {
      assert p[|p| - 2] == q[|q| - 2];
    }
  }

  const MainIconPath: Path := ["shared", "assets", "favicon.svg"]

  /** The files generateAllFavicons writes, in order: the main icon, then one
      per tool. */
  function AllIcons(tools: seq<Tool>, primary: string): (r: seq<(Path, Icon)>)
    ensures |r| == |tools| + 1
    ensures r[0] == (MainIconPath, GenerateIcon("AI JazTools", primary))
    ensures forall k :: 0 <= k < |tools| ==>
      r[k + 1] == (Destination(tools[k].name), GenerateIcon(FinalDisplayName(tools[k]), tools[k].color))
  {
    [(MainIconPath, GenerateIcon("AI JazTools", primary))] + ToolIcons(tools)
  }

  function ToolIcons(tools: seq<Tool>): (r: seq<(Path, Icon)>)
    ensures |r| == |tools|
    ensures forall k :: 0 <= k < |tools| ==>
      r[k] == (Destination(tools[k].name), GenerateIcon(FinalDisplayName(tools[k]), tools[k].color))
  {
    if tools == [] then []
    else [(Destination(tools[0].name), GenerateIcon(FinalDisplayName(tools[0]), tools[0].color))]
         + ToolIcons(tools[1..])
  }

  /** Tools with distinct names write distinct files, and none of them
      overwrites the main icon. */
  lemma IconPathsDistinct(tools: seq<Tool>, primary: string)
    requires forall i, j :: 0 <= i < j < |tools| ==> tools[i].name != tools[j].name
    ensures var icons := AllIcons(tools, primary);
            forall i, j :: 0 <= i < j < |icons| ==> icons[i].0 != icons[j].0
  {
    var icons := AllIcons(tools, primary);
    forall i, j | 0 <= i < j < |icons|
      ensures icons[i].0 != icons[j].0
    {
      var q := Destination(tools[j - 1].name);
      DestinationShape(tools[j - 1].name, tools[j - 1].name);
      if i > 0 {
        DestinationShape(tools[i - 1].name, tools[j - 1].name);
      } else {
        assert q[0] != MainIconPath[0];
      }
    }
  }
}
