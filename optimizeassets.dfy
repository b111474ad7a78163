/** The asset optimiser of the build scripts: the SVG rewriting chain, the
    decision to rewrite a file, the recursive search for SVG files and the size
    report, over a model of the working tree. */
module OptimizeAssets {
  import opened Wrappers
  import opened Strings
  import opened Seqs
  import opened Spacing
  import opened Scan

  // ---------------------------------------------------------------------
  // optimizeSVG

  /** `<!-- … -->` with the shortest body. */
  function StripXmlComments(s: string): (r: string)
    ensures |r| <= |s|
  {
    StripDelimited(s, "<!--", "-->")
  }

  /** End of a `<\?xml[^>]*\?>\s*` match at the front of `s`: the first `>`
      after `<?xml` must be preceded by a `?` that is not part of `<?xml`. */
  function DeclEnd(s: string): (r: Option<nat>)
    ensures r.Some? ==> 7 <= r.value <= |s|
  {
    if !StartsWith(s, "<?xml") then None
    else match FindFrom(s, ">", 5)
      case Some(j) =>
        if j >= 6 && s[j - 1] == '?' then Some(j + 1 + RunLength(s[j + 1..])) else None
      case None => None
  }

  // `s.replace(/<\?xml[^>]*\?>\s*/g, '')`.
  function StripXmlDecls(s: string): (r: string)
    ensures |r| <= |s|
    decreases |s|
  {
    if s == [] then []
    else match DeclEnd(s)
      case Some(e) => StripXmlDecls(s[e..])
      case None => [s[0]] + StripXmlDecls(s[1..])
  }

  /** The characters of `[a-z-]` under the `i` flag. */
  predicate NameChar(c: char) {
    'a' <= c <= 'z' || 'A' <= c <= 'Z' || c == '-'
  }

  function NameLength(s: string): (n: nat)
    ensures n <= |s|
    ensures n < |s| ==> !NameChar(s[n])
  {
    if s != [] && NameChar(s[0]) then 1 + NameLength(s[1..]) else 0
  }

  /** `s.replace(/\s+([a-z-]+=)/gi, ' $1')`: a whitespace run directly in front
      of an attribute name and its `=` becomes one space. */
  function AttrSpace(s: string): (r: string)
    ensures |r| <= |s|
    decreases |s|
  {
    if s == [] then []
    else if IsWhitespace(s[0]) then
      var k := RunLength(s);
      var rest := s[k..];
      var n := NameLength(rest);
      if 0 < n < |rest| && rest[n] == '=' then [' '] + rest[..n + 1] + AttrSpace(rest[n + 1..])
      else s[..k] + AttrSpace(rest)
    else [s[0]] + AttrSpace(s[1..])
  }

  predicate Digit(c: char) {
    '0' <= c <= '9'
  }

  /** `s.replace(/([^0-9])0\.([0-9])/g, '$1.$2')`. */
  function DropLeadingZeros(s: string): (r: string)
    ensures |r| <= |s|
    ensures |r| == 0 <==> |s| == 0
    ensures s != [] ==> r[0] == s[0] && r[|r| - 1] == s[|s| - 1]
    decreases |s|
  {
    if |s| < 4 then s
    else if !Digit(s[0]) && s[1] == '0' && s[2] == '.' && Digit(s[3]) then
      [s[0], '.', s[3]] + DropLeadingZeros(s[4..])
    else [s[0]] + DropLeadingZeros(s[1..])
  }

  /** `optimizeSVG(svgContent)`. */
  function Optimize(svg: string): (r: string)
    ensures |r| <= |svg|
  {
    var collapsed := Collapse(StripXmlDecls(StripXmlComments(svg)));
    var tags := DropAfter(DropBefore(collapsed, '<'), '>');
    Trim(DropLeadingZeros(AttrSpace(tags)))
  }

  /** Once whitespace is collapsed, the attribute-spacing step is a no-op. */
  lemma {:induction false} AttrSpaceIsIdentity(s: string)
    requires Collapsed(s)
    ensures AttrSpace(s) == s
    decreases |s|
  {
    if s == [] {
    } else if IsWhitespace(s[0]) {
      SingleSpace(s);
      var n := NameLength(s[1..]);
      if 0 < n < |s| - 1 && s[1..][n] == '=' {
        CollapsedSlice(s, n + 2, |s|);
        AttrSpaceIsIdentity(s[n + 2..]);
        SpaceBeforeName(s, n);
      } else {
        CollapsedSlice(s, 1, |s|);
        AttrSpaceIsIdentity(s[1..]);
        SpaceBeforeOther(s);
      }
    } else {
      CollapsedSlice(s, 1, |s|);
      AttrSpaceIsIdentity(s[1..]);
      HeadTail(s);
    }
  }

  lemma SpaceBeforeName(s: string, n: nat)
    requires s != [] && s[0] == ' ' && RunLength(s) == 1
    requires n == NameLength(s[1..]) && 0 < n < |s| - 1 && s[1..][n] == '='
    requires AttrSpace(s[n + 2..]) == s[n + 2..]
    ensures AttrSpace(s) == s
  {
    var rest := s[1..];
    assert IsWhitespace(s[0]) && s[RunLength(s)..] == rest;
    assert rest[n + 1..] == s[n + 2..];
    assert AttrSpace(s) == [' '] + rest[..n + 1] + AttrSpace(rest[n + 1..]);
    assert [' '] + rest[..n + 1] + rest[n + 1..] == s by {
      SplitAt(rest, n + 1);
    }
  }

  lemma SpaceBeforeOther(s: string)
    requires s != [] && s[0] == ' ' && RunLength(s) == 1
    requires !(0 < NameLength(s[1..]) < |s| - 1 && s[1..][NameLength(s[1..])] == '=')
    requires AttrSpace(s[1..]) == s[1..]
    ensures AttrSpace(s) == s
  {
    SplitAt(s, 1);
  }

  /** In collapsed text a whitespace run is one plain space. */
  lemma SingleSpace(s: string)
    requires Collapsed(s) && s != [] && IsWhitespace(s[0])
    ensures s[0] == ' ' && RunLength(s) == 1
  {
    if |s| > 1 {
      assert !IsWhitespace(s[1]);
    }
    assert RunLength(s[1..]) == 0;
  }

  lemma {:induction false} DropLeadingZerosGuards(s: string, before: set<char>, after: set<char>)
    requires '.' !in before && NoWs(before) && NoWs(after) && Guarded(s, before, after)
    ensures Guarded(DropLeadingZeros(s), before, after)
    decreases |s|
  {
    if |s| < 4 {
    } else if !Digit(s[0]) && s[1] == '0' && s[2] == '.' && Digit(s[3]) {
      GuardedSlice(s, 4, |s|, before, after);
      DropLeadingZerosGuards(s[4..], before, after);
      if |s| > 4 {
        assert PairOk(s[3], s[4], before, after);
      }
      GuardedConcat([s[0], '.', s[3]], DropLeadingZeros(s[4..]), before, after);
    } else {
      GuardedSlice(s, 1, |s|, before, after);
      DropLeadingZerosGuards(s[1..], before, after);
      assert PairOk(s[0], s[1], before, after);
      GuardedConcat([s[0]], DropLeadingZeros(s[1..]), before, after);
    }
  }

  lemma {:induction false} DropLeadingZerosCollapsed(s: string)
    requires Collapsed(s)
    ensures Collapsed(DropLeadingZeros(s))
    decreases |s|
  {
    if |s| < 4 {
    } else if !Digit(s[0]) && s[1] == '0' && s[2] == '.' && Digit(s[3]) {
      CollapsedSlice(s, 4, |s|);
      DropLeadingZerosCollapsed(s[4..]);
      CollapsedConcat([s[0], '.', s[3]], DropLeadingZeros(s[4..]));
    } else {
      CollapsedSlice(s, 1, |s|);
      DropLeadingZerosCollapsed(s[1..]);
      CollapsedConcat([s[0]], DropLeadingZeros(s[1..]));
    }
  }

  predicate NotZero(c: char) {
    c != '0'
  }

  /** Only `0` characters are ever deleted: everything else keeps its order. */
  lemma {:induction false} DropLeadingZerosKeepsOthers(s: string)
    ensures Filter(DropLeadingZeros(s), NotZero) == Filter(s, NotZero)
    decreases |s|
  {
    if |s| < 4 {
    } else if !Digit(s[0]) && s[1] == '0' && s[2] == '.' && Digit(s[3]) {
      DropLeadingZerosKeepsOthers(s[4..]);
      ZeroStep(s, DropLeadingZeros(s[4..]));
    } else {
      DropLeadingZerosKeepsOthers(s[1..]);
      FilterCons(s[0], DropLeadingZeros(s[1..]), NotZero);
      FilterCons(s[0], s[1..], NotZero);
      HeadTail(s);
    }
  }

  lemma ZeroStep(s: string, d: string)
    requires |s| >= 4 && s[1] == '0' && s[2] == '.'
    requires Filter(d, NotZero) == Filter(s[4..], NotZero)
    ensures Filter([s[0], '.', s[3]] + d, NotZero) == Filter(s, NotZero)
  {
    FilterCons(s[3], d, NotZero);
    FilterCons('.', [s[3]] + d, NotZero);
    FilterCons(s[0], ['.'] + ([s[3]] + d), NotZero);
    assert [s[0], '.', s[3]] + d == [s[0]] + (['.'] + ([s[3]] + d));
    assert Filter(s[3..], NotZero) == (if NotZero(s[3]) then [s[3]] else []) + Filter(s[4..], NotZero);
    assert Filter(s[2..], NotZero) == ['.'] + Filter(s[3..], NotZero);
    assert Filter(s[1..], NotZero) == Filter(s[2..], NotZero);
  }

  /** A `0.` right after a non-digit loses its zero; at the very start of the
      text, or after a digit, it stays. */
  lemma LeadingZeroExamples()
    ensures DropLeadingZeros(" 0.5") == " .5"
    ensures DropLeadingZeros("0.5") == "0.5"
    ensures DropLeadingZeros("10.5") == "10.5"
  {
    assert " 0.5"[4..] == [];
    assert "10.5"[1..] == "0.5";
  }

  /** The text after the tag-spacing steps: no whitespace before a `<` or
      after a `>`, and only single plain spaces. */
  lemma TagsShape(collapsed: string)
    requires Collapsed(collapsed)
    ensures var tags := DropAfter(DropBefore(collapsed, '<'), '>');
            Guarded(tags, {'<'}, {'>'}) && Collapsed(tags)
  {
    var e: set<char> := {};
    var lt := DropBefore(collapsed, '<');
    DropBeforeGuards(collapsed, '<', e, e);
    DropBeforeCollapsed(collapsed, '<');
    DropAfterGuards(lt, '>', e + {'<'}, e);
    DropAfterCollapsed(lt, '>');
    assert e + {'<'} == {'<'} && e + {'>'} == {'>'};
  }

  /** The shape of optimized SVG text: no whitespace before a `<` or after a
      `>`, only single plain spaces, and none at either end. */
  lemma OptimizeShape(svg: string)
    ensures var r := Optimize(svg);
            && Guarded(r, {'<'}, {'>'})
            && Collapsed(r)
            && (r == [] || (!IsWhitespace(r[0]) && !IsWhitespace(r[|r| - 1])))
  {
    var collapsed := Collapse(StripXmlDecls(StripXmlComments(svg)));
    CollapseCollapses(StripXmlDecls(StripXmlComments(svg)));
    var tags := DropAfter(DropBefore(collapsed, '<'), '>');
    TagsShape(collapsed);
    AttrSpaceIsIdentity(tags);
    var z := DropLeadingZeros(tags);
    DropLeadingZerosGuards(tags, {'<'}, {'>'});
    DropLeadingZerosCollapsed(tags);
    TrimKeeps(z, {'<'}, {'>'});
    assert Optimize(svg) == Trim(z);
  }

  /** A declaration and the whitespace after it disappear as one block. */
  lemma DeclBlock(body: string, ws: string, rest: string)
    requires '>' !in body && AllWhitespace(ws) && (rest == [] || !IsWhitespace(rest[0]))
    ensures StripXmlDecls("<?xml" + body + "?>" + ws + rest) == StripXmlDecls(rest)
  {
    var s := "<?xml" + body + "?>" + ws + rest;
    DeclEndOfBlock(body, ws, rest);
    assert s[|s| - |rest|..] == rest;
  }

  lemma DeclEndOfBlock(body: string, ws: string, rest: string)
    requires '>' !in body && AllWhitespace(ws) && (rest == [] || !IsWhitespace(rest[0]))
    ensures var s := "<?xml" + body + "?>" + ws + rest;
            DeclEnd(s) == Some(|s| - |rest|)
  {
    var s := "<?xml" + body + "?>" + ws + rest;
    var j := 5 + |body| + 1;
    assert s[..5] == "<?xml";
    assert s[5..j + 1] == body + "?>";
    FirstCloser(s, body, j);
    assert s[j - 1] == '?';
    assert s[j + 1..] == ws + rest;
    RunOfWhitespace(ws, rest);
    assert DeclEnd(s) == Some(j + 1 + |ws|);
  }

  lemma FirstCloser(s: string, body: string, j: nat)
    requires '>' !in body && j == 5 + |body| + 1 && j < |s|
    requires s[5..j + 1] == body + "?>"
    ensures FindFrom(s, ">", 5) == Some(j)
  {
    forall m | 5 <= m < j
      ensures !OccursAt(s, ">", m)
    {
      assert s[m] != '>' by {
        var t := s[5..j + 1];
        assert s[m] == t[m - 5];
        if m < j - 1 {
          assert t[m - 5] == body[m - 5];
        } else {
          assert t[m - 5] == '?';
        }
      }
      OccursAtChar(s, '>', m);
    }
    assert s[j] == s[5..j + 1][j - 5] == '>';
    OccursAtChar(s, '>', j);
    FindFromIs(s, ">", 5, j);
  }

  lemma {:induction false} RunOfWhitespace(ws: string, rest: string)
    requires AllWhitespace(ws) && (rest == [] || !IsWhitespace(rest[0]))
    ensures RunLength(ws + rest) == |ws|
    decreases |ws|
  {
    if ws != [] {
      assert (ws + rest)[1..] == ws[1..] + rest;
      RunOfWhitespace(ws[1..], rest);
    }
  }

  // ---------------------------------------------------------------------
  // The working tree

  /** What `fs` sees at a name: a directory, a regular file, or anything else
      (a symbolic link, a socket), for which both `isDirectory()` and
      `isFile()` are false. */
  datatype Node =
    | Directory(children: seq<Entry>, dirSize: nat)
    | RegularFile(content: string)
    | Special(specialSize: nat)

  datatype Entry = Entry(name: string, node: Node)

  /** Relative path below the working directory, one component per name. */
  type Path = seq<string>

  /** Bytes taken by one character in UTF-8. */
  function Utf8Width(c: char): nat {
    if c as int < 0x80 then 1
    else if c as int < 0x800 then 2
    else if c as int < 0x10000 then 3
    else 4
  }

  /** `Buffer.byteLength(s, 'utf8')`, and the size `stat` reports for a file
      holding `s`. */
  function Utf8Length(s: string): nat {
    SumOf(s, Utf8Width)
  }

  function NodeSize(n: Node): nat {
    match n
    case Directory(_, size) => size
    case RegularFile(content) => Utf8Length(content)
    case Special(size) => size
  }

  /** Index of the first entry called `name`. */
  function Named(entries: seq<Entry>, name: string): (r: Option<nat>)
    ensures r.Some? ==> r.value < |entries| && entries[r.value].name == name
    ensures r.Some? ==> forall k :: 0 <= k < r.value ==> entries[k].name != name
    ensures r.None? ==> forall k :: 0 <= k < |entries| ==> entries[k].name != name
  {
    if entries == [] then None
    else if entries[0].name == name then Some(0)
    else match Named(entries[1..], name)
      case Some(k) => Some(k + 1)
      case None => None
  }

  /** What `stat` finds at `path`. */
  function Resolve(entries: seq<Entry>, path: Path): Option<Node>
    decreases |path|
  {
    if path == [] then None
    else match Named(entries, path[0])
      case None => None
      case Some(i) =>
        if |path| == 1 then Some(entries[i].node)
        else if entries[i].node.Directory? then Resolve(entries[i].node.children, path[1..])
        else None
  }

  /** What `readFileSync` returns at `path`: the content of a regular file,
      or nothing (the read throws) for a missing path, a directory or a
      special file. */
  function FileContent(entries: seq<Entry>, path: Path): (r: Option<string>)
    ensures r.Some? <==> Resolve(entries, path).Some? && Resolve(entries, path).value.RegularFile?
    ensures r.Some? ==> Resolve(entries, path) == Some(RegularFile(r.value))
  {
    match Resolve(entries, path)
      case Some(RegularFile(content)) => Some(content)
      case _ => None
  }

  /** `writeFileSync` over an existing regular file: its content is replaced. */
  function Write(entries: seq<Entry>, path: Path, content: string): (r: seq<Entry>)
    ensures |r| == |entries|
    decreases |path|
  {
    if path == [] then entries
    else match Named(entries, path[0])
      case None => entries
      case Some(i) =>
        if |path| == 1 then
          if entries[i].node.RegularFile? then entries[i := Entry(path[0], RegularFile(content))]
          else entries
        else if entries[i].node.Directory? then
          var d := entries[i].node;
          entries[i := Entry(path[0], Directory(Write(d.children, path[1..], content), d.dirSize))]
        else entries
  }

  lemma {:induction false} WriteKeepsNames(entries: seq<Entry>, path: Path, content: string)
    ensures forall k :: 0 <= k < |entries| ==> Write(entries, path, content)[k].name == entries[k].name
    decreases |path|
  {
  }

  /** Reading back a file just written gives the new content. */
  lemma {:induction false} ResolveAfterWrite(entries: seq<Entry>, path: Path, content: string)
    requires Resolve(entries, path).Some? && Resolve(entries, path).value.RegularFile?
    ensures Resolve(Write(entries, path, content), path) == Some(RegularFile(content))
    decreases |path|
  {
    var i := Named(entries, path[0]).value;
    var w := Write(entries, path, content);
    WriteKeepsNames(entries, path, content);
    assert Named(w, path[0]) == Some(i);
    if |path| > 1 {
      ResolveAfterWrite(entries[i].node.children, path[1..], content);
    }
  }

  // ---------------------------------------------------------------------
  // processSVG

  datatype SvgResult = SvgResult(
    path: Path, originalSize: nat, optimizedSize: nat, reduction: real, optimized: bool)

  /** `(1 - reduced / original) * 100`: the share of the original size saved,
      as a percentage. */
  function SavedPercent(original: nat, reduced: nat): (r: real)
    requires original > 0
    ensures reduced < original ==> 0.0 < r <= 100.0
    ensures reduced == original ==> r == 0.0
    ensures reduced > original ==> r < 0.0
  {
    var ratio := reduced as real / original as real;
    RatioAgainstOne(reduced as real, original as real);
    (1.0 - ratio) * 100.0
  }

  /** The record processSVG returns for a file holding `content`. */
  function SvgOutcome(path: Path, content: string): SvgResult {
    var originalSize := Utf8Length(content);
    var optimizedSize := Utf8Length(Optimize(content));
    if optimizedSize < originalSize then
      SvgResult(path, originalSize, optimizedSize, SavedPercent(originalSize, optimizedSize), true)
    else SvgResult(path, originalSize, originalSize, 0.0, false)
  }

  /** A file is reported optimized exactly when the rewrite saves bytes, and
      the reported sizes and percentage then describe the saving. */
  lemma SvgOutcomeCases(path: Path, content: string)
    ensures var r := SvgOutcome(path, content);
            && r.originalSize == Utf8Length(content)
            && (r.optimized <==> Utf8Length(Optimize(content)) < Utf8Length(content))
            && r.optimizedSize <= r.originalSize
            && (r.optimized ==> r.optimizedSize < r.originalSize && 0.0 < r.reduction <= 100.0)
            && (!r.optimized ==> r.optimizedSize == r.originalSize && r.reduction == 0.0)
  {
  }

  lemma RatioAgainstOne(n: real, o: real)
    requires 0.0 <= n && 0.0 < o
    ensures 0.0 <= n / o
    ensures n < o ==> n / o < 1.0
    ensures n == o ==> n / o == 1.0
    ensures n > o ==> n / o > 1.0
  {
  }

  class Disk {
    var root: seq<Entry>

    constructor(root: seq<Entry>)
      ensures this.root == root
    {
      this.root := root;
    }

    /** `processSVG(filePath)`: a path that does not name a regular file
        yields `null`; otherwise the file is rewritten only when that makes it
        strictly smaller. */
    method ProcessSvg(path: Path) returns (result: Option<SvgResult>)
      modifies this
      ensures match FileContent(old(root), path)
        case Some(content) =>
          && result == Some(SvgOutcome(path, content))
          && root == (if result.value.optimized then Write(old(root), path, Optimize(content)) else old(root))
        case None => result == None && root == old(root)
    {
      var file := FileContent(root, path);
      if file.None? {
        result := None;
        return;
      }
      var content := file.value;
      var optimized := Optimize(content);
      var originalSize := Utf8Length(content);
      var optimizedSize := Utf8Length(optimized);
      if optimizedSize < originalSize {
        root := Write(root, path, optimized);
        var reduction := SavedPercent(originalSize, optimizedSize);
        result := Some(SvgResult(path, originalSize, optimizedSize, reduction, true));
      } else {
        result := Some(SvgResult(path, originalSize, originalSize, 0.0, false));
      }
    }
  }

  // ---------------------------------------------------------------------
  // findSVGFiles

  const IgnoredDirectories: set<string> := {"node_modules", ".git", "dist", "build"}

  /** The paths the walk collects from `entries`, found at `dir`, in visiting
      order. */
  function SvgFiles(dir: Path, entries: seq<Entry>): seq<Path>
    decreases entries
  {
    if entries == [] then []
    else SvgFiles(dir, entries[..|entries| - 1]) + EntrySvgs(dir, entries[|entries| - 1])
  }

  function EntrySvgs(dir: Path, e: Entry): seq<Path>
    decreases e
  {
    match e.node
    case Directory(children, _) =>
      if e.name in IgnoredDirectories then [] else SvgFiles(dir + [e.name], children)
    case RegularFile(_) => if EndsWith(e.name, ".svg") then [dir + [e.name]] else []
    case Special(_) => []
  }

  /** A path the walk may report: below `dir`, named `*.svg`, and reached only
      through directories that are not ignored. */
  predicate SvgPathBelow(dir: Path, p: Path) {
    && |p| > |dir| && p[..|dir|] == dir
    && EndsWith(p[|p| - 1], ".svg")
    && forall k :: |dir| <= k < |p| - 1 ==> p[k] !in IgnoredDirectories
  }

  lemma {:induction false} SvgFilesSound(dir: Path, entries: seq<Entry>)
    ensures forall p :: p in SvgFiles(dir, entries) ==> SvgPathBelow(dir, p)
    decreases entries
  {
    if entries != [] {
      SvgFilesSound(dir, entries[..|entries| - 1]);
      EntrySvgsSound(dir, entries[|entries| - 1]);
    }
  }

  lemma {:induction false} EntrySvgsSound(dir: Path, e: Entry)
    ensures forall p :: p in EntrySvgs(dir, e) ==> SvgPathBelow(dir, p)
    decreases e
  {
    match e.node
    case Directory(children, _) =>
      if e.name !in IgnoredDirectories {
        var sub := dir + [e.name];
        SvgFilesSound(sub, children);
        forall p | p in SvgFiles(sub, children)
          ensures SvgPathBelow(dir, p)
        {
          assert SvgPathBelow(sub, p);
          assert p[..|dir|] == p[..|sub|][..|dir|];
        }
      }
    case RegularFile(_) =>
    case Special(_) =>
  }

  /** Every `*.svg` regular file directly in `entries` is reported, and so is
      everything reported inside each directory that is not ignored. */
  lemma {:induction false} SvgFilesComplete(dir: Path, entries: seq<Entry>, i: nat)
    requires i < |entries|
    ensures forall p :: p in EntrySvgs(dir, entries[i]) ==> p in SvgFiles(dir, entries)
    decreases |entries|
  {
    if i < |entries| - 1 {
      SvgFilesComplete(dir, entries[..|entries| - 1], i);
      assert entries[..|entries| - 1][i] == entries[i];
    }
  }

  /** `walkDir(dir)`: visits the entries in order, recursing into directories
      that are not ignored and pushing every `*.svg` regular file. */
  method WalkDir(dir: Path, entries: seq<Entry>, svgFiles: seq<Path>) returns (found: seq<Path>)
    ensures found == svgFiles + SvgFiles(dir, entries)
    decreases entries
  {
    found := svgFiles;
    for i := 0 to |entries|
      invariant found == svgFiles + SvgFiles(dir, entries[..i])
    {
      var entry := entries[i];
      assert entries[..i + 1][..i] == entries[..i];
      match entry.node {
        case Directory(children, _) =>
          if entry.name !in IgnoredDirectories {
            found := WalkDir(dir + [entry.name], children, found);
          }
        case RegularFile(_) =>
          if EndsWith(entry.name, ".svg") {
            found := found + [dir + [entry.name]];
          }
        case Special(_) =>
      }
    }
    assert entries[..|entries|] == entries;
  }

  /** `findSVGFiles(rootDir)`. */
  method FindSvgFiles(root: seq<Entry>) returns (svgFiles: seq<Path>)
    ensures svgFiles == SvgFiles([], root)
  {
    svgFiles := WalkDir([], root, []);
  }

  // ---------------------------------------------------------------------
  // generateAssetReport

  datatype FileReport = FileReport(path: Path, size: nat, present: bool)

  /** `getFileReport(filePath)`. */
  function GetFileReport(root: seq<Entry>, path: Path): (r: FileReport)
    ensures r.present <==> Resolve(root, path).Some?
    ensures r.present ==> r.size == NodeSize(Resolve(root, path).value)
    ensures !r.present ==> r.size == 0
  {
    match Resolve(root, path)
    case Some(n) => FileReport(path, NodeSize(n), true)
    case None => FileReport(path, 0, false)
  }

  /** The percentage `((1 - minified / original) * 100)` with JavaScript's
      results for a zero original size. */
  datatype Reduction = Percent(value: real) | NotANumber | MinusInfinity

  function ReductionOf(original: nat, minified: nat): Reduction {
    if original > 0 then Percent(SavedPercent(original, minified))
    else if minified == 0 then NotANumber
    else MinusInfinity
  }

  datatype CssReport = CssReport(file: string, original: nat, minified: Option<nat>, reduction: Option<Reduction>)

  datatype AssetReport = AssetReport(
    svg: seq<FileReport>, css: seq<CssReport>, js: seq<FileReport>, ico: seq<FileReport>,
    totalSvg: nat, totalCss: nat, totalJs: nat, totalIco: nat)

  const CssDir: Path := ["shared", "design-system"]
  const CssFiles: seq<string> := ["variables.css", "base.css", "components.css", "utilities.css"]
  const JsDir: Path := ["shared", "utils"]
  const IcoPath: Path := ["shared", "assets", "favicon.ico"]

  /** `s.replace(pat, rep)` with a string pattern: only the first occurrence. */
  function ReplaceFirst(s: string, pat: string, rep: string): string
    decreases |s|
  {
    if StartsWith(s, pat) then rep + s[|pat|..]
    else if s == [] then []
    else [s[0]] + ReplaceFirst(s[1..], pat, rep)
  }

  function ReportSize(r: FileReport): nat {
    r.size
  }

  function CssOriginal(r: CssReport): nat {
    r.original
  }

  /** The reports kept for `paths`: those whose target exists, in order. */
  function ExistingReports(root: seq<Entry>, paths: seq<Path>): (r: seq<FileReport>)
    ensures forall k :: 0 <= k < |r| ==> r[k].present
    decreases |paths|
  {
    if paths == [] then []
    else
      var last := GetFileReport(root, paths[|paths| - 1]);
      ExistingReports(root, paths[..|paths| - 1]) + (if last.present then [last] else [])
  }

  function CssEntry(root: seq<Entry>, file: string): Option<CssReport> {
    var original := GetFileReport(root, CssDir + [file]);
    var minified := GetFileReport(root, CssDir + [ReplaceFirst(file, ".css", ".min.css")]);
    if !original.present then None
    else Some(CssReport(file, original.size,
                        if minified.present then Some(minified.size) else None,
                        if minified.present then Some(ReductionOf(original.size, minified.size)) else None))
  }

  function CssReports(root: seq<Entry>, files: seq<string>): seq<CssReport>
    decreases |files|
  {
    if files == [] then []
    else
      var last := CssEntry(root, files[|files| - 1]);
      CssReports(root, files[..|files| - 1]) + (if last.Some? then [last.value] else [])
  }

  /** Names `readdirSync(jsDir)` lists that end in `.js`, as paths. */
  function JsPaths(root: seq<Entry>): seq<Path> {
    match Resolve(root, JsDir)
    case Some(Directory(children, _)) => JsPathsOf(children)
    case _ => []
  }

  function JsPathsOf(children: seq<Entry>): seq<Path>
    decreases |children|
  {
    if children == [] then []
    else
      var name := children[|children| - 1].name;
      JsPathsOf(children[..|children| - 1]) + (if EndsWith(name, ".js") then [JsDir + [name]] else [])
  }

  lemma {:induction false} CssReductionPresence(root: seq<Entry>, files: seq<string>)
    ensures forall r :: r in CssReports(root, files) ==> (r.reduction.None? <==> r.minified.None?)
    decreases |files|
  {
    if files != [] {
      CssReductionPresence(root, files[..|files| - 1]);
    }
  }

  /** `generateAssetReport(rootDir)`: every category keeps the reports of the
      files that exist, in order, and its total is the sum of their sizes. */
  method GenerateAssetReport(root: seq<Entry>) returns (report: AssetReport)
    ensures report.svg == ExistingReports(root, SvgFiles([], root))
    ensures report.css == CssReports(root, CssFiles)
    ensures report.js == ExistingReports(root, JsPaths(root))
    ensures report.ico == ExistingReports(root, [IcoPath])
    ensures report.totalSvg == SumOf(report.svg, ReportSize)
    ensures report.totalCss == SumOf(report.css, CssOriginal)
    ensures report.totalJs == SumOf(report.js, ReportSize)
    ensures report.totalIco == SumOf(report.ico, ReportSize)
  {
    var svgFiles := FindSvgFiles(root);
    var svg, totalSvg := SumExisting(root, svgFiles);

    var css, totalCss := CssSection(root, CssFiles);

    var jsPaths := JsPaths(root);
    var js, totalJs := SumExisting(root, jsPaths);
    var ico, totalIco := SumExisting(root, [IcoPath]);
    report := AssetReport(svg, css, js, ico, totalSvg, totalCss, totalJs, totalIco);
  }

  /** The CSS `forEach` of the report: each listed file that exists, with
      its minified twin when that exists too. */
  method CssSection(root: seq<Entry>, files: seq<string>) returns (css: seq<CssReport>, totalCss: nat)
    ensures css == CssReports(root, files)
    ensures totalCss == SumOf(css, CssOriginal)
  {
    css, totalCss := [], 0;
    for i := 0 to |files|
      invariant css == CssReports(root, files[..i])
      invariant totalCss == SumOf(css, CssOriginal)
    {
      var file := files[i];
      assert files[..i + 1][..i] == files[..i];
      var original := GetFileReport(root, CssDir + [file]);
      var minified := GetFileReport(root, CssDir + [ReplaceFirst(file, ".css", ".min.css")]);
      if original.present {
        var entry := CssReport(file, original.size,
                               if minified.present then Some(minified.size) else None,
                               if minified.present then Some(ReductionOf(original.size, minified.size)) else None);
        SumOfSnoc(css, entry, CssOriginal);
        css := css + [entry];
        totalCss := totalCss + original.size;
      }
    }
    assert files[..|files|] == files;
  }

  /** One `forEach` of the report: keep the existing files and add up their
      sizes. */
  method SumExisting(root: seq<Entry>, paths: seq<Path>) returns (reports: seq<FileReport>, total: nat)
    ensures reports == ExistingReports(root, paths)
    ensures total == SumOf(reports, ReportSize)
  {
    reports, total := [], 0;
    for i := 0 to |paths|
      invariant reports == ExistingReports(root, paths[..i])
      invariant total == SumOf(reports, ReportSize)
    {
      assert paths[..i + 1][..i] == paths[..i];
      var fileReport := GetFileReport(root, paths[i]);
      if fileReport.present {
        SumOfSnoc(reports, fileReport, ReportSize);
        reports := reports + [fileReport];
        total := total + fileReport.size;
      }
    }
    assert paths[..|paths|] == paths;
  }
}
