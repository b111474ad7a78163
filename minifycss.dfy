/** The CSS minifier of the build scripts: comment deletion, whitespace
    removal around punctuation, whitespace collapsing, trimming and whitespace
    removal before at-rules, each step one global `replace`. */
module MinifyCss {
  import opened Strings
  import opened Spacing
  import opened Scan

  /** The characters around which whitespace is removed, in the order of the
      replacements. */
  const PunctuationOrder: string := "{}:;,>+~"

  const Punctuation: set<char> := set c | c in PunctuationOrder

  lemma PunctuationIsNotWhitespace()
    ensures NoWs(Punctuation)
    ensures forall i :: 0 <= i < |PunctuationOrder| ==> !IsWhitespace(PunctuationOrder[i])
  {
  }

  // The comment-deletion step: from "/*" up to the first "*/" after it; a
  // comment opening with "/*!" goes as well.
  function StripComments(css: string): (r: string)
    ensures |r| <= |css|
  {
    StripDelimited(css, "/*", "*/")
  }

  /** One `\s*c\s*` replacement for each character of `cs`, in order. */
  function TightenEach(s: string, cs: string): (r: string)
    requires forall i :: 0 <= i < |cs| ==> !IsWhitespace(cs[i])
    ensures |r| <= |s|
    decreases |cs|
  {
    if cs == [] then s else TightenEach(Tighten(s, cs[0]), cs[1..])
  }

  /** The eight replacements of the first pass, in source order. */
  function TightenPunctuation(s: string): (r: string)
    ensures |r| <= |s|
  {
    PunctuationIsNotWhitespace();
    TightenEach(s, PunctuationOrder)
  }

  /** `minifyCSS(css)`. */
  function Minify(css: string): (r: string)
    ensures |r| <= |css|
  {
    var collapsed := Collapse(TightenPunctuation(StripComments(css)));
    var braces := Tighten(Tighten(collapsed, '{'), '}');
    DropBefore(Trim(braces), '@')
  }

  lemma {:induction false} TightenEachGuards(s: string, cs: string, before: set<char>, after: set<char>)
    requires forall i :: 0 <= i < |cs| ==> !IsWhitespace(cs[i])
    requires NoWs(before) && NoWs(after) && Guarded(s, before, after)
    ensures Guarded(TightenEach(s, cs), before + (set c | c in cs), after + (set c | c in cs))
    decreases |cs|
  {
    if cs != [] {
      TightenGuards(s, cs[0], before, after);
      TightenEachGuards(Tighten(s, cs[0]), cs[1..], before + {cs[0]}, after + {cs[0]});
      assert (set c | c in cs) == {cs[0]} + (set c | c in cs[1..]);
    }
  }

  lemma TightenPunctuationGuards(s: string)
    ensures Guarded(TightenPunctuation(s), Punctuation, Punctuation)
  {
    PunctuationIsNotWhitespace();
    var e: set<char> := {};
    TightenEachGuards(s, PunctuationOrder, e, e);
    assert e + Punctuation == Punctuation;
  }

  /** The second pass around braces (after collapsing) never changes anything:
      no whitespace can touch a brace at that point. */
  lemma SecondBracePassIsIdentity(css: string)
    ensures var collapsed := Collapse(TightenPunctuation(StripComments(css)));
            Tighten(Tighten(collapsed, '{'), '}') == collapsed
  {
    PunctuationIsNotWhitespace();
    var tightened := TightenPunctuation(StripComments(css));
    TightenPunctuationGuards(StripComments(css));
    CollapseGuards(tightened, Punctuation, Punctuation);
    var collapsed := Collapse(tightened);
    GuardedWeaken(collapsed, Punctuation, Punctuation, {'{'}, {'{'});
    TightenNoop(collapsed, '{');
    GuardedWeaken(collapsed, Punctuation, Punctuation, {'}'}, {'}'});
    TightenNoop(collapsed, '}');
  }

  /** The shape of minified CSS: no whitespace next to any punctuation
      character, none before an `@`, only single plain spaces, and none at
      either end. */
  lemma MinifyShape(css: string)
    ensures var r := Minify(css);
            && Guarded(r, Punctuation + {'@'}, Punctuation)
            && Collapsed(r)
            && (r == [] || (!IsWhitespace(r[0]) && !IsWhitespace(r[|r| - 1])))
  {
    PunctuationIsNotWhitespace();
    var collapsed := Collapse(TightenPunctuation(StripComments(css)));
    BeforeTrim(css);
    SecondBracePassIsIdentity(css);
    TrimDropShape(collapsed, Punctuation);
  }

  /** After collapsing, no whitespace touches punctuation and every run is a
      single space. */
  lemma BeforeTrim(css: string)
    ensures var collapsed := Collapse(TightenPunctuation(StripComments(css)));
            Guarded(collapsed, Punctuation, Punctuation) && Collapsed(collapsed)
  {
    PunctuationIsNotWhitespace();
    var tightened := TightenPunctuation(StripComments(css));
    TightenPunctuationGuards(StripComments(css));
    CollapseGuards(tightened, Punctuation, Punctuation);
    CollapseCollapses(tightened);
  }

  /** Trimming a guarded, collapsed string and then dropping the whitespace
      before `@` keeps it so, guards `@` as well and leaves no whitespace at
      either end. */
  lemma TrimDropShape(s: string, g: set<char>)
    requires NoWs(g) && Guarded(s, g, g) && Collapsed(s)
    ensures var r := DropBefore(Trim(s), '@');
            && Guarded(r, g + {'@'}, g)
            && Collapsed(r)
            && (r == [] || (!IsWhitespace(r[0]) && !IsWhitespace(r[|r| - 1])))
  {
    TrimKeeps(s, g, g);
    var trimmed := Trim(s);
    DropBeforeGuards(trimmed, '@', g, g);
    DropBeforeCollapsed(trimmed, '@');
  }

  lemma Mismatch(s: string, p: string, i: nat)
    requires i < |s| && i < |p| && s[i] != p[i]
    ensures !StartsWith(s, p)
  {
  }

  lemma NoOpenerInTail()
    ensures !Contains("*y*/", "/*")
  {
    var tail := "*y*/";
    Mismatch(tail, "/*", 0);
    Mismatch("y*/", "/*", 0);
    Mismatch("*/", "/*", 0);
    assert tail[1..] == "y*/" && tail[2..] == "*/" && tail[3..] == "/";
    assert !StartsWith("/", "/*");
  }

  lemma NoCloserInBody()
    ensures !Contains("x" + ("*/")[..|"*/"| - 1], "*/")
  {
    assert "x" + ("*/")[..|"*/"| - 1] == "x*";
    Mismatch("x*", "*/", 0);
    assert "x*"[1..] == "*" && !StartsWith("*", "*/");
  }

  lemma SpliceTail()
    ensures StripDelimited("/*x*/*y*/", "/*", "*/") == "*y*/"
  {
    NoOpenerInTail();
    StripWithoutOpen("*y*/", "/*", "*/");
    NoCloserInBody();
    StripBlock("/*", "x", "*/", "*y*/");
    assert "/*" + "x" + "*/" + "*y*/" == "/*x*/*y*/";
  }

  // Comment deletion is a single left-to-right pass: deleting one comment can
  // bring a new "/*" together, which then survives.
  lemma CommentSplice()
    ensures StripComments("//*x*/*y*/") == "/*y*/"
  {
    var s := "//*x*/*y*/";
    Mismatch(s, "/*", 1);
    assert StripComments(s) == [s[0]] + StripDelimited(s[1..], "/*", "*/");
    assert s[1..] == "/*x*/*y*/";
    SpliceTail();
  }
}
