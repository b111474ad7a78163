/** The security headers every native Node server of the toolbox sets: fixed
    values for content sniffing, framing, referrer and browser features, and
    a Content-Security-Policy built from a default directive table merged with
    the caller's directives. */
module SecurityHeaders {
  import opened Wrappers
  import opened Strings
  import opened Seqs
  import opened Http

  /** The sources of one directive: a list joined with spaces, or a string
      used as it is. */
  datatype Sources = SourceList(items: seq<string>) | Verbatim(text: string)

  /** A directive table, in the key order of the object it models. */
  type Policy = seq<(string, Sources)>

  /** The default directives, in their order. */
  const DefaultPolicy: Policy := [
    ("default-src", SourceList([SelfSource])),
    ("script-src", SourceList([SelfSource, UnsafeInline])),
    ("style-src", SourceList([SelfSource, UnsafeInline])),
    ("img-src", SourceList([SelfSource, DataScheme])),
    ("font-src", SourceList([SelfSource])),
    ("connect-src", SourceList([SelfSource]))
  ]

  const SelfSource: string := "'self'"
  const UnsafeInline: string := "'unsafe-inline'"
  const DataScheme: string := "data:"

  /** Object keys are unique. */
  predicate DistinctDirectives(p: Policy) {
    forall i, j :: 0 <= i < j < |p| ==> p[i].0 != p[j].0
  }

  /** Where the directive called `name` sits, if present. */
  function IndexOf(p: Policy, name: string): (r: Option<nat>)
    ensures r.Some? ==> r.value < |p| && p[r.value].0 == name
    ensures r.Some? ==> forall k :: 0 <= k < r.value ==> p[k].0 != name
    ensures r.None? ==> forall k :: 0 <= k < |p| ==> p[k].0 != name
  {
    if p == [] then None
    else if p[0].0 == name then Some(0)
    else match IndexOf(p[1..], name)
      case Some(k) => Some(k + 1)
      case None => None
  }

  /** The sources of the directive called `name`, if present. */
  function ValueOf(p: Policy, name: string): (r: Option<Sources>)
    ensures r.Some? <==> exists k :: 0 <= k < |p| && p[k].0 == name
  {
    match IndexOf(p, name)
    case Some(k) => Some(p[k].1)
    case None => None
  }

  function NameOf(d: (string, Sources)): string {
    d.0
  }

  /** The directive names, in order. */
  function Names(p: Policy): (r: seq<string>)
    ensures |r| == |p|
  {
    MapSeq(p, NameOf)
  }

  /** Assigning one key of an object: a present key keeps its place and
      takes the new sources, a new key goes last. */
  function Put(p: Policy, name: string, s: Sources): (r: Policy)
    ensures IndexOf(p, name).None? ==> r == p + [(name, s)]
  {
    match IndexOf(p, name)
    case Some(k) => p[k := (name, s)]
    case None => p + [(name, s)]
  }

  /** `{ ...base, ...custom }`. */
  function Merge(base: Policy, custom: Policy): (r: Policy)
    decreases |custom|
  {
    if custom == [] then base else Merge(Put(base, custom[0].0, custom[0].1), custom[1..])
  }

  /** The keys of `custom` a merge into an object with keys `known` adds,
      in the order they are added. */
  function Added(custom: Policy, known: seq<string>): seq<string>
    decreases |custom|
  {
    if custom == [] then []
    else if custom[0].0 in known then Added(custom[1..], known)
    else [custom[0].0] + Added(custom[1..], known + [custom[0].0])
  }

  function RenderSources(s: Sources): string {
    match s
    case SourceList(items) => Join(items, " ")
    case Verbatim(text) => text
  }

  /** One directive: its name, a space, its sources. */
  function RenderDirective(d: (string, Sources)): string {
    d.0 + " " + RenderSources(d.1)
  }

  /** The Content-Security-Policy header value. */
  function Render(p: Policy): string {
    Join(MapSeq(p, RenderDirective), "; ")
  }

  /** Reading a header value back: split at ';', drop the one space the
      separator left, then split the directive at spaces. */
  function DropSpace(piece: string): string {
    if piece != [] && piece[0] == ' ' then piece[1..] else piece
  }

  function ReadDirective(piece: string): (string, Sources) {
    var words := Split(DropSpace(piece), ' ');
    (words[0], SourceList(words[1..]))
  }

  function ReadPolicy(text: string): (r: Policy)
    ensures |r| == |Split(text, ';')|
  {
    MapSeq(Split(text, ';'), ReadDirective)
  }

  /** A directive whose rendering can be read back: a name and at least one
      source, none holding a space or a semicolon. */
  predicate Plain(s: string) {
    ' ' !in s && ';' !in s
  }

  predicate WellFormedDirective(d: (string, Sources)) {
    d.0 != [] && Plain(d.0) && d.1.SourceList? && |d.1.items| >= 1
    && forall k :: 0 <= k < |d.1.items| ==> Plain(d.1.items[k])
  }

  predicate WellFormed(p: Policy) {
    p != [] && forall k :: 0 <= k < |p| ==> WellFormedDirective(p[k])
  }

  /** The options of `setSecurityHeaders`; `None` is a missing option. */
  datatype SecurityOptions = SecurityOptions(
    csp: Policy,
    frameOptions: Option<string>,
    referrerPolicy: Option<string>,
    permissionsPolicy: Option<string>)

  /** The five headers, in the order they are set. */
  function SecurityHeaderList(o: SecurityOptions): (r: Headers)
    ensures |r| == 5
  {
    [ ("X-Content-Type-Options", "nosniff"),
      ("X-Frame-Options", o.frameOptions.GetOr("DENY")),
      ("Referrer-Policy", o.referrerPolicy.GetOr("strict-origin-when-cross-origin")),
      ("Permissions-Policy", o.permissionsPolicy.GetOr("geolocation=(), microphone=(), camera=()")),
      ("Content-Security-Policy", Render(Merge(DefaultPolicy, o.csp))) ]
  }

  /** `setSecurityHeaders(res, options)`. */
  method SetSecurityHeaders(res: Response, o: SecurityOptions)
    modifies res
    ensures res.headers == WithHeaders(old(res.headers), SecurityHeaderList(o))
    ensures res.statusCode == old(res.statusCode) && res.ended == old(res.ended)
    ensures res.payload == old(res.payload)
  {
    var list := SecurityHeaderList(o);
    ghost var start := res.headers;
    assert list[..0] == [];
    SetNext(start, list, 0);
    res.SetHeader(list[0].0, list[0].1);
    assert res.headers == WithHeaders(start, list[..1]);
    SetNext(start, list, 1);
    res.SetHeader(list[1].0, list[1].1);
    assert res.headers == WithHeaders(start, list[..2]);
    SetNext(start, list, 2);
    res.SetHeader(list[2].0, list[2].1);
    assert res.headers == WithHeaders(start, list[..3]);
    SetNext(start, list, 3);
    res.SetHeader(list[3].0, list[3].1);
    assert res.headers == WithHeaders(start, list[..4]);
    SetNext(start, list, 4);
    res.SetHeader(list[4].0, list[4].1);
    assert res.headers == WithHeaders(start, list[..5]);
    assert list[..5] == list;
  }

  // ----- The merge -----

  lemma {:induction false} PutLookup(p: Policy, name: string, s: Sources, other: string)
    ensures ValueOf(Put(p, name, s), other) == if other == name then Some(s) else ValueOf(p, other)
  {
    var r := Put(p, name, s);
    match IndexOf(p, name)
    case Some(k) =>
      assert r[k] == (name, s);
      if other != name {
        ReplacedSlot(p, k, (name, s), other);
      }
    case None =>
      assert r[|p|] == (name, s);
      if other != name {
        AppendedSlot(p, (name, s), other);
      }
  }

  lemma ReplacedSlot(p: Policy, k: nat, d: (string, Sources), other: string)
    requires k < |p| && p[k].0 == d.0 && other != d.0
    ensures ValueOf(p[k := d], other) == ValueOf(p, other)
  {
    var r := p[k := d];
    match IndexOf(p, other)
    case Some(m) =>
      assert r[m] == p[m];
      FirstAt(r, other, m);
    case None =>
      assert forall j :: 0 <= j < |r| ==> r[j].0 != other;
  }

  lemma AppendedSlot(p: Policy, d: (string, Sources), other: string)
    requires other != d.0
    ensures ValueOf(p + [d], other) == ValueOf(p, other)
  {
    var r := p + [d];
    match IndexOf(p, other)
    case Some(m) =>
      assert r[m] == p[m];
      FirstAt(r, other, m);
    case None =>
      assert forall j :: 0 <= j < |r| ==> r[j].0 != other;
  }

  lemma {:induction false} FirstAt(p: Policy, name: string, k: nat)
    requires k < |p| && p[k].0 == name && forall j :: 0 <= j < k ==> p[j].0 != name
    ensures IndexOf(p, name) == Some(k)
    decreases k
  {
    if k > 0 {
      FirstAt(p[1..], name, k - 1);
    }
  }

  /** After the merge a key reads as the caller gave it when the caller gave
      it, and as the base had it otherwise. */
  lemma {:induction false} MergeLookup(base: Policy, custom: Policy, name: string)
    requires DistinctDirectives(custom)
    ensures ValueOf(Merge(base, custom), name)
         == if ValueOf(custom, name).Some? then ValueOf(custom, name) else ValueOf(base, name)
    decreases |custom|
  {
    if custom != [] {
      var rest := custom[1..];
      assert DistinctDirectives(rest) by {
        forall i, j | 0 <= i < j < |rest| ensures rest[i].0 != rest[j].0 {
          assert rest[i] == custom[i + 1] && rest[j] == custom[j + 1];
        }
      }
      MergeLookup(Put(base, custom[0].0, custom[0].1), rest, name);
      PutLookup(base, custom[0].0, custom[0].1, name);
      HeadLookup(custom, name);
    }
  }

  lemma HeadLookup(custom: Policy, name: string)
    requires custom != [] && DistinctDirectives(custom)
    ensures ValueOf(custom, name)
         == if custom[0].0 == name then Some(custom[0].1) else ValueOf(custom[1..], name)
  {
    if custom[0].0 == name {
      forall j | 0 <= j < |custom[1..]|
        ensures custom[1..][j].0 != name
      {
        assert custom[1..][j] == custom[j + 1];
      }
    }
  }

  lemma NamesPut(p: Policy, name: string, s: Sources)
    ensures Names(Put(p, name, s)) == if name in Names(p) then Names(p) else Names(p) + [name]
  {
    var r := Put(p, name, s);
    if name in Names(p) {
      var i :| 0 <= i < |p| && Names(p)[i] == name;
      assert p[i].0 == name;
      var k := IndexOf(p, name).value;
      assert forall j :: 0 <= j < |p| ==> Names(r)[j] == Names(p)[j];
    } else {
      assert forall j :: 0 <= j < |p| ==> p[j].0 != name by {
        forall j | 0 <= j < |p| ensures p[j].0 != name {
          assert Names(p)[j] == p[j].0;
        }
      }
      assert forall j :: 0 <= j < |r| ==> Names(r)[j] == (Names(p) + [name])[j];
    }
  }

  /** The merged object keeps the base's keys in their places and appends the
      caller's new keys in the caller's order. */
  lemma {:induction false} MergeNames(base: Policy, custom: Policy)
    ensures Names(Merge(base, custom)) == Names(base) + Added(custom, Names(base))
    decreases |custom|
  {
    if custom != [] {
      var next := Put(base, custom[0].0, custom[0].1);
      MergeNames(next, custom[1..]);
      NamesPut(base, custom[0].0, custom[0].1);
    }
  }

  /** Merging changes nothing about the base when the caller gives nothing. */
  lemma MergeNothing(base: Policy)
    ensures Merge(base, []) == base
  {
  }

  // ----- The header value -----

  /** The pieces the header value splits into at ';'. */
  function SpacedDirective(d: (string, Sources)): string {
    " " + RenderDirective(d)
  }

  lemma DirectiveAvoids(d: (string, Sources))
    requires WellFormedDirective(d)
    ensures ';' !in RenderDirective(d)
    ensures Split(RenderDirective(d), ' ') == [d.0] + d.1.items
  {
    JoinAvoids(d.1.items, " ", ';');
    SplitAfter(d.0, ' ', Join(d.1.items, " "));
    JoinSplit(d.1.items, ' ');
    assert RenderDirective(d) == d.0 + [' '] + Join(d.1.items, [' ']);
  }

  lemma ReadsBack(d: (string, Sources))
    requires WellFormedDirective(d)
    ensures ReadDirective(RenderDirective(d)) == d
    ensures ReadDirective(SpacedDirective(d)) == d
  {
    DirectiveAvoids(d);
    assert RenderDirective(d)[0] == d.0[0];
    assert SpacedDirective(d)[1..] == RenderDirective(d);
  }

  lemma {:induction false} RenderSplits(p: Policy)
    requires WellFormed(p)
    ensures Split(Render(p), ';') == [RenderDirective(p[0])] + MapSeq(p[1..], SpacedDirective)
    decreases |p|
  {
    DirectiveAvoids(p[0]);
    if |p| == 1 {
      RenderOne(p);
    } else {
      WellFormedTail(p);
      RenderSplits(p[1..]);
      RenderSplitsStep(p);
    }
  }

  lemma RenderOne(p: Policy)
    requires |p| == 1 && ';' !in RenderDirective(p[0])
    ensures Split(Render(p), ';') == [RenderDirective(p[0])] + MapSeq(p[1..], SpacedDirective)
  {
    var d := RenderDirective(p[0]);
    assert MapSeq(p, RenderDirective) == [d];
    assert Render(p) == d;
    SplitNoSep(d, ';');
    assert p[1..] == [];
    assert MapSeq(p[1..], SpacedDirective) == [];
  }

  lemma WellFormedTail(p: Policy)
    requires WellFormed(p) && |p| >= 2
    ensures WellFormed(p[1..])
  {
    forall k | 0 <= k < |p| - 1
      ensures WellFormedDirective(p[1..][k])
    {
      assert p[1..][k] == p[k + 1];
    }
  }

  lemma RenderSplitsStep(p: Policy)
    requires |p| >= 2 && ';' !in RenderDirective(p[0])
    requires Split(Render(p[1..]), ';') == [RenderDirective(p[1])] + MapSeq(p[2..], SpacedDirective)
    ensures Split(Render(p), ';') == [RenderDirective(p[0])] + MapSeq(p[1..], SpacedDirective)
  {
    var rest := p[1..];
    assert rest[0] == p[1] && rest[1..] == p[2..];
    RenderCons(p);
    SplitAfter(RenderDirective(p[0]), ';', [' '] + Render(rest));
    SpaceSplit(Render(rest), RenderDirective(p[1]), MapSeq(p[2..], SpacedDirective));
    MapSeqCons(rest, SpacedDirective);
  }

  lemma RenderCons(p: Policy)
    requires |p| >= 2
    ensures Render(p) == RenderDirective(p[0]) + [';'] + ([' '] + Render(p[1..]))
  {
    var parts := MapSeq(p, RenderDirective);
    assert parts[1..] == MapSeq(p[1..], RenderDirective);
  }

  lemma SpaceSplit(x: string, first: string, more: seq<string>)
    requires Split(x, ';') == [first] + more
    ensures Split([' '] + x, ';') == [" " + first] + more
  {
    assert ([' '] + x)[1..] == x;
  }

  /** Reading the header value back gives the directive table, for any table
      whose names and sources hold no space or semicolon. */
  lemma RenderRoundTrip(p: Policy)
    requires WellFormed(p)
    ensures ReadPolicy(Render(p)) == p
  {
    RenderSplits(p);
    var pieces := Split(Render(p), ';');
    forall k | 0 <= k < |p|
      ensures ReadPolicy(Render(p))[k] == p[k]
    {
      ReadsBack(p[k]);
      if k > 0 {
        assert pieces[k] == SpacedDirective(p[k]);
      }
    }
  }

  lemma DefaultWellFormed()
    ensures WellFormed(DefaultPolicy)
  {
    SourcesPlain();
    DefaultNamesPlain();
    var p := DefaultPolicy;
    SixWellFormed(p);
  }

  lemma SourcesPlain()
    ensures Plain(SelfSource) && Plain(UnsafeInline) && Plain(DataScheme)
  {
  }

  lemma DefaultNamesPlain()
    ensures forall k :: 0 <= k < 6 ==> DefaultPolicy[k].0 != [] && Plain(DefaultPolicy[k].0)
  {
    var p := DefaultPolicy;
    assert Plain(p[0].0) && Plain(p[1].0) && Plain(p[2].0);
    assert Plain(p[3].0) && Plain(p[4].0) && Plain(p[5].0);
  }

  lemma DefaultDistinct()
    ensures DistinctDirectives(DefaultPolicy)
  {
    var p := DefaultPolicy;
    assert |p[0].0| == 11 && |p[1].0| == 10 && |p[2].0| == 9;
    assert |p[3].0| == 7 && |p[4].0| == 8 && |p[5].0| == 11 && p[0].0[0] != p[5].0[0];
    SixDistinct(p);
  }

  lemma SixWellFormed(p: Policy)
    requires |p| == 6
    requires WellFormedDirective(p[0]) && WellFormedDirective(p[1]) && WellFormedDirective(p[2])
    requires WellFormedDirective(p[3]) && WellFormedDirective(p[4]) && WellFormedDirective(p[5])
    ensures WellFormed(p)
  {
  }

  lemma SixDistinct(p: Policy)
    requires |p| == 6
    requires |p[0].0| != |p[1].0| && |p[0].0| != |p[2].0| && |p[0].0| != |p[3].0| && |p[0].0| != |p[4].0|
    requires |p[1].0| != |p[2].0| && |p[1].0| != |p[3].0| && |p[1].0| != |p[4].0| && |p[1].0| != |p[5].0|
    requires |p[2].0| != |p[3].0| && |p[2].0| != |p[4].0| && |p[2].0| != |p[5].0|
    requires |p[3].0| != |p[4].0| && |p[3].0| != |p[5].0| && |p[4].0| != |p[5].0|
    requires p[0].0 != p[5].0
    ensures DistinctDirectives(p)
  {
  }

  // ----- The headers -----

  lemma HeaderNamesDistinct(o: SecurityOptions)
    ensures DistinctNames(SecurityHeaderList(o))
  {
    var list := SecurityHeaderList(o);
    var n0, n1, n2, n3, n4 := list[0].0, list[1].0, list[2].0, list[3].0, list[4].0;
    assert |n0| == 22 && |n1| == 15 && |n2| == 15 && |n3| == 18 && |n4| == 23;
    assert n1[0] == 'X' && n2[0] == 'R';
    NamesDiffer(n0, n1); NamesDiffer(n0, n2); NamesDiffer(n0, n3); NamesDiffer(n0, n4);
    NamesDifferAt(n1, n2, 0); NamesDiffer(n1, n3); NamesDiffer(n1, n4);
    NamesDiffer(n2, n3); NamesDiffer(n2, n4); NamesDiffer(n3, n4);
    DistinctFive(list);
  }

  lemma DistinctFive(list: Headers)
    requires |list| == 5
    requires !SameName(list[0].0, list[1].0) && !SameName(list[0].0, list[2].0)
    requires !SameName(list[0].0, list[3].0) && !SameName(list[0].0, list[4].0)
    requires !SameName(list[1].0, list[2].0) && !SameName(list[1].0, list[3].0)
    requires !SameName(list[1].0, list[4].0) && !SameName(list[2].0, list[3].0)
    requires !SameName(list[2].0, list[4].0) && !SameName(list[3].0, list[4].0)
    ensures DistinctNames(list)
  {
  }

  /** After `setSecurityHeaders` each of the five headers reads as the
      options (or their defaults) give it, the policy reads back as the merge
      of the defaults with the caller's directives, and every other header is
      as it was. */
  lemma SecurityHeadersSet(hs: Headers, o: SecurityOptions, other: string)
    ensures var after := WithHeaders(hs, SecurityHeaderList(o));
      && GetHeader(after, "X-Content-Type-Options") == Some("nosniff")
      && GetHeader(after, "X-Frame-Options") == Some(o.frameOptions.GetOr("DENY"))
      && GetHeader(after, "Referrer-Policy") == Some(o.referrerPolicy.GetOr("strict-origin-when-cross-origin"))
      && GetHeader(after, "Permissions-Policy")
         == Some(o.permissionsPolicy.GetOr("geolocation=(), microphone=(), camera=()"))
      && GetHeader(after, "Content-Security-Policy") == Some(Render(Merge(DefaultPolicy, o.csp)))
      && ((forall k :: 0 <= k < 5 ==> !SameName(SecurityHeaderList(o)[k].0, other))
          ==> GetHeader(after, other) == GetHeader(hs, other))
  {
    var list := SecurityHeaderList(o);
    HeaderNamesDistinct(o);
    SetDistinct(hs, list, other);
    var after := WithHeaders(hs, list);
    assert GetHeader(after, list[0].0) == Some(list[0].1);
    assert GetHeader(after, list[1].0) == Some(list[1].1);
    assert GetHeader(after, list[2].0) == Some(list[2].1);
    assert GetHeader(after, list[3].0) == Some(list[3].1);
    assert GetHeader(after, list[4].0) == Some(list[4].1);
  }

  /** With a well-formed base table (the defaults are one, see
      `DefaultWellFormed`) and well-formed caller directives, the policy header
      reads back as the merged table. */
  lemma MergedReadsBack(base: Policy, custom: Policy)
    requires WellFormed(base)
    requires forall k :: 0 <= k < |custom| ==> WellFormedDirective(custom[k])
    ensures ReadPolicy(Render(Merge(base, custom))) == Merge(base, custom)
  {
    MergeWellFormed(base, custom);
    RenderRoundTrip(Merge(base, custom));
  }

  lemma {:induction false} MergeWellFormed(base: Policy, custom: Policy)
    requires WellFormed(base)
    requires forall k :: 0 <= k < |custom| ==> WellFormedDirective(custom[k])
    ensures WellFormed(Merge(base, custom))
    decreases |custom|
  {
    if custom != [] {
      var next := Put(base, custom[0].0, custom[0].1);
      assert forall k :: 0 <= k < |next| ==> WellFormedDirective(next[k]);
      assert forall k :: 0 <= k < |custom[1..]| ==> custom[1..][k] == custom[k + 1];
      MergeWellFormed(next, custom[1..]);
    }
  }
}
