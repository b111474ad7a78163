/** The whitespace-oriented global regular-expression replacements shared by
    the build scripts (`\s*c\s*` -> c, `\s*c` -> c, `c\s*` -> c and `\s+` -> ' '),
    each written as the left-to-right scan a global `replace` performs, with the
    adjacency properties they establish and preserve. */
module Spacing {
  import opened Strings

  /** No character of `cs` is whitespace. */
  predicate NoWs(cs: set<char>) {
    forall c :: c in cs ==> !IsWhitespace(c)
  }

  /** A neighbouring pair is acceptable when no whitespace stands right before a
      character of `before` and none stands right after a character of `after`. */
  predicate PairOk(a: char, b: char, before: set<char>, after: set<char>) {
    !(IsWhitespace(a) && b in before) && !(a in after && IsWhitespace(b))
  }

  predicate Guarded(s: string, before: set<char>, after: set<char>) {
    forall i :: 0 <= i < |s| - 1 ==> PairOk(s[i], s[i + 1], before, after)
  }

  /** Every whitespace character is a plain space and no two are adjacent. */
  predicate Collapsed(s: string) {
    forall i :: 0 <= i < |s| && IsWhitespace(s[i]) ==>
      s[i] == ' ' && (i + 1 < |s| ==> !IsWhitespace(s[i + 1]))
  }

  predicate AllWhitespace(s: string) {
    forall i :: 0 <= i < |s| ==> IsWhitespace(s[i])
  }

  // ---------------------------------------------------------------------
  // Facts about the predicates

  lemma GuardedSlice(s: string, i: nat, j: nat, before: set<char>, after: set<char>)
    requires i <= j <= |s| && Guarded(s, before, after)
    ensures Guarded(s[i..j], before, after)
  {
    var t := s[i..j];
    forall k | 0 <= k < |t| - 1
      ensures PairOk(t[k], t[k + 1], before, after)
    {
      assert t[k] == s[i + k] && t[k + 1] == s[i + k + 1];
    }
  }

  lemma GuardedConcat(a: string, b: string, before: set<char>, after: set<char>)
    requires Guarded(a, before, after) && Guarded(b, before, after)
    requires a == [] || b == [] || PairOk(a[|a| - 1], b[0], before, after)
    ensures Guarded(a + b, before, after)
  {
    var t := a + b;
    forall k | 0 <= k < |t| - 1
      ensures PairOk(t[k], t[k + 1], before, after)
    {
      if k < |a| - 1 {
        assert t[k] == a[k] && t[k + 1] == a[k + 1];
      } else if k == |a| - 1 {
        assert t[k] == a[|a| - 1] && t[k + 1] == b[0];
      } else {
        assert t[k] == b[k - |a|] && t[k + 1] == b[k - |a| + 1];
      }
    }
  }

  lemma GuardedWeaken(s: string, before: set<char>, after: set<char>, b2: set<char>, a2: set<char>)
    requires Guarded(s, before, after) && b2 <= before && a2 <= after
    ensures Guarded(s, b2, a2)
  {
  }

  lemma GuardedRun(run: string, before: set<char>, after: set<char>)
    requires AllWhitespace(run) && NoWs(before) && NoWs(after)
    ensures Guarded(run, before, after)
  {
  }

  lemma CollapsedSlice(s: string, i: nat, j: nat)
    requires i <= j <= |s| && Collapsed(s)
    ensures Collapsed(s[i..j])
  {
    var t := s[i..j];
    forall k | 0 <= k < |t| && IsWhitespace(t[k])
      ensures t[k] == ' ' && (k + 1 < |t| ==> !IsWhitespace(t[k + 1]))
    {
      assert t[k] == s[i + k];
      if k + 1 < |t| {
        assert t[k + 1] == s[i + k + 1];
      }
    }
  }

  lemma CollapsedConcat(a: string, b: string)
    requires Collapsed(a) && Collapsed(b)
    requires a == [] || b == [] || !IsWhitespace(a[|a| - 1]) || !IsWhitespace(b[0])
    ensures Collapsed(a + b)
  {
    var t := a + b;
    forall k | 0 <= k < |t| && IsWhitespace(t[k])
      ensures t[k] == ' ' && (k + 1 < |t| ==> !IsWhitespace(t[k + 1]))
    {
      if k < |a| {
        assert t[k] == a[k];
        if k + 1 < |a| {
          assert t[k + 1] == a[k + 1];
        } else if k + 1 < |t| {
          assert t[k + 1] == b[0];
        }
      } else {
        assert t[k] == b[k - |a|];
        if k + 1 < |t| {
          assert t[k + 1] == b[k - |a| + 1];
        }
      }
    }
  }

  /** Length of the whitespace run at the front of `s`: what a greedy `\s*`
      matches there. */
  function RunLength(s: string): (n: nat)
    ensures n <= |s|
    ensures n < |s| ==> !IsWhitespace(s[n])
    ensures n > 0 ==> IsWhitespace(s[n - 1])
  {
    if s != [] && IsWhitespace(s[0]) then 1 + RunLength(s[1..]) else 0
  }

  lemma SplitAt(s: string, k: nat)
    requires k <= |s|
    ensures s[..k] + s[k..] == s
  {
  }

  lemma HeadTail(s: string)
    requires s != []
    ensures [s[0]] + s[1..] == s
  {
  }

  lemma {:induction false} RunIsWhitespace(s: string)
    ensures AllWhitespace(s[..RunLength(s)])
  {
    if s != [] && IsWhitespace(s[0]) {
      RunIsWhitespace(s[1..]);
      assert s[..RunLength(s)] == [s[0]] + s[1..][..RunLength(s[1..])];
    }
  }

  // ---------------------------------------------------------------------
  // `\s*c\s*` -> c

  // `s.replace(/\s*c\s*/g, c)`: every whitespace run touching a `c` on either
  // side disappears; other runs are kept as they are.
  function Tighten(s: string, c: char): (r: string)
    requires !IsWhitespace(c)
    ensures |r| <= |s|
    ensures |r| == 0 <==> |s| == 0
    ensures s != [] && !IsWhitespace(s[0]) ==> r[0] == s[0]
    ensures s != [] && IsWhitespace(s[0]) ==> r[0] == s[0] || r[0] == c
    decreases |s|
  {
    if s == [] then []
    else if s[0] == c then [c] + Tighten(s[1 + RunLength(s[1..])..], c)
    else if IsWhitespace(s[0]) then
      var rest := s[RunLength(s)..];
      if rest != [] && rest[0] == c then Tighten(rest, c)
      else s[..|s| - |rest|] + Tighten(rest, c)
    else [s[0]] + Tighten(s[1..], c)
  }

  /** After tightening around `c`, no whitespace touches `c`, and whatever was
      already guarded stays guarded. */
  lemma {:induction false} TightenGuards(s: string, c: char, before: set<char>, after: set<char>)
    requires !IsWhitespace(c) && NoWs(before) && NoWs(after)
    requires Guarded(s, before, after)
    ensures Guarded(Tighten(s, c), before + {c}, after + {c})
    decreases |s|
  {
    var b2, a2 := before + {c}, after + {c};
    if s == [] {
    } else if s[0] == c {
      var k := 1 + RunLength(s[1..]);
      var t := s[k..];
      GuardedSlice(s, k, |s|, before, after);
      TightenGuards(t, c, before, after);
      GuardedConcat([c], Tighten(t, c), b2, a2);
    } else if IsWhitespace(s[0]) {
      var k := RunLength(s);
      var rest := s[k..];
      GuardedSlice(s, k, |s|, before, after);
      TightenGuards(rest, c, before, after);
      if !(rest != [] && rest[0] == c) {
        RunIsWhitespace(s);
        GuardedRun(s[..k], b2, a2);
        if rest != [] {
          assert PairOk(s[k - 1], s[k], before, after);
        }
        GuardedConcat(s[..k], Tighten(rest, c), b2, a2);
      }
    } else {
      GuardedSlice(s, 1, |s|, before, after);
      TightenGuards(s[1..], c, before, after);
      if |s| > 1 {
        assert PairOk(s[0], s[1], before, after);
      }
      GuardedConcat([s[0]], Tighten(s[1..], c), b2, a2);
    }
  }

  /** Tightening a string in which nothing touches `c` changes nothing. */
  lemma {:induction false} TightenNoop(s: string, c: char)
    requires !IsWhitespace(c) && Guarded(s, {c}, {c})
    ensures Tighten(s, c) == s
    decreases |s|
  {
    if s != [] {
      var k := NoopStep(s, c);
      GuardedSlice(s, k, |s|, {c}, {c});
      TightenNoop(s[k..], c);
      SplitAt(s, k);
    }
  }

  /** One step of `Tighten` over a string in which nothing touches `c` keeps
      its first `k` characters. */
  lemma NoopStep(s: string, c: char) returns (k: nat)
    requires !IsWhitespace(c) && s != [] && Guarded(s, {c}, {c})
    ensures 0 < k <= |s| && Tighten(s, c) == s[..k] + Tighten(s[k..], c)
  {
    if s[0] == c {
      if |s| > 1 {
        assert PairOk(s[0], s[1], {c}, {c});
      }
      assert RunLength(s[1..]) == 0;
      k := 1;
    } else if IsWhitespace(s[0]) {
      k := RunLength(s);
      if k < |s| {
        assert PairOk(s[k - 1], s[k], {c}, {c});
      }
    } else {
      k := 1;
    }
  }

  // ---------------------------------------------------------------------
  // `\s+` -> ' '

  /** `s.replace(/\s+/g, ' ')`. */
  function Collapse(s: string): (r: string)
    ensures |r| <= |s|
    ensures |r| == 0 <==> |s| == 0
    ensures s != [] && !IsWhitespace(s[0]) ==> r[0] == s[0]
    ensures s != [] && IsWhitespace(s[0]) ==> r[0] == ' '
    decreases |s|
  {
    if s == [] then []
    else if IsWhitespace(s[0]) then
            [' '] + Collapse(s[RunLength(s)..])
    else [s[0]] + Collapse(s[1..])
  }

  /** Every whitespace run of the result is a single plain space. */
  lemma {:induction false} CollapseCollapses(s: string)
    ensures Collapsed(Collapse(s))
    decreases |s|
  {
    if s == [] {
    } else if IsWhitespace(s[0]) {
            var t := s[RunLength(s)..];
      CollapseCollapses(t);
      CollapsedConcat([' '], Collapse(t));
    } else {
      CollapseCollapses(s[1..]);
      CollapsedConcat([s[0]], Collapse(s[1..]));
    }
  }

  lemma {:induction false} CollapseGuards(s: string, before: set<char>, after: set<char>)
    requires NoWs(before) && NoWs(after) && Guarded(s, before, after)
    ensures Guarded(Collapse(s), before, after)
    decreases |s|
  {
    if s == [] {
    } else if IsWhitespace(s[0]) {
      var k := RunLength(s);
      var t := s[k..];
      GuardedSlice(s, k, |s|, before, after);
      CollapseGuards(t, before, after);
      if t != [] {
        assert PairOk(s[k - 1], s[k], before, after);
      }
      GuardedConcat([' '], Collapse(t), before, after);
    } else {
      GuardedSlice(s, 1, |s|, before, after);
      CollapseGuards(s[1..], before, after);
      if |s| > 1 {
        assert PairOk(s[0], s[1], before, after);
      }
      GuardedConcat([s[0]], Collapse(s[1..]), before, after);
    }
  }

  // ---------------------------------------------------------------------
  // `\s*c` -> c

  /** `s.replace(/\s*c/g, c)`: every whitespace run directly before a `c` goes. */
  function DropBefore(s: string, c: char): (r: string)
    requires !IsWhitespace(c)
    ensures |r| <= |s|
    ensures |r| == 0 <==> |s| == 0
    ensures s != [] && !IsWhitespace(s[0]) ==> r[0] == s[0]
    ensures s != [] && IsWhitespace(s[0]) ==> r[0] == s[0] || r[0] == c
    ensures s != [] && !IsWhitespace(s[|s| - 1]) ==> r[|r| - 1] == s[|s| - 1]
    decreases |s|
  {
    if s == [] then []
    else if IsWhitespace(s[0]) then
      var rest := s[RunLength(s)..];
      if rest != [] && rest[0] == c then DropBefore(rest, c)
      else s[..|s| - |rest|] + DropBefore(rest, c)
    else [s[0]] + DropBefore(s[1..], c)
  }

  lemma {:induction false} DropBeforeGuards(s: string, c: char, before: set<char>, after: set<char>)
    requires !IsWhitespace(c) && NoWs(before) && NoWs(after)
    requires Guarded(s, before, after)
    ensures Guarded(DropBefore(s, c), before + {c}, after)
    decreases |s|
  {
    var b2 := before + {c};
    if s == [] {
    } else if IsWhitespace(s[0]) {
      var k := RunLength(s);
      var rest := s[k..];
      GuardedSlice(s, k, |s|, before, after);
      DropBeforeGuards(rest, c, before, after);
      if !(rest != [] && rest[0] == c) {
        RunIsWhitespace(s);
        GuardedRun(s[..k], b2, after);
        if rest != [] {
          assert PairOk(s[k - 1], s[k], before, after);
        }
        GuardedConcat(s[..k], DropBefore(rest, c), b2, after);
      }
    } else {
      GuardedSlice(s, 1, |s|, before, after);
      DropBeforeGuards(s[1..], c, before, after);
      if |s| > 1 {
        assert PairOk(s[0], s[1], before, after);
      }
      GuardedConcat([s[0]], DropBefore(s[1..], c), b2, after);
    }
  }

  lemma {:induction false} DropBeforeCollapsed(s: string, c: char)
    requires !IsWhitespace(c) && Collapsed(s)
    ensures Collapsed(DropBefore(s, c))
    decreases |s|
  {
    if s == [] {
    } else if IsWhitespace(s[0]) {
      var k := RunLength(s);
      var rest := s[k..];
      CollapsedSlice(s, k, |s|);
      DropBeforeCollapsed(rest, c);
      if !(rest != [] && rest[0] == c) {
        CollapsedSlice(s, 0, k);
        assert s[0..k] == s[..k];
        CollapsedConcat(s[..k], DropBefore(rest, c));
      }
    } else {
      CollapsedSlice(s, 1, |s|);
      DropBeforeCollapsed(s[1..], c);
      CollapsedConcat([s[0]], DropBefore(s[1..], c));
    }
  }

  // ---------------------------------------------------------------------
  // `c\s*` -> c

  // `s.replace(/c\s*/g, c)`: every whitespace run directly after a `c` goes.
  function DropAfter(s: string, c: char): (r: string)
    requires !IsWhitespace(c)
    ensures |r| <= |s|
    ensures |r| == 0 <==> |s| == 0
    ensures s != [] ==> r[0] == s[0]
    ensures s != [] && !IsWhitespace(s[|s| - 1]) ==> r[|r| - 1] == s[|s| - 1]
    decreases |s|
  {
    if s == [] then []
    else
      var k := if s[0] == c then 1 + RunLength(s[1..]) else 1;
      [s[0]] + DropAfter(s[k..], c)
  }

  lemma {:induction false} DropAfterGuards(s: string, c: char, before: set<char>, after: set<char>)
    requires !IsWhitespace(c) && NoWs(before) && NoWs(after)
    requires Guarded(s, before, after)
    ensures Guarded(DropAfter(s, c), before, after + {c})
    decreases |s|
  {
    var a2 := after + {c};
    if s == [] {
    } else if s[0] == c {
      var k := 1 + RunLength(s[1..]);
      var t := s[k..];
      GuardedSlice(s, k, |s|, before, after);
      DropAfterGuards(t, c, before, after);
      GuardedConcat([c], DropAfter(t, c), before, a2);
    } else {
      GuardedSlice(s, 1, |s|, before, after);
      DropAfterGuards(s[1..], c, before, after);
      if |s| > 1 {
        assert PairOk(s[0], s[1], before, after);
      }
      GuardedConcat([s[0]], DropAfter(s[1..], c), before, a2);
    }
  }

  lemma {:induction false} DropAfterCollapsed(s: string, c: char)
    requires !IsWhitespace(c) && Collapsed(s)
    ensures Collapsed(DropAfter(s, c))
    decreases |s|
  {
    if s == [] {
    } else if s[0] == c {
      var k := 1 + RunLength(s[1..]);
      var t := s[k..];
      CollapsedSlice(s, k, |s|);
      DropAfterCollapsed(t, c);
      CollapsedConcat([c], DropAfter(t, c));
    } else {
      CollapsedSlice(s, 1, |s|);
      DropAfterCollapsed(s[1..], c);
      if |s| > 1 && IsWhitespace(s[0]) {
        assert !IsWhitespace(s[1]);
      }
      CollapsedConcat([s[0]], DropAfter(s[1..], c));
    }
  }

  // ---------------------------------------------------------------------
  // `trim()`

  /** `trim()` keeps a contiguous slice, so it keeps every adjacency property. */
  lemma TrimKeeps(s: string, before: set<char>, after: set<char>)
    requires Guarded(s, before, after) && Collapsed(s)
    ensures Guarded(Trim(s), before, after) && Collapsed(Trim(s))
  {
    var r := Trim(s);
    assert Guarded(r, before, after) && Collapsed(r) by {
      var i := TrimSlice(s);
      SliceKeeps(s, i, i + |r|, r, before, after);
    }
  }

  lemma SliceKeeps(s: string, i: nat, j: nat, t: string, before: set<char>, after: set<char>)
    requires i <= j <= |s| && t == s[i..j]
    requires Guarded(s, before, after) && Collapsed(s)
    ensures Guarded(t, before, after) && Collapsed(t)
  {
    GuardedSlice(s, i, j, before, after);
    CollapsedSlice(s, i, j);
  }

  /** `trim()` leaves the slice of `s` starting at `i`. */
  lemma TrimSlice(s: string) returns (i: nat)
    ensures i + |Trim(s)| <= |s| && Trim(s) == s[i..i + |Trim(s)|]
  {
    var t := TrimStart(s);
    i := |s| - |t|;
    var r := TrimEnd(t);
    assert t == s[i..] && r == t[..|r|];
    assert s[i..][..|r|] == s[i..i + |r|];
  }
}
