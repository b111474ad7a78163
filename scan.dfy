/** Delimited-block deletion as a global regular-expression replace performs it:
    scanning left to right, an opening delimiter that has a closing delimiter
    somewhere after it is deleted together with everything up to the first
    such closing delimiter; scanning resumes right after the deleted block. */
module Scan {
  import opened Wrappers
  import opened Strings

  predicate OccursAt(s: string, pat: string, m: nat) {
    m + |pat| <= |s| && s[m..m + |pat|] == pat
  }

  /** Index of the first occurrence of `pat` in `s` at or after `from`. */
  function FindFrom(s: string, pat: string, from: nat): (r: Option<nat>)
    ensures r.Some? ==> from <= r.value && OccursAt(s, pat, r.value)
    ensures r.Some? ==> forall m :: from <= m < r.value ==> !OccursAt(s, pat, m)
    ensures r.None? ==> forall m :: from <= m ==> !OccursAt(s, pat, m)
    decreases |s| - from
  {
    if from + |pat| > |s| then None
    else if OccursAt(s, pat, from) then Some(from)
    else FindFrom(s, pat, from + 1)
  }

  /** `s.replace(/open…close/g, '')` with the shortest body: each `open` that
      has a `close` starting at or after its end goes, up to and including the
      first such `close`. An `open` without a later `close` is kept. */
  function StripDelimited(s: string, open: string, close: string): (r: string)
    requires open != []
    ensures |r| <= |s|
    decreases |s|
  {
    if s == [] then []
    else if StartsWith(s, open) && FindFrom(s, close, |open|).Some? then
      StripDelimited(s[FindFrom(s, close, |open|).value + |close|..], open, close)
    else [s[0]] + StripDelimited(s[1..], open, close)
  }

  /** Text without an opening delimiter passes through unchanged. */
  lemma {:induction false} StripWithoutOpen(s: string, open: string, close: string)
    requires open != [] && !Contains(s, open)
    ensures StripDelimited(s, open, close) == s
    decreases |s|
  {
    if s != [] {
      StripWithoutOpen(s[1..], open, close);
      assert [s[0]] + s[1..] == s;
    }
  }

  /** A complete block at the front is dropped: everything from the opening
      delimiter up to the first closing delimiter after it. */
  lemma StripBlock(open: string, body: string, close: string, rest: string)
    requires open != [] && close != []
    requires !Contains(body + close[..|close| - 1], close)
    ensures StripDelimited(open + body + close + rest, open, close)
         == StripDelimited(rest, open, close)
  {
    var s := open + body + close + rest;
    var j := |open| + |body|;
    assert s[..|open|] == open;
    assert s[j..j + |close|] == close;
    assert OccursAt(s, close, j);
    var t := body + close[..|close| - 1];
    assert s[|open|..|open| + |t|] == t;
    forall m | |open| <= m < j
      ensures !OccursAt(s, close, m)
    {
      var i := m - |open|;
      assert s[m..m + |close|] == s[|open|..|open| + |t|][i..i + |close|];
      if OccursAt(s, close, m) {
        ContainsAt(t, close, i);
      }
    }
    assert FindFrom(s, close, |open|) == Some(j);
    assert s[j + |close|..] == rest;
  }

  /** The first occurrence at or after `from` is the one with none before it. */
  lemma FindFromIs(s: string, pat: string, from: nat, j: nat)
    requires from <= j && OccursAt(s, pat, j)
    requires forall m :: from <= m < j ==> !OccursAt(s, pat, m)
    ensures FindFrom(s, pat, from) == Some(j)
  {
    var found := FindFrom(s, pat, from);
    assert found.Some? && found.value <= j;
  }

  /** A one-character pattern occurs exactly where that character is. */
  lemma OccursAtChar(s: string, c: char, m: nat)
    requires m < |s|
    ensures OccursAt(s, [c], m) <==> s[m] == c
  {
    assert s[m..m + 1] == [s[m]];
  }
}
