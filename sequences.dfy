/** Sequence operations the tools build from array methods: a filter-map
    (a loop that pushes only some results), and `[...new Set(s)]`. */
module Seqs {
  import opened Wrappers

  /** The present results of `f` over `s`, in order. */
  function FilterMap<A, B>(s: seq<A>, f: A -> Option<B>): (r: seq<B>)
    ensures |r| <= |s|
  {
    if s == [] then []
    else
      var before := FilterMap(s[..|s| - 1], f);
      match f(s[|s| - 1])
      case None => before
      case Some(y) => before + [y]
  }

  /** A value is listed exactly when some element maps to it. */
  lemma {:induction false} FilterMapMembership<A, B(!new)>(s: seq<A>, f: A -> Option<B>, y: B)
    ensures y in FilterMap(s, f) <==> exists k :: 0 <= k < |s| && f(s[k]) == Some(y)
  {
    if s != [] {
      var init := s[..|s| - 1];
      FilterMapMembership(init, f, y);
      if exists k :: 0 <= k < |s| && f(s[k]) == Some(y) {
        var k :| 0 <= k < |s| && f(s[k]) == Some(y);
        if k < |init| {
          assert init[k] == s[k];
        }
      }
      if y in FilterMap(init, f) {
        var k :| 0 <= k < |init| && f(init[k]) == Some(y);
        assert s[k] == init[k];
      }
    }
  }

  /** Filter-mapping a concatenation concatenates the results. */
  lemma {:induction false} FilterMapAppend<A, B>(a: seq<A>, b: seq<A>, f: A -> Option<B>)
    ensures FilterMap(a + b, f) == FilterMap(a, f) + FilterMap(b, f)
  {
    if b == [] {
      assert a + b == a;
    } else {
      var c := b[..|b| - 1];
      assert (a + b)[..|a + b| - 1] == a + c;
      FilterMapAppend(a, c, f);
    }
  }

  predicate Distinct<T(==)>(s: seq<T>) {
    forall i, j :: 0 <= i < j < |s| ==> s[i] != s[j]
  }

  function MapSeq<A, B>(s: seq<A>, g: A -> B): (r: seq<B>)
    ensures |r| == |s| && forall k :: 0 <= k < |s| ==> r[k] == g(s[k])
  {
    if s == [] then [] else MapSeq(s[..|s| - 1], g) + [g(s[|s| - 1])]
  }

  /** A non-empty sequence is its front followed by its last element. */
  lemma FrontLast<T>(s: seq<T>)
    requires s != []
    ensures s == s[..|s| - 1] + [s[|s| - 1]]
  {
  }

  lemma MapSeqCons<A, B>(s: seq<A>, g: A -> B)
    requires s != []
    ensures MapSeq(s, g) == [g(s[0])] + MapSeq(s[1..], g)
  {
    assert forall k :: 0 <= k < |s| ==> MapSeq(s, g)[k] == ([g(s[0])] + MapSeq(s[1..], g))[k];
  }

  /** When each result names the element it came from, results from
      distinct elements are distinct, and each names an element of `s`. */
  lemma {:induction false} FilterMapDistinct<A(!new), B>(s: seq<A>, f: A -> Option<B>, key: B -> A)
    requires Distinct(s)
    requires forall a :: f(a).Some? ==> key(f(a).value) == a
    ensures Distinct(MapSeq(FilterMap(s, f), key))
    ensures forall k :: 0 <= k < |FilterMap(s, f)| ==> key(FilterMap(s, f)[k]) in s
  {
    if s != [] {
      var init := s[..|s| - 1];
      var a := s[|s| - 1];
      assert Distinct(init);
      FilterMapDistinct(init, f, key);
      var before := FilterMap(init, f);
      assert forall k :: 0 <= k < |before| ==> key(before[k]) in s by {
        forall k | 0 <= k < |before| ensures key(before[k]) in s {
          var m :| 0 <= m < |init| && init[m] == key(before[k]);
          assert s[m] == init[m];
        }
      }
      if f(a).Some? {
        var r := before + [f(a).value];
        forall k | 0 <= k < |before| ensures key(r[k]) != a {
          var m :| 0 <= m < |init| && init[m] == key(before[k]);
          assert s[m] == init[m];
        }
        assert key(r[|before|]) == a;
      }
    }
  }

  /** `[...new Set(s)]`: each value once, where it first occurs. */
  function Dedup<T(==,!new)>(s: seq<T>): (r: seq<T>)
    ensures forall x :: x in r <==> x in s
    ensures |r| <= |s|
  {
    if s == [] then []
    else
      var before := Dedup(s[..|s| - 1]);
      var x := s[|s| - 1];
      assert s == s[..|s| - 1] + [x];
      if x in before then before else before + [x]
  }

  /** Where `x` first occurs in `s`. */
  function FirstIndex<T(==,!new)>(s: seq<T>, x: T): (k: nat)
    requires x in s
    ensures k < |s| && s[k] == x
    ensures forall m :: 0 <= m < k ==> s[m] != x
  {
    if s[0] == x then 0
    else
      assert s == [s[0]] + s[1..];
      FirstIndex(s[1..], x) + 1
  }

  lemma FirstIndexSnoc<T(!new)>(s: seq<T>, y: T, x: T)
    requires x in s
    ensures x in s + [y] && FirstIndex(s + [y], x) == FirstIndex(s, x)
  {
    assert x in s + [y];
    var k := FirstIndex(s, x);
    var k' := FirstIndex(s + [y], x);
    assert (s + [y])[k] == x;
    assert forall m :: 0 <= m < k ==> (s + [y])[m] == s[m];
  }

  /** Dedup keeps no duplicate and lists values by first occurrence. */
  lemma {:induction false} DedupOrder<T(!new)>(s: seq<T>)
    ensures Distinct(Dedup(s))
    ensures forall i, j :: 0 <= i < j < |Dedup(s)| ==> FirstIndex(s, Dedup(s)[i]) < FirstIndex(s, Dedup(s)[j])
  {
    if s != [] {
      var init := s[..|s| - 1];
      var x := s[|s| - 1];
      var before := Dedup(init);
      var r := Dedup(s);
      DedupOrder(init);
      assert s == init + [x];
      forall v | v in before ensures v in s && FirstIndex(s, v) == FirstIndex(init, v) {
        FirstIndexSnoc(init, x, v);
      }
      if x in before {
        assert r == before;
        forall i, j | 0 <= i < j < |r| ensures FirstIndex(s, r[i]) < FirstIndex(s, r[j]) {
          assert r[i] in before && r[j] in before;
        }
      } else {
        assert r == before + [x];
        assert FirstIndex(s, x) == |init|;
        forall i, j | 0 <= i < j < |r| ensures FirstIndex(s, r[i]) < FirstIndex(s, r[j]) {
          assert r[i] == before[i] && before[i] in before;
          if j < |before| {
            assert r[j] == before[j] && before[j] in before;
          } else {
            assert r[j] == x;
          }
        }
      }
    }
  }

  /** A list without duplicates is its own dedup. */
  lemma {:induction false} DedupDistinct<T(!new)>(s: seq<T>)
    requires Distinct(s)
    ensures Dedup(s) == s
  {
    if s != [] {
      var init := s[..|s| - 1];
      DedupDistinct(init);
      assert s[|s| - 1] !in init by {
        forall k | 0 <= k < |init| ensures init[k] != s[|s| - 1] {
          assert init[k] == s[k];
        }
      }
      assert s == init + [s[|s| - 1]];
    }
  }

  /** `s.filter(p)`. */
  function Filter<T>(s: seq<T>, p: T -> bool): (r: seq<T>)
    ensures |r| <= |s|
    ensures forall k :: 0 <= k < |r| ==> p(r[k])
  {
    if s == [] then []
    else (if p(s[0]) then [s[0]] else []) + Filter(s[1..], p)
  }

  lemma FilterCons<T>(x: T, s: seq<T>, p: T -> bool)
    ensures Filter([x] + s, p) == (if p(x) then [x] else []) + Filter(s, p)
  {
    assert ([x] + s)[1..] == s;
  }

  /** Filtering by a weaker test first changes nothing. */
  lemma {:induction false} FilterOfFilter<T>(s: seq<T>, p: T -> bool, q: T -> bool)
    requires forall x :: p(x) ==> q(x)
    ensures Filter(Filter(s, q), p) == Filter(s, p)
  {
    if s != [] {
      FilterOfFilter(s[1..], p, q);
      var rest := Filter(s[1..], q);
      if q(s[0]) {
        assert Filter(s, q) == [s[0]] + rest;
        assert ([s[0]] + rest)[1..] == rest;
      } else {
        assert !p(s[0]);
        assert Filter(s, q) == [] + rest == rest;
        assert Filter(s, p) == [] + Filter(s[1..], p);
      }
    }
  }

  /** Sum of `f` over `s`. */
  function SumOf<T>(s: seq<T>, f: T -> nat): nat {
    if s == [] then 0 else f(s[0]) + SumOf(s[1..], f)
  }

  lemma {:induction false} SumOfSnoc<T>(s: seq<T>, x: T, f: T -> nat)
    ensures SumOf(s + [x], f) == SumOf(s, f) + f(x)
  {
    if s != [] {
      assert (s + [x])[1..] == s[1..] + [x];
      SumOfSnoc(s[1..], x, f);
    } else {
      assert (s + [x])[1..] == [];
    }
  }
  /** Extending a prefix by one element adds that element's value. */
  lemma SumOfPrefix<T>(s: seq<T>, i: nat, f: T -> nat)
    requires i < |s|
    ensures SumOf(s[..i + 1], f) == SumOf(s[..i], f) + f(s[i])
  {
    SumOfSnoc(s[..i], s[i], f);
    assert s[..i + 1] == s[..i] + [s[i]];
  }

}
