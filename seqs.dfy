/** The array operations the pages use, `filter`, `map` and `find`, as
    functions on sequences, with what they promise. */
module Seqs {
  import opened Wrappers

  /** `s.filter(p)`: the elements that satisfy `p`. */
  function Filter<T>(s: seq<T>, p: T -> bool): (r: seq<T>)
    ensures |r| <= |s|
  {
    if s == [] then []
    else Filter(s[..|s| - 1], p) + (if p(s[|s| - 1]) then [s[|s| - 1]] else [])
  }

  /** `s.map(f)`. */
  function MapAll<T, U>(s: seq<T>, f: T -> U): (r: seq<U>)
    ensures |r| == |s|
    ensures forall i :: 0 <= i < |s| ==> r[i] == f(s[i])
  {
    if s == [] then [] else [f(s[0])] + MapAll(s[1..], f)
  }

  lemma MapAllCons<T, U>(x: T, s: seq<T>, f: T -> U)
    ensures MapAll([x] + s, f) == [f(x)] + MapAll(s, f)
  {
    assert ([x] + s)[1..] == s;
  }

  /** `s.map(x => p(x) ? f(x) : x)`: rewrite the elements that satisfy `p`. */
  function UpdateWhere<T>(s: seq<T>, p: T -> bool, f: T -> T): (r: seq<T>)
    ensures |r| == |s|
    ensures forall i :: 0 <= i < |s| ==> r[i] == (if p(s[i]) then f(s[i]) else s[i])
  {
    if s == [] then [] else [if p(s[0]) then f(s[0]) else s[0]] + UpdateWhere(s[1..], p, f)
  }

  /** The position of the first element that satisfies `p`, or `|s|`. */
  function FirstIndex<T>(s: seq<T>, p: T -> bool): (i: nat)
    ensures i <= |s| && IsFirst(s, p, i)
    ensures i < |s| ==> p(s[i])
  {
    if s == [] || p(s[0]) then 0 else 1 + FirstIndex(s[1..], p)
  }

  /** `s.find(p)`: the first element that satisfies `p`, if any. */
  function Find<T>(s: seq<T>, p: T -> bool): (r: Option<T>)
    ensures r.None? <==> forall i :: 0 <= i < |s| ==> !p(s[i])
    ensures r.Some? ==> exists i :: 0 <= i < |s| && s[i] == r.value && p(s[i]) && IsFirst(s, p, i)
  {
    var i := FirstIndex(s, p);
    if i < |s| then Some(s[i]) else None
  }

  /** No element before index `i` satisfies `p`. */
  ghost predicate IsFirst<T>(s: seq<T>, p: T -> bool, i: int)
    requires 0 <= i <= |s|
  {
    forall j :: 0 <= j < i ==> !p(s[j])
  }

  /** `idx` lists, in increasing order, exactly the positions of `s` whose
      elements satisfy `p`, and `r` holds those elements in that order. */
  ghost predicate IsSelection<T>(idx: seq<nat>, r: seq<T>, s: seq<T>, p: T -> bool)
  {
    && |idx| == |r|
    && (forall k :: 0 <= k < |idx| ==> idx[k] < |s| && r[k] == s[idx[k]])
    && (forall k, l :: 0 <= k < l < |idx| ==> idx[k] < idx[l])
    && (forall i :: 0 <= i < |s| ==> (p(s[i]) <==> i in idx))
  }

  /** `r` is the subsequence of `s` made of exactly the elements that
      satisfy `p`, in their original order. */
  ghost predicate SelectsInOrder<T>(r: seq<T>, s: seq<T>, p: T -> bool)
  {
    exists idx: seq<nat> :: IsSelection(idx, r, s, p)
  }

  /** The positions of `s` that `Filter` keeps. */
  function Kept<T>(s: seq<T>, p: T -> bool): (idx: seq<nat>)
    ensures |idx| <= |s|
  {
    if s == [] then []
    else Kept(s[..|s| - 1], p) + (if p(s[|s| - 1]) then [|s| - 1] else [])
  }

  lemma {:induction false} KeptIsSelection<T>(s: seq<T>, p: T -> bool)
    ensures IsSelection(Kept(s, p), Filter(s, p), s, p)
    ensures forall k :: 0 <= k < |Kept(s, p)| ==> Kept(s, p)[k] < |s|
  {
    if s != [] {
      var n := |s| - 1;
      var s' := s[..n];
      KeptIsSelection(s', p);
      var idx', r' := Kept(s', p), Filter(s', p);
      var idx, r := Kept(s, p), Filter(s, p);
      assert forall i :: 0 <= i < n ==> s'[i] == s[i];
      if p(s[n]) {
        assert idx == idx' + [n] && r == r' + [s[n]];
        forall i | 0 <= i < |s| ensures p(s[i]) <==> i in idx {
          if i < n { assert p(s'[i]) <==> i in idx'; }
        }
      } else {
        assert idx == idx' && r == r';
        forall i | 0 <= i < |s| ensures p(s[i]) <==> i in idx {
          if i < n { assert p(s'[i]) <==> i in idx'; }
        }
      }
    }
  }

  /** The filtered sequence is exactly the selected elements, in order. */
  lemma FilterSelectsInOrder<T>(s: seq<T>, p: T -> bool)
    ensures SelectsInOrder(Filter(s, p), s, p)
  {
    KeptIsSelection(s, p);
  }

  /** A selection keeps exactly the elements that satisfy `p`. */
  lemma {:induction false} SelectionMembers<T>(r: seq<T>, s: seq<T>, p: T -> bool, x: T)
    requires SelectsInOrder(r, s, p)
    ensures x in r <==> x in s && p(x)
  {
    var idx :| IsSelection(idx, r, s, p);
    if x in r {
      var k :| 0 <= k < |r| && r[k] == x;
      assert s[idx[k]] == x;
      assert idx[k] in idx;
    }
    if x in s && p(x) {
      var i :| 0 <= i < |s| && s[i] == x;
      assert i in idx;
      var k :| 0 <= k < |idx| && idx[k] == i;
      assert r[k] == x;
    }
  }

  /** The first element of a non-empty selection is the first element of `s`
      that satisfies `p`. */
  lemma {:induction false} SelectionHead<T>(r: seq<T>, s: seq<T>, p: T -> bool)
    requires SelectsInOrder(r, s, p)
    ensures r != [] <==> exists i :: 0 <= i < |s| && p(s[i])
    ensures r != [] ==> exists i :: 0 <= i < |s| && r[0] == s[i] && p(s[i]) && IsFirst(s, p, i)
  {
    var idx :| IsSelection(idx, r, s, p);
    if r != [] {
      var i := idx[0];
      assert i in idx;
      forall j | 0 <= j < i ensures !p(s[j]) {
        forall k | 0 <= k < |idx| ensures idx[k] != j {
          if k > 0 { assert idx[0] < idx[k]; }
        }
        assert j !in idx;
      }
      assert IsFirst(s, p, i);
    } else {
      forall i | 0 <= i < |s| ensures !p(s[i]) {
        assert i !in idx;
      }
    }
  }

  /** When every element satisfies `p`, filtering changes nothing. */
  lemma {:induction false} FilterAll<T>(s: seq<T>, p: T -> bool)
    requires forall i :: 0 <= i < |s| ==> p(s[i])
    ensures Filter(s, p) == s
  {
    if s != [] {
      FilterAll(s[..|s| - 1], p);
      assert s[..|s| - 1] + [s[|s| - 1]] == s;
    }
  }
}
