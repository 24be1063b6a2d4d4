/** List comprehensions over sequences. */
module Seqs {
  import opened Wrappers

  /** How many elements of `xs` satisfy `p` (`sum(1 for x in xs if p(x))`). */
  function Count<T>(xs: seq<T>, p: T -> bool): (n: nat)
    ensures n <= |xs|
  {
    if xs == [] then 0
    else Count(xs[..|xs| - 1], p) + (if p(xs[|xs| - 1]) then 1 else 0)
  }

  /** `[x for x in xs if p(x)]`: the elements satisfying `p`, in their
      original order, each occurrence kept. */
  function Filter<T(!new)>(xs: seq<T>, p: T -> bool): (r: seq<T>)
    ensures |r| == Count(xs, p)
    ensures forall x :: x in r <==> x in xs && p(x)
  {
    if xs == [] then []
    else
      var r := Filter(xs[..|xs| - 1], p);
      var x := xs[|xs| - 1];
      assert forall y :: y in xs <==> y in xs[..|xs| - 1] || y == x;
      if p(x) then r + [x] else r
  }

  /** A single element is kept exactly when it satisfies `p`. */
  lemma FilterSingle<T(!new)>(p: T -> bool)
    ensures forall x :: Filter([x], p) == (if p(x) then [x] else [])
  {
    assert forall x: T :: [x][..0] == [];
  }

  /** Filtering a concatenation filters each part and keeps them in order;
      with `FilterSingle`, this pins down the order of the kept elements. */
  lemma {:induction false} FilterAppend<T(!new)>(a: seq<T>, b: seq<T>, p: T -> bool)
    ensures Filter(a + b, p) == Filter(a, p) + Filter(b, p)
  {
    if b == [] {
      assert a + b == a;
    } else {
      var init, x := b[..|b| - 1], b[|b| - 1];
      var ab := a + b;
      assert ab[..|ab| - 1] == a + init && ab[|ab| - 1] == x;
      var tail := if p(x) then [x] else [];
      calc {
        Filter(ab, p);
        Filter(a + init, p) + tail;
        { FilterAppend(a, init, p); }
        (Filter(a, p) + Filter(init, p)) + tail;
        Filter(a, p) + (Filter(init, p) + tail);
        Filter(a, p) + Filter(b, p);
      }
    }
  }

  /** `p` holds somewhere in `xs` exactly when it is counted at least once. */
  lemma {:induction false} CountPositive<T>(xs: seq<T>, p: T -> bool)
    ensures Count(xs, p) > 0 <==> exists i :: 0 <= i < |xs| && p(xs[i])
  {
    if xs != [] {
      var ys := xs[..|xs| - 1];
      CountPositive(ys, p);
      if exists i :: 0 <= i < |ys| && p(ys[i]) {
        var i :| 0 <= i < |ys| && p(ys[i]);
        assert xs[i] == ys[i];
      }
      if exists i :: 0 <= i < |xs| && p(xs[i]) {
        var i :| 0 <= i < |xs| && p(xs[i]);
        if i < |ys| {
          assert ys[i] == xs[i];
        }
      }
    }
  }

  /** Appending one element adds one to the count exactly when it satisfies `p`. */
  lemma CountAppend<T>(xs: seq<T>, x: T, p: T -> bool)
    ensures Count(xs + [x], p) == Count(xs, p) + (if p(x) then 1 else 0)
  {
    assert (xs + [x])[..|xs|] == xs;
  }

  /** Some element of `xs` satisfies `p` exactly when some element of its
      front `init` or its last one does. */
  lemma ExistsSnoc<T>(xs: seq<T>, init: seq<T>, p: T -> bool)
    requires xs != [] && init == xs[..|xs| - 1]
    ensures (exists i :: 0 <= i < |xs| && p(xs[i]))
            <==> (exists i :: 0 <= i < |init| && p(init[i])) || p(xs[|xs| - 1])
  {
    if exists i :: 0 <= i < |xs| && p(xs[i]) {
      var i :| 0 <= i < |xs| && p(xs[i]);
      if i < |init| {
        assert p(init[i]);
      }
    }
    if exists i :: 0 <= i < |init| && p(init[i]) {
      var i :| 0 <= i < |init| && p(init[i]);
      assert p(xs[i]);
    }
  }

  /** The value `f` gives the last element of `xs` that has one. */
  function LastSome<T, U>(xs: seq<T>, f: T -> Option<U>): Option<U> {
    if xs == [] then None
    else if f(xs[|xs| - 1]).Some? then f(xs[|xs| - 1])
    else LastSome(xs[..|xs| - 1], f)
  }

  /** `LastSome` without recursion: absent exactly when no element has a
      value, otherwise the value of an element after which none has one. */
  lemma {:induction false} LastSomeIsMostRecent<T, U>(xs: seq<T>, f: T -> Option<U>)
    ensures LastSome(xs, f).None? <==> forall i :: 0 <= i < |xs| ==> f(xs[i]).None?
    ensures LastSome(xs, f).Some? ==>
              exists i :: 0 <= i < |xs| && f(xs[i]) == LastSome(xs, f)
                          && forall j :: i < j < |xs| ==> f(xs[j]).None?
  {
    if xs != [] {
      var init := xs[..|xs| - 1];
      LastSomeIsMostRecent(init, f);
      assert forall i :: 0 <= i < |init| ==> init[i] == xs[i];
      if f(xs[|xs| - 1]).None? && LastSome(init, f).Some? {
        var i :| 0 <= i < |init| && f(init[i]) == LastSome(init, f)
                 && forall j :: i < j < |init| ==> f(init[j]).None?;
        assert f(xs[i]) == LastSome(xs, f);
      }
    }
  }

  /** `list(reversed(xs))`. */
  function Reverse<T>(xs: seq<T>): (r: seq<T>)
    ensures |r| == |xs|
    ensures forall i :: 0 <= i < |xs| ==> r[i] == xs[|xs| - 1 - i]
  {
    if xs == [] then [] else [xs[|xs| - 1]] + Reverse(xs[..|xs| - 1])
  }

  /** `[f(x) for x in xs if p(x)]`. */
  function MapFilter<T, U>(xs: seq<T>, p: T -> bool, f: T -> U): (r: seq<U>)
    ensures |r| == Count(xs, p)
  {
    if xs == [] then []
    else MapFilter(xs[..|xs| - 1], p, f) + (if p(xs[|xs| - 1]) then [f(xs[|xs| - 1])] else [])
  }

  /** One more element adds its image when it satisfies `p`. */
  lemma MapFilterSnoc<T, U>(xs: seq<T>, x: T, p: T -> bool, f: T -> U)
    ensures MapFilter(xs + [x], p, f) == MapFilter(xs, p, f) + (if p(x) then [f(x)] else [])
  {
    assert (xs + [x])[..|xs|] == xs;
  }

  /** The comprehension of a concatenation is the concatenation of the
      comprehensions. */
  lemma {:induction false} MapFilterAppend<T, U>(xs: seq<T>, ys: seq<T>, p: T -> bool, f: T -> U)
    ensures MapFilter(xs + ys, p, f) == MapFilter(xs, p, f) + MapFilter(ys, p, f)
  {
    if ys == [] {
      assert xs + ys == xs;
    } else {
      var init := ys[..|ys| - 1];
      var y := ys[|ys| - 1];
      var tail := if p(y) then [f(y)] else [];
      assert xs + ys == (xs + init) + [y];
      assert ys == init + [y];
      calc {
        MapFilter(xs + ys, p, f);
        { MapFilterSnoc(xs + init, y, p, f); }
        MapFilter(xs + init, p, f) + tail;
        { MapFilterAppend(xs, init, p, f); }
        (MapFilter(xs, p, f) + MapFilter(init, p, f)) + tail;
        MapFilter(xs, p, f) + (MapFilter(init, p, f) + tail);
        { MapFilterSnoc(init, y, p, f); }
        MapFilter(xs, p, f) + MapFilter(ys, p, f);
      }
    }
  }

  /** Reversing the input reverses the comprehension: selecting while
      reading backwards and then reversing is selecting in the original
      order. */
  lemma {:induction false} MapFilterReverse<T, U>(xs: seq<T>, p: T -> bool, f: T -> U)
    ensures MapFilter(Reverse(xs), p, f) == Reverse(MapFilter(xs, p, f))
  {
    if xs != [] {
      var init := xs[..|xs| - 1];
      var x := xs[|xs| - 1];
      MapFilterReverse(init, p, f);
      MapFilterAppend([x], Reverse(init), p, f);
      assert MapFilter([x], p, f) == (if p(x) then [f(x)] else []) by {
        assert [x][..0] == [];
      }
      var m := MapFilter(init, p, f);
      var tail := if p(x) then [f(x)] else [];
      assert MapFilter(xs, p, f) == m + tail;
      if p(x) {
        assert (m + tail)[..|m|] == m;
      } else {
        assert m + tail == m;
      }
    }
  }

  /** `sum(g(x) for x in xs)`. */
  function SumBy<T>(xs: seq<T>, g: T -> nat): nat {
    if xs == [] then 0 else SumBy(xs[..|xs| - 1], g) + g(xs[|xs| - 1])
  }

  /** A sum of naturals is positive exactly when some term is. */
  lemma {:induction false} SumByPositive<T>(xs: seq<T>, g: T -> nat)
    ensures SumBy(xs, g) > 0 <==> exists i :: 0 <= i < |xs| && g(xs[i]) > 0
  {
    if xs != [] {
      var init := xs[..|xs| - 1];
      SumByPositive(init, g);
      ExistsSnoc(xs, init, x => g(x) > 0);
    }
  }

  /** The position of the first element satisfying `p`, or `|xs|` when none does. */
  function FirstWhere<T>(xs: seq<T>, p: T -> bool): (k: nat)
    decreases |xs|
    ensures k <= |xs|
    ensures forall i :: 0 <= i < k ==> !p(xs[i])
    ensures k < |xs| ==> p(xs[k])
  {
    if xs == [] then 0
    else if p(xs[0]) then 0
    else
      var k := FirstWhere(xs[1..], p);
      assert forall i :: 1 <= i < k + 1 ==> xs[i] == xs[1..][i - 1];
      k + 1
  }

  /** `[f(x) for x in xs]`. */
  function Map<T, U>(xs: seq<T>, f: T -> U): (r: seq<U>)
    ensures |r| == |xs|
    ensures forall i :: 0 <= i < |xs| ==> r[i] == f(xs[i])
  {
    seq(|xs|, i requires 0 <= i < |xs| => f(xs[i]))
  }
}
