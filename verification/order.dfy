/** Orders and sorting. Python compares strings code point by code point, and
    `sorted(set)` lists a set's elements in ascending order; minute keys
    (`YYYY-MM-DDTHH:MM`) and slot numbers are both sorted that way. */
module Order {
  import opened Sums

  /** `le` is a total order: reflexive, antisymmetric, transitive and total. */
  ghost predicate TotalOrder<T(!new)>(le: (T, T) -> bool) {
    && (forall x :: le(x, x))
    && (forall x, y :: le(x, y) && le(y, x) ==> x == y)
    && (forall x, y, z :: le(x, y) && le(y, z) ==> le(x, z))
    && (forall x, y :: le(x, y) || le(y, x))
  }

  /** Python's `a < b` on strings: lexicographic by code point. */
  predicate LexLess(a: string, b: string) {
    if a == [] then b != []
    else if b == [] then false
    else if a[0] != b[0] then a[0] < b[0]
    else LexLess(a[1..], b[1..])
  }

  predicate LexLe(a: string, b: string) {
    a == b || LexLess(a, b)
  }

  lemma {:induction false} LexLessIrreflexive(a: string)
    ensures !LexLess(a, a)
  {
    if a != [] {
      LexLessIrreflexive(a[1..]);
    }
  }

  lemma {:induction false} LexLessAsymmetric(a: string, b: string)
    ensures !(LexLess(a, b) && LexLess(b, a))
  {
    if a != [] && b != [] && a[0] == b[0] {
      LexLessAsymmetric(a[1..], b[1..]);
    }
  }

  lemma {:induction false} LexLessTransitive(a: string, b: string, c: string)
    requires LexLess(a, b) && LexLess(b, c)
    ensures LexLess(a, c)
  {
    if a != [] && b != [] && c != [] && a[0] == b[0] && b[0] == c[0] {
      LexLessTransitive(a[1..], b[1..], c[1..]);
    }
  }

  lemma {:induction false} LexLessTotal(a: string, b: string)
    ensures a == b || LexLess(a, b) || LexLess(b, a)
  {
    if a != [] && b != [] && a[0] == b[0] {
      LexLessTotal(a[1..], b[1..]);
      if a[1..] == b[1..] {
        assert a == [a[0]] + a[1..] && b == [b[0]] + b[1..];
      }
    }
  }

  /** Lexicographic order on strings is a total order. */
  lemma LexLeTotalOrder()
    ensures TotalOrder(LexLe)
  {
    forall x: string ensures !LexLess(x, x) {
      LexLessIrreflexive(x);
    }
    forall x: string, y: string | LexLe(x, y) && LexLe(y, x) ensures x == y {
      LexLessAsymmetric(x, y);
    }
    forall x: string, y: string, z: string | LexLe(x, y) && LexLe(y, z) ensures LexLe(x, z) {
      if x != y && y != z {
        LexLessTransitive(x, y, z);
      }
    }
    forall x: string, y: string ensures LexLe(x, y) || LexLe(y, x) {
      LexLessTotal(x, y);
    }
  }

  predicate NatLt(a: nat, b: nat) {
    a < b
  }

  /** A non-empty finite set has a least element under a total order. */
  lemma {:induction false} LeastExists<T(!new)>(s: set<T>, le: (T, T) -> bool)
    requires TotalOrder(le)
    requires s != {}
    ensures exists m :: m in s && forall x :: x in s ==> le(m, x)
    decreases s
  {
    var y :| y in s;
    var rest := s - {y};
    if rest == {} {
      assert s == {y};
      assert le(y, y);
    } else {
      LeastExists(rest, le);
      var m :| m in rest && forall x :: x in rest ==> le(m, x);
      var least := if le(m, y) then m else y;
      LeastExtends(s, rest, y, m, least, le);
    }
  }

  lemma LeastExtends<T(!new)>(s: set<T>, rest: set<T>, y: T, m: T, least: T, le: (T, T) -> bool)
    requires TotalOrder(le)
    requires s == rest + {y} && m in rest
    requires forall x :: x in rest ==> le(m, x)
    requires least == if le(m, y) then m else y
    ensures least in s && forall x :: x in s ==> le(least, x)
  {
    forall x | x in s ensures le(least, x) {
      if x == y {
        assert le(m, y) || le(y, y);
      } else {
        assert le(m, x);
        if least == y {
          assert le(y, m);
        }
      }
    }
  }

  /** `xs` lists the elements of `s`, each once. */
  ghost predicate Enumerates<T(!new)>(xs: seq<T>, s: set<T>) {
    && |xs| == |s|
    && (forall x :: x in xs <==> x in s)
    && Distinct(xs)
  }

  /** `xs` lists `s`, each element once, ascending under `lt`. */
  ghost predicate Lists<T(!new)>(xs: seq<T>, s: set<T>, lt: (T, T) -> bool) {
    Enumerates(xs, s) && forall i, j :: 0 <= i < j < |xs| ==> lt(xs[i], xs[j])
  }

  /** The elements of a listing of `s` are `s`. */
  lemma EnumeratesElems<T(!new)>(xs: seq<T>, s: set<T>)
    requires Enumerates(xs, s)
    ensures (set x | x in xs) == s
  {
  }

  /** Putting the least element of `s` in front of a listing of the rest
      lists `s`. */
  lemma PrependLeast<T(!new)>(m: T, rest: seq<T>, s: set<T>, lt: (T, T) -> bool)
    requires m in s && Lists(rest, s - {m}, lt)
    requires forall x :: x in s && x != m ==> lt(m, x)
    ensures Lists([m] + rest, s, lt)
  {
    var r := [m] + rest;
    forall i, j | 0 <= i < j < |r| ensures lt(r[i], r[j]) && r[i] != r[j] {
      assert r[j] == rest[j - 1] && r[j] in s - {m};
      if i > 0 {
        assert r[i] == rest[i - 1];
      }
    }
    forall x ensures x in r <==> x in s {
      assert x in r <==> x == m || x in rest;
    }
  }

  /** A non-empty set of strings has a least element. */
  lemma LeastString(s: set<string>)
    requires s != {}
    ensures exists m :: m in s && forall x :: x in s && x != m ==> LexLess(m, x)
  {
    LexLeTotalOrder();
    LeastExists(s, LexLe);
    var m :| m in s && forall x :: x in s ==> LexLe(m, x);
    assert forall x :: x in s && x != m ==> LexLess(m, x);
  }

  /** Some element of a non-empty set. */
  lemma Pick<T>(s: set<T>) returns (y: T)
    requires s != {}
    ensures y in s
  {
    y :| y in s;
  }

  /** A non-empty set of naturals has a least element. */
  lemma {:induction false} LeastNat(s: set<nat>)
    requires s != {}
    ensures exists m :: m in s && forall x :: x in s && x != m ==> m < x
    decreases s
  {
    var y := Pick(s);
    if s - {y} != {} {
      LeastNat(s - {y});
      var m :| m in s - {y} && forall x :: x in s - {y} && x != m ==> m < x;
      LeastNatExtends(s, y, m);
    } else {
      assert s == {y};
    }
  }

  /** The lesser of `y` and the least of the rest is the least of all. */
  lemma LeastNatExtends(s: set<nat>, y: nat, m: nat)
    requires y in s && m in s - {y}
    requires forall x :: x in s - {y} && x != m ==> m < x
    ensures var least := if m < y then m else y;
            least in s && forall x :: x in s && x != least ==> least < x
  {
    var least := if m < y then m else y;
    forall x | x in s && x != least ensures least < x {
      if x != y {
        assert x in s - {y};
      }
    }
  }

  /** The least string of a non-empty set. */
  function MinString(s: set<string>): (m: string)
    requires s != {}
    ensures m in s && forall x :: x in s && x != m ==> LexLess(m, x)
  {
    LeastString(s);
    forall a, b | a in s && b in s ensures !(LexLess(a, b) && LexLess(b, a)) {
      LexLessAsymmetric(a, b);
    }
    var m :| m in s && forall x :: x in s && x != m ==> LexLess(m, x);
    m
  }

  /** The least natural of a non-empty set. */
  function MinNat(s: set<nat>): (m: nat)
    requires s != {}
    ensures m in s && forall x :: x in s && x != m ==> m < x
  {
    LeastNat(s);
    var m :| m in s && forall x :: x in s && x != m ==> m < x;
    m
  }

  /** Python's `sorted(s)` on a set of strings: its elements, each once, in
      ascending order. */
  function SortStrings(s: set<string>): (r: seq<string>)
    ensures Lists(r, s, LexLess)
    decreases s
  {
    if s == {} then []
    else
      var m := MinString(s);
      var rest := SortStrings(s - {m});
      PrependLeast(m, rest, s, LexLess);
      [m] + rest
  }

  /** Python's `sorted(s)` on a set of naturals. */
  function SortNats(s: set<nat>): (r: seq<nat>)
    ensures Lists(r, s, NatLt)
    decreases s
  {
    if s == {} then []
    else
      var m := MinNat(s);
      var rest := SortNats(s - {m});
      PrependLeast(m, rest, s, NatLt);
      [m] + rest
  }
}
