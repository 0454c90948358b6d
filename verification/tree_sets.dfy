/**
 * Sets of broker ids as the handler builds them: `new TreeSet<>(replicas)`
 * followed by an in-place `removeAll`. A TreeSet<Integer> is modelled by
 * the strictly ascending sequence of its elements, which is also the order
 * its for-each loop visits them.
 */
module TreeSets {

  predicate StrictlyAscending(s: seq<int>) {
    forall i, j :: 0 <= i < j < |s| ==> s[i] < s[j]
  }

  function Elems(s: seq<int>): set<int> {
    set x | x in s
  }

  lemma NonEmptyHasElement(s: set<int>)
    requires s != {}
    ensures exists x :: x in s
  {
    if forall x :: x !in s { assert false; }
  }

  /** The least element of a non-empty finite set. */
  ghost function Min(s: set<int>): (m: int)
    requires s != {}
    ensures m in s && forall y :: y in s ==> m <= y
    decreases s
  {
    NonEmptyHasElement(s);
    var x :| x in s;
    var rest := s - {x};
    assert forall y :: y in s ==> y == x || y in rest;
    if rest == {} then x
    else
      var r := Min(rest);
      if x <= r then x else r
  }

  lemma ElemsAppend(t: seq<int>, x: int)
    ensures Elems(t + [x]) == Elems(t) + {x}
  {
    assert forall y :: y in t + [x] <==> y in t || y == x;
  }

  lemma HeadIsElement(a: seq<int>)
    requires a != []
    ensures a[0] in Elems(a) && Elems(a) != {}
  {
  }

  /** The first element of a strictly ascending sequence is its least, and the rest holds the others. */
  lemma HeadIsLeast(a: seq<int>)
    requires StrictlyAscending(a) && a != []
    ensures forall x :: x in Elems(a) ==> a[0] <= x
    ensures StrictlyAscending(a[1..])
    ensures Elems(a[1..]) == Elems(a) - {a[0]}
  {
    forall x | x in Elems(a) ensures a[0] <= x {
      var i :| 0 <= i < |a| && a[i] == x;
    }
    forall x | x in Elems(a[1..]) ensures x in Elems(a) && x != a[0] {
      var i :| 0 <= i < |a[1..]| && a[1..][i] == x;
      assert a[i + 1] == x;
    }
    forall x | x in Elems(a) && x != a[0] ensures x in Elems(a[1..]) {
      var i :| 0 <= i < |a| && a[i] == x;
      assert a[1..][i - 1] == x;
    }
  }

  lemma ConsAscending(m: int, rest: seq<int>)
    requires StrictlyAscending(rest)
    requires forall y :: y in Elems(rest) ==> m < y
    ensures StrictlyAscending([m] + rest)
    ensures Elems([m] + rest) == {m} + Elems(rest)
  {
    var r := [m] + rest;
    forall i, j | 0 <= i < j < |r| ensures r[i] < r[j] {
      assert r[j] == rest[j - 1] && rest[j - 1] in Elems(rest);
      if i > 0 { assert r[i] == rest[i - 1]; }
    }
    assert forall y :: y in r <==> y == m || y in rest;
  }

  /** Listing the least element of `s` before a listing of the others lists `s`. */
  lemma LeastFirst(s: set<int>, m: int, rest: seq<int>)
    requires m in s && forall y :: y in s ==> m <= y
    requires StrictlyAscending(rest) && Elems(rest) == s - {m} && |rest| == |s - {m}|
    ensures StrictlyAscending([m] + rest) && Elems([m] + rest) == s && |[m] + rest| == |s|
  {
    forall y | y in Elems(rest) ensures m < y {
      assert y in s && y != m;
    }
    ConsAscending(m, rest);
    assert {m} + (s - {m}) == s;
  }

  /** The elements of `s` in ascending order: what a TreeSet of `s` iterates. */
  ghost function Ascending(s: set<int>): (r: seq<int>)
    ensures StrictlyAscending(r) && Elems(r) == s && |r| == |s|
    decreases s
  {
    if s == {} then []
    else
      var m := Min(s);
      var rest := Ascending(s - {m});
      LeastFirst(s, m, rest);
      [m] + rest
  }

  /** A strictly ascending sequence is determined by its elements. */
  lemma {:induction false} AscendingUnique(a: seq<int>, b: seq<int>)
    requires StrictlyAscending(a) && StrictlyAscending(b)
    requires Elems(a) == Elems(b)
    ensures a == b
    decreases |a|
  {
    if a == [] {
      if b != [] {
        HeadIsElement(b);
        assert false;
      }
    } else {
      HeadIsElement(a);
      if b == [] { assert false; }
      HeadIsElement(b);
      HeadIsLeast(a);
      HeadIsLeast(b);
      assert a[0] == b[0];
      AscendingUnique(a[1..], b[1..]);
      assert a == [a[0]] + a[1..] && b == [b[0]] + b[1..];
    }
  }

  lemma SnocAscending(t: seq<int>, m: int)
    requires StrictlyAscending(t)
    requires forall x :: x in Elems(t) ==> x < m
    ensures StrictlyAscending(t + [m])
    ensures Elems(t + [m]) == Elems(t) + {m}
  {
    var r := t + [m];
    forall i, j | 0 <= i < j < |r| ensures r[i] < r[j] {
      assert r[i] == t[i] && t[i] in Elems(t);
    }
    ElemsAppend(t, m);
  }

  /** A strictly ascending sequence is the ascending listing of its own elements. */
  lemma AscendingOfElems(t: seq<int>)
    requires StrictlyAscending(t)
    ensures t == Ascending(Elems(t))
  {
    AscendingUnique(t, Ascending(Elems(t)));
  }

  /** A TreeSet listing has one entry per element. */
  lemma ListingSize(t: seq<int>)
    requires StrictlyAscending(t)
    ensures |Elems(t)| == |t|
  {
    AscendingOfElems(t);
  }

  lemma CardWithout(s: set<int>, x: int)
    requires x in s
    ensures |s - {x}| == |s| - 1
  {
    assert s == (s - {x}) + {x};
  }

  /**
   * Selection state while listing `s` in order: `t` is the ascending prefix
   * taken so far and `rest` the elements of `s` still to take, all above it.
   */
  ghost predicate Selecting(t: seq<int>, rest: set<int>, s: set<int>) {
    && StrictlyAscending(t)
    && Elems(t) + rest == s
    && Elems(t) !! rest
    && forall x, y :: x in Elems(t) && y in rest ==> x < y
  }

  lemma SelectingStep(t: seq<int>, rest: set<int>, s: set<int>, m: int)
    requires Selecting(t, rest, s)
    requires m in rest && forall y :: y in rest ==> m <= y
    ensures Selecting(t + [m], rest - {m}, s)
  {
    SnocAscending(t, m);
  }

  /** `new TreeSet<>(c)`: the elements of the collection `c`, sorted and without duplicates. */
  method NewTreeSet(c: seq<int>) returns (t: seq<int>)
    ensures StrictlyAscending(t) && Elems(t) == Elems(c)
    ensures t == Ascending(Elems(c))
  {
    t := [];
    var rest := Elems(c);
    while rest != {}
      invariant Selecting(t, rest, Elems(c))
      decreases rest
    {
      ghost var least := Min(rest);
      assert least in rest && forall y :: y in rest ==> least <= y;
      var m :| m in rest && forall y :: y in rest ==> m <= y;
      SelectingStep(t, rest, Elems(c), m);
      t := t + [m];
      rest := rest - {m};
    }
    AscendingOfElems(t);
  }

  /** `t.removeAll(c)` on a TreeSet `t`: drops every element of `c`, keeping the order. */
  method RemoveAll(t: seq<int>, c: seq<int>) returns (r: seq<int>)
    requires StrictlyAscending(t)
    ensures StrictlyAscending(r) && Elems(r) == Elems(t) - Elems(c)
    ensures r == Ascending(Elems(t) - Elems(c))
  {
    r := [];
    var i := 0;
    while i < |t|
      invariant 0 <= i <= |t|
      invariant StrictlyAscending(r)
      invariant Elems(r) == Elems(t[..i]) - Elems(c)
    {
      assert t[..i + 1] == t[..i] + [t[i]];
      ElemsAppend(t[..i], t[i]);
      if t[i] !in c {
        forall x | x in Elems(r) ensures x < t[i] {
          var k :| 0 <= k < i && t[k] == x;
        }
        SnocAscending(r, t[i]);
        r := r + [t[i]];
      }
      i := i + 1;
    }
    assert t[..i] == t;
    AscendingUnique(r, Ascending(Elems(t) - Elems(c)));
  }
}
