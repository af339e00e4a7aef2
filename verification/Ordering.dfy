/** Sets of numbers in order, as a sorted map is walked. */
module Ordering {
  predicate Sorted(s: seq<nat>) {
    forall i, j :: 0 <= i < j < |s| ==> s[i] < s[j]
  }

  predicate IsLeast(s: set<nat>, m: nat) {
    m in s && forall x :: x in s ==> m <= x
  }

  lemma {:induction false} LeastExists(s: set<nat>)
    requires s != {}
    ensures exists m :: IsLeast(s, m)
    decreases |s|
  {
    var x :| x in s;
    var rest := s - {x};
    if rest == {} {
      assert forall y :: y in s && y != x ==> y in rest;
      assert IsLeast(s, x);
    } else {
      LeastExists(rest);
      var m :| IsLeast(rest, m);
      assert forall y :: y in s ==> y == x || y in rest;
      assert IsLeast(s, if m <= x then m else x);
    }
  }

  function Least(s: set<nat>): (m: nat)
    requires s != {}
    ensures IsLeast(s, m)
  {
    LeastExists(s);
    var m :| IsLeast(s, m);
    m
  }

  /** The members of a set in ascending order. */
  function InOrder(s: set<nat>): (r: seq<nat>)
    ensures |r| == |s| && forall x :: x in r <==> x in s
    decreases |s|
  {
    if s == {} then [] else [Least(s)] + InOrder(s - {Least(s)})
  }

  lemma {:induction false} InOrderSorted(s: set<nat>)
    ensures Sorted(InOrder(s))
    decreases |s|
  {
    if s != {} {
      var m := Least(s);
      var rest := InOrder(s - {m});
      InOrderSorted(s - {m});
      forall i | 0 <= i < |rest|
        ensures m < rest[i]
      {
        assert rest[i] in rest;
      }
    }
  }

  /** There is only one way to put a set in order. */
  lemma {:induction false} InOrderIs(s: set<nat>, r: seq<nat>)
    requires Sorted(r) && forall x :: x in r <==> x in s
    ensures InOrder(s) == r
    decreases |r|
  {
    if r != [] {
      assert r[0] in r && r == [r[0]] + r[1..];
      assert Least(s) == r[0] by {
        assert IsLeast(s, r[0]);
      }
      InOrderIs(s - {r[0]}, r[1..]);
    }
  }
}
