/** Threads known to share a process, before that process is known: the graph of pending associations. */
module Associations {
  import opened Options

  datatype Thread = Thread(tid: nat, upid: Option<nat>, startNs: int, nameId: nat)

  type Pair = (nat, nat)

  // ---- The graph ------------------------------------------------------------------------------------------

  predicate Joined(pairs: seq<Pair>, u: nat, v: nat) {
    (u, v) in pairs || (v, u) in pairs
  }

  predicate IsPath(pairs: seq<Pair>, path: seq<nat>) {
    path != [] && forall i {:trigger path[i]} :: 0 < i < |path| ==> Joined(pairs, path[i - 1], path[i])
  }

  ghost predicate Connected(pairs: seq<Pair>, u: nat, v: nat) {
    exists path :: IsPath(pairs, path) && path[0] == u && path[|path| - 1] == v
  }

  lemma {:induction false} ConnectedSelf(pairs: seq<Pair>, u: nat)
    ensures Connected(pairs, u, u)
  {
    assert IsPath(pairs, [u]);
  }

  lemma {:induction false} ConnectedStep(pairs: seq<Pair>, u: nat, v: nat, w: nat)
    requires Connected(pairs, u, v) && Joined(pairs, v, w)
    ensures Connected(pairs, u, w)
  {
    var path :| IsPath(pairs, path) && path[0] == u && path[|path| - 1] == v;
    var longer := path + [w];
    assert IsPath(pairs, longer) && longer[0] == u && longer[|longer| - 1] == w;
  }

  /** A set of threads that no pair leads out of. */
  predicate Closed(pairs: seq<Pair>, s: set<nat>) {
    forall p :: p in pairs ==> (p.0 in s <==> p.1 in s)
  }

  lemma {:induction false} ClosedPath(pairs: seq<Pair>, s: set<nat>, path: seq<nat>)
    requires Closed(pairs, s) && IsPath(pairs, path) && path[0] in s
    ensures path[|path| - 1] in s
    decreases |path|
  {
    if |path| > 1 {
      var shorter := path[..|path| - 1];
      assert forall i {:trigger shorter[i]} :: 0 < i < |shorter| ==>
               shorter[i] == path[i] && shorter[i - 1] == path[i - 1];
      ClosedPath(pairs, s, shorter);
      assert Joined(pairs, path[|path| - 2], path[|path| - 1]);
    }
  }

  /** A closed set of threads connected to one of its members is exactly that thread's component. */
  lemma {:induction false} ClosedIsComponent(pairs: seq<Pair>, s: set<nat>, root: nat, v: nat)
    requires Closed(pairs, s) && root in s && (v in s ==> Connected(pairs, root, v))
    ensures v in s <==> Connected(pairs, root, v)
  {
    if Connected(pairs, root, v) {
      var path :| IsPath(pairs, path) && path[0] == root && path[|path| - 1] == v;
      ClosedPath(pairs, s, path);
    }
  }

  // ---- Erasing by swapping with the last -------------------------------------------------------------------

  function Erased(pairs: seq<Pair>, i: nat): seq<Pair>
    requires i < |pairs|
  {
    var last := |pairs| - 1;
    pairs[i := pairs[last]][last := pairs[i]][..last]
  }

  lemma {:induction false} ErasedKeeps(pairs: seq<Pair>, i: nat)
    requires i < |pairs|
    ensures multiset(Erased(pairs, i)) + multiset{pairs[i]} == multiset(pairs)
    ensures forall q :: q in Erased(pairs, i) ==> q in pairs
    ensures Erased(pairs, i)[..i] == pairs[..i]
  {
    var last := |pairs| - 1;
    var front := pairs[..last];
    assert pairs == front + [pairs[last]];
    if i == last {
      assert Erased(pairs, i) == front;
    } else {
      assert Erased(pairs, i) == front[i := pairs[last]];
      assert front[i] == pairs[i];
    }
  }

  // ---- Binding --------------------------------------------------------------------------------------------

  predicate PairOk(threads: seq<Thread>, p: Pair) {
    p.0 < |threads| && p.1 < |threads|
  }

  predicate PairsOk(threads: seq<Thread>, pairs: seq<Pair>) {
    forall p :: p in pairs ==> PairOk(threads, p)
  }

  /** Both threads of the pair are unbound, or both are bound to one process. */
  predicate Agree(threads: seq<Thread>, p: Pair)
    requires PairOk(threads, p)
  {
    threads[p.0].upid == threads[p.1].upid
  }

  predicate AllAgree(threads: seq<Thread>, pairs: seq<Pair>)
    requires PairsOk(threads, pairs)
  {
    forall p :: p in pairs ==> Agree(threads, p)
  }

  /** The pairs agree, but for those that wait for the thread just bound. */
  predicate AgreeBut(threads: seq<Thread>, pairs: seq<Pair>, root: nat)
    requires PairsOk(threads, pairs)
  {
    forall p :: p in pairs ==>
      || Agree(threads, p)
      || (p.0 == root && threads[p.1].upid.None?)
      || (p.1 == root && threads[p.0].upid.None?)
  }

  function BoundIf(thread: Thread, bind: bool, upid: nat): Thread {
    if bind then thread.(upid := Some(upid)) else thread
  }

  /** A thread that is bound stays bound to the same process. */
  predicate BindingKept(before: Thread, after: Thread) {
    before.tid == after.tid && (before.upid.Some? ==> after.upid == before.upid)
  }

  predicate BindingsKept(before: seq<Thread>, after: seq<Thread>) {
    |before| <= |after| && forall u :: 0 <= u < |before| ==> BindingKept(before[u], after[u])
  }

  lemma {:induction false} BindingsKeptOn(a: seq<Thread>, b: seq<Thread>, c: seq<Thread>)
    requires BindingsKept(a, b) && BindingsKept(b, c)
    ensures BindingsKept(a, c)
  {
  }

  /** Every thread that is newly bound is bound to this process. */
  predicate BindsOnly(before: seq<Thread>, after: seq<Thread>, upid: nat) {
    && BindingsKept(before, after)
    && (forall u :: 0 <= u < |before| && before[u].upid.None? ==> after[u].upid.None? || after[u].upid == Some(upid))
    && (forall u :: |before| <= u < |after| ==> after[u].upid.None? || after[u].upid == Some(upid))
  }

  lemma {:induction false} BindsOnlyOn(a: seq<Thread>, b: seq<Thread>, c: seq<Thread>, upid: nat)
    requires BindsOnly(a, b, upid) && BindsOnly(b, c, upid)
    ensures BindsOnly(a, c, upid)
  {
  }

  // ---- Resolving ------------------------------------------------------------------------------------------

  /** Where the search from a thread stands: the threads seen are bound, the pairs gone lie among them. */
  datatype Search = Search(threads: seq<Thread>, pairs: seq<Pair>, seen: set<nat>, gone: seq<Pair>)

  ghost predicate Underway(threads: seq<Thread>, pairs: seq<Pair>, root: nat, upid: nat, s: Search) {
    && root in s.seen
    && |s.threads| == |threads|
    && (forall u :: u in s.seen ==> Reached(threads, pairs, root, upid, u))
    && (forall u :: 0 <= u < |threads| ==> s.threads[u] == BoundIf(threads[u], u in s.seen, upid))
    && multiset(s.pairs) + multiset(s.gone) == multiset(pairs)
    && (forall g :: g in s.gone ==> g.0 in s.seen && g.1 in s.seen)
  }

  ghost predicate Reached(threads: seq<Thread>, pairs: seq<Pair>, root: nat, upid: nat, u: nat) {
    u < |threads| && Connected(pairs, root, u) && (threads[u].upid.None? || threads[u].upid == Some(upid))
  }

  /** Every pair that touches a thread seen touches one still to be looked at. */
  predicate Frontier(pairs: seq<Pair>, seen: set<nat>, work: seq<nat>) {
    forall p :: p in pairs ==> p.0 in seen || p.1 in seen ==> p.0 in work || p.1 in work
  }

  predicate Resolvable(threads: seq<Thread>, pairs: seq<Pair>, root: nat, upid: nat) {
    && PairsOk(threads, pairs) && AgreeBut(threads, pairs, root)
    && root < |threads| && threads[root].upid == Some(upid)
  }

  lemma {:induction false} StartSearch(threads: seq<Thread>, pairs: seq<Pair>, root: nat, upid: nat)
    requires Resolvable(threads, pairs, root, upid)
    ensures Underway(threads, pairs, root, upid, Search(threads, pairs, {root}, []))
    ensures Frontier(pairs, {root}, [root])
  {
    ConnectedSelf(pairs, root);
    var s := Search(threads, pairs, {root}, []);
    assert multiset(s.pairs) + multiset(s.gone) == multiset(pairs);
    assert forall p :: p in pairs && (p.0 in {root} || p.1 in {root}) ==> p.0 in [root] || p.1 in [root];
  }

  /** What the search does with a pair that touches a thread it has seen. */
  function Followed(s: Search, i: nat, other: nat, upid: nat): Search
    requires i < |s.pairs| && other < |s.threads|
  {
    Search(s.threads[other := s.threads[other].(upid := Some(upid))], Erased(s.pairs, i),
           s.seen + {other}, s.gone + [s.pairs[i]])
  }

  /** The other end of a pair is unbound or bound to the same process. */
  lemma {:induction false} OtherEnd(threads: seq<Thread>, pairs: seq<Pair>, root: nat, upid: nat, s: Search, p: Pair,
                                    utid: nat, other: nat)
    requires Resolvable(threads, pairs, root, upid) && Underway(threads, pairs, root, upid, s)
    requires p in s.pairs && utid in s.seen && (p == (utid, other) || p == (other, utid))
    ensures Reached(threads, pairs, root, upid, other)
    ensures s.threads[other].upid.None? || s.threads[other].upid == Some(upid)
  {
    assert p in pairs by {
      assert p in multiset(s.pairs) + multiset(s.gone);
    }
    assert PairOk(threads, p);
    assert Reached(threads, pairs, root, upid, utid);
    assert Joined(pairs, utid, other);
    ConnectedStep(pairs, root, utid, other);
    assert Agree(threads, p) || (p.0 == root && threads[p.1].upid.None?) || (p.1 == root && threads[p.0].upid.None?);
  }

  lemma {:induction false} FollowedUnderway(threads: seq<Thread>, pairs: seq<Pair>, root: nat, upid: nat, s: Search,
                                            i: nat, utid: nat, other: nat)
    requires Resolvable(threads, pairs, root, upid) && Underway(threads, pairs, root, upid, s)
    requires i < |s.pairs| && utid in s.seen && (s.pairs[i] == (utid, other) || s.pairs[i] == (other, utid))
    ensures other < |threads| && Underway(threads, pairs, root, upid, Followed(s, i, other, upid))
  {
    OtherEnd(threads, pairs, root, upid, s, s.pairs[i], utid, other);
    var r := Followed(s, i, other, upid);
    ErasedKeeps(s.pairs, i);
    assert multiset(r.gone) == multiset(s.gone) + multiset{s.pairs[i]};
    assert multiset(r.pairs) + multiset(r.gone) == multiset(pairs);
    forall u | 0 <= u < |threads|
      ensures r.threads[u] == BoundIf(threads[u], u in r.seen, upid)
    {
    }
    forall g | g in r.gone
      ensures g.0 in r.seen && g.1 in r.seen
    {
    }
  }

  /** When nothing is left to look at, the threads seen are the component and the pairs gone are its pairs. */
  lemma {:induction false} SearchDone(threads: seq<Thread>, pairs: seq<Pair>, root: nat, upid: nat, s: Search)
    requires Resolvable(threads, pairs, root, upid) && Underway(threads, pairs, root, upid, s)
    requires Frontier(s.pairs, s.seen, [])
    ensures Resolved(threads, pairs, root, upid, s.threads, s.pairs)
  {
    assert Closed(pairs, s.seen) by {
      forall p | p in pairs
        ensures p.0 in s.seen <==> p.1 in s.seen
      {
        assert p in multiset(s.pairs) + multiset(s.gone);
      }
    }
    forall u: nat
      ensures u in s.seen <==> Connected(pairs, root, u)
    {
      ClosedIsComponent(pairs, s.seen, root, u);
    }
    forall p: Pair
      ensures multiset(s.pairs)[p] == if Connected(pairs, root, p.0) then 0 else multiset(pairs)[p]
    {
      assert (multiset(s.pairs) + multiset(s.gone))[p] == multiset(pairs)[p];
      if p.0 in s.seen {
        assert p !in s.pairs;
      } else {
        assert p !in s.gone;
      }
    }
  }

  /** Exactly the component of the thread is bound, exactly its pairs are gone, and all else is as it was. */
  ghost predicate Resolved(threads: seq<Thread>, pairs: seq<Pair>, root: nat, upid: nat, threads': seq<Thread>,
                           pairs': seq<Pair>) {
    && |threads'| == |threads|
    && (forall u :: 0 <= u < |threads| ==> threads'[u] == BoundIf(threads[u], Connected(pairs, root, u), upid))
    && (forall p :: multiset(pairs')[p] == if Connected(pairs, root, p.0) then 0 else multiset(pairs)[p])
  }

  /** After that every pair that is left agrees, and no thread changed the process it was bound to. */
  lemma {:induction false} ResolvedAgrees(threads: seq<Thread>, pairs: seq<Pair>, root: nat, upid: nat,
                                          threads': seq<Thread>, pairs': seq<Pair>)
    requires Resolvable(threads, pairs, root, upid) && Resolved(threads, pairs, root, upid, threads', pairs')
    requires forall u :: 0 <= u < |threads| && Connected(pairs, root, u) ==>
               threads[u].upid.None? || threads[u].upid == Some(upid)
    ensures PairsOk(threads', pairs') && AllAgree(threads', pairs') && BindsOnly(threads, threads', upid)
  {
    ConnectedSelf(pairs, root);
    forall p | p in pairs'
      ensures PairOk(threads', p) && Agree(threads', p)
    {
      assert multiset(pairs')[p] > 0;
      assert p in pairs && !Connected(pairs, root, p.0);
      assert PairOk(threads, p) && Joined(pairs, p.1, p.0);
      if Connected(pairs, root, p.1) {
        ConnectedStep(pairs, root, p.1, p.0);
      }
    }
  }

  /** The threads connected to a bound thread are unbound or bound to the same process. */
  lemma {:induction false} ConnectedAgree(threads: seq<Thread>, pairs: seq<Pair>, root: nat, upid: nat, path: seq<nat>)
    requires Resolvable(threads, pairs, root, upid) && IsPath(pairs, path) && path[0] == root
    ensures path[|path| - 1] < |threads|
    ensures var u := path[|path| - 1]; threads[u].upid.None? || threads[u].upid == Some(upid)
    decreases |path|
  {
    hide AgreeBut, PairsOk, Joined;
    if |path| > 1 {
      var shorter := path[..|path| - 1];
      assert forall i {:trigger shorter[i]} :: 0 < i < |shorter| ==>
               shorter[i] == path[i] && shorter[i - 1] == path[i - 1];
      ConnectedAgree(threads, pairs, root, upid, shorter);
      assert Joined(pairs, path[|path| - 2], path[|path| - 1]);
      JoinedAgree(threads, pairs, root, upid, path[|path| - 2], path[|path| - 1]);
    }
  }

  lemma {:induction false} JoinedAgree(threads: seq<Thread>, pairs: seq<Pair>, root: nat, upid: nat, v: nat, u: nat)
    requires Resolvable(threads, pairs, root, upid) && Joined(pairs, v, u)
    requires v < |threads| && (threads[v].upid.None? || threads[v].upid == Some(upid))
    ensures u < |threads| && (threads[u].upid.None? || threads[u].upid == Some(upid))
  {
  }
}
