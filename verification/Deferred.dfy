/** A callback that is held in one place at a time and is rejected when that place goes away. */
module Deferred {
  import opened Options
  import opened Rpc
  import opened RpcCallbacks

  /** What each callback was given. */
  class Sink {
    var results: map<nat, seq<Result>>

    constructor ()
      ensures results == map[]
    {
      results := map[];
    }
  }

  /** One more result for a callback, if there is one. */
  function GivenTo(callback: Option<nat>, r: Result, results: map<nat, seq<Result>>): map<nat, seq<Result>>
    requires callback.Some? ==> callback.value in results
  {
    if callback.None? then results else results[callback.value := results[callback.value] + [r]]
  }

  class DeferredBase {
    var callback: Option<nat>

    constructor (callback: Option<nat>)
      ensures this.callback == callback
    {
      this.callback := callback;
    }

    predicate IsBound()
      reads this
    {
      callback.Some?
    }

    /** Takes a callback. One that is there already is lost: it is not rejected. */
    method Bind(k: nat)
      modifies this
      ensures callback == Some(k)
    {
      callback := Some(k);
    }

    /** Hands a result to the callback, which is let go with the last one. */
    method Resolve(r: Result, sink: Sink)
      requires callback.Some? ==> callback.value in sink.results
      modifies this, sink
      ensures callback == if r.hasMore then old(callback) else None
      ensures sink.results == GivenTo(old(callback), r, old(sink.results))
      ensures old(callback).Some? ==>
                var k := old(callback).value;
                && k in sink.results && sink.results[k] == old(sink.results)[k] + [r]
                && sink.results - {k} == old(sink.results) - {k}
    {
      if callback.None? {
        return;
      }
      sink.results := sink.results[callback.value := sink.results[callback.value] + [r]];
      if !r.hasMore {
        callback := None;
      }
    }

    /** A rejection is a last result without a message. */
    method Reject(sink: Sink)
      requires callback.Some? ==> callback.value in sink.results
      modifies this, sink
      ensures callback.None?
      ensures sink.results == GivenTo(old(callback), Result(None, false), old(sink.results))
    {
      Resolve(REJECTED, sink);
    }

    /** What the destructor does. */
    method Destroy(sink: Sink)
      requires callback.Some? ==> callback.value in sink.results
      modifies this, sink
      ensures callback.None?
      ensures sink.results == GivenTo(old(callback), Result(None, false), old(sink.results))
    {
      if callback.Some? {
        Reject(sink);
      }
    }

    method Move(other: DeferredBase)
      modifies this, other
      ensures callback == if other == this then None else old(other.callback)
      ensures other.callback.None?
    {
      callback := other.callback;
      other.callback := None;
    }

    /** Assignment rejects what is there and takes over from the other one. Assigning an object to itself
        leaves nothing in it. */
    method Assign(other: DeferredBase, sink: Sink)
      requires callback.Some? ==> callback.value in sink.results
      modifies this, other, sink
      ensures callback == (if other == this then None else old(other.callback)) && other.callback.None?
      ensures sink.results == GivenTo(old(callback), Result(None, false), old(sink.results))
    {
      if callback.Some? {
        Reject(sink);
      }
      Move(other);
    }
  }

  // ---- Whole lives ----------------------------------------------------------------------------------------

  /** Where each of a number of places has a callback. */
  type Holders = seq<Option<nat>>

  /** The callbacks that are held, and what every callback bound so far was given. */
  datatype World = World(holders: Holders, results: map<nat, seq<Result>>) {
    predicate Known() {
      forall i :: 0 <= i < |holders| && holders[i].Some? ==> holders[i].value in results
    }
  }

  /** What a program does with its places. Each callback is a new one when it is bound. */
  datatype Op = BindAt(i: nat, k: nat) | ResolveAt(i: nat, r: Result) | AssignTo(i: nat, j: nat) | DestroyAt(i: nat)

  function Resolved(w: World, i: nat, r: Result): (v: World)
    requires w.Known() && i < |w.holders|
    ensures v.Known() && |v.holders| == |w.holders| && v.results.Keys == w.results.Keys
  {
    World(if r.hasMore then w.holders else w.holders[i := None], GivenTo(w.holders[i], r, w.results))
  }

  function After(w: World, op: Op): (v: World)
    requires w.Known()
    ensures v.Known() && |v.holders| == |w.holders|
  {
    match op
    case BindAt(i, k) =>
      if i < |w.holders| && k !in w.results then World(w.holders[i := Some(k)], w.results[k := []]) else w
    case ResolveAt(i, r) =>
      if i < |w.holders| then Resolved(w, i, r) else w
    case AssignTo(i, j) =>
      if i < |w.holders| && j < |w.holders| then
        var v := Resolved(w, i, REJECTED);
        v.(holders := v.holders[i := v.holders[j]][j := None])
      else w
    case DestroyAt(i) =>
      if i < |w.holders| then Resolved(w, i, REJECTED) else w
  }

  function Run(count: nat, ops: seq<Op>): (w: World)
    ensures w.Known() && |w.holders| == count
  {
    if ops == [] then World(seq(count, _ => None), map[]) else After(Run(count, ops[..|ops| - 1]), ops[|ops| - 1])
  }

  /** The first `n` places go away. */
  function Gone(w: World, n: nat): (v: World)
    requires w.Known() && n <= |w.holders|
    ensures v.Known() && |v.holders| == |w.holders| && v.results.Keys == w.results.Keys
  {
    if n == 0 then w else Resolved(Gone(w, n - 1), n - 1, REJECTED)
  }

  // ---- What becomes of a callback -------------------------------------------------------------------------

  ghost predicate Held(holders: Holders, k: nat) {
    exists i :: 0 <= i < |holders| && holders[i] == Some(k)
  }

  predicate Binds(count: nat, op: Op, k: nat) {
    op.BindAt? && op.i < count && op.k == k
  }

  ghost predicate Bound(count: nat, ops: seq<Op>, k: nat) {
    exists n :: 0 <= n < |ops| && Binds(count, ops[n], k)
  }

  /** A new callback is put in the place that holds callback `k`. */
  predicate Overwrites(w: World, op: Op, k: nat) {
    op.BindAt? && op.i < |w.holders| && op.k !in w.results && w.holders[op.i] == Some(k)
  }

  ghost predicate Overwritten(count: nat, ops: seq<Op>, k: nat) {
    exists n :: 0 <= n < |ops| && Overwrites(Run(count, ops[..n]), ops[n], k)
  }

  /** The results that one operation gives callback `k`. */
  function Gives(holders: Holders, op: Op, k: nat): seq<Result> {
    match op
    case BindAt(_, _) => []
    case ResolveAt(i, r) => if i < |holders| && holders[i] == Some(k) then [r] else []
    case AssignTo(i, j) => if i < |holders| && j < |holders| && holders[i] == Some(k) then [REJECTED] else []
    case DestroyAt(i) => if i < |holders| && holders[i] == Some(k) then [REJECTED] else []
  }

  /** The results given to the place that held callback `k` at the time, in order. */
  function Given(count: nat, ops: seq<Op>, k: nat): seq<Result> {
    if ops == [] then []
    else
      var before := ops[..|ops| - 1];
      Given(count, before, k) + Gives(Run(count, before).holders, ops[|ops| - 1], k)
  }

  /** Each callback is in one place at most; one that is held, or was lost, has had no last result, and any
      other exactly one. */
  ghost predicate LinearOk(w: World, lost: set<nat>) {
    && w.Known()
    && (forall i, j :: 0 <= i < j < |w.holders| && w.holders[i].Some? ==> w.holders[i] != w.holders[j])
    && (forall i :: 0 <= i < |w.holders| && w.holders[i].Some? ==> w.holders[i].value !in lost)
    && (forall k :: k in w.results ==>
         if Held(w.holders, k) || k in lost then AllMore(w.results[k]) else Complete(w.results[k]))
  }

  /** A new callback is bound: exactly in a place that was empty does this keep all callbacks accounted for.
      Otherwise the one that was there is lost. */
  lemma {:induction false} BindLinear(w: World, lost: set<nat>, i: nat, k: nat)
    requires LinearOk(w, lost) && lost <= w.results.Keys && i < |w.holders| && k !in w.results
    ensures LinearOk(After(w, BindAt(i, k)), lost) <==> w.holders[i].None?
    ensures w.holders[i].Some? ==> LinearOk(After(w, BindAt(i, k)), lost + {w.holders[i].value})
  {
    var v := After(w, BindAt(i, k));
    assert v.holders[i] == Some(k);
    forall j | j in w.results
      ensures Held(v.holders, j) <==> Held(w.holders, j) && w.holders[i] != Some(j)
    {
      if Held(w.holders, j) {
        var n :| 0 <= n < |w.holders| && w.holders[n] == Some(j);
        assert n == i || v.holders[n] == Some(j);
      }
    }
    if w.holders[i].Some? {
      assert Held(w.holders, w.holders[i].value);
    }
  }

  /** A result comes: the callback stays, or goes with the last one. */
  lemma {:induction false} ResolveLinear(w: World, lost: set<nat>, i: nat, r: Result)
    requires LinearOk(w, lost) && i < |w.holders|
    ensures LinearOk(Resolved(w, i, r), lost)
  {
    if w.holders[i].None? {
      assert w.holders[i := None] == w.holders;
    } else {
      var k, v := w.holders[i].value, Resolved(w, i, r);
      assert Held(w.holders, k);
      CompleteSnoc(w.results[k], r);
      forall j | j in w.results && j != k
        ensures Held(v.holders, j) <==> Held(w.holders, j)
      {
        if Held(w.holders, j) {
          var n :| 0 <= n < |w.holders| && w.holders[n] == Some(j);
          assert v.holders[n] == Some(j);
        }
      }
      if r.hasMore {
        assert v.holders[i] == Some(k);
      }
    }
  }

  /** A callback moves from one place to an empty one. */
  lemma {:induction false} MoveLinear(w: World, lost: set<nat>, i: nat, j: nat)
    requires LinearOk(w, lost) && i < |w.holders| && j < |w.holders| && w.holders[i].None?
    ensures LinearOk(w.(holders := w.holders[i := w.holders[j]][j := None]), lost)
  {
    var moved := w.holders[i := w.holders[j]][j := None];
    forall k | k in w.results
      ensures Held(moved, k) <==> Held(w.holders, k)
    {
      if Held(w.holders, k) {
        var n :| 0 <= n < |w.holders| && w.holders[n] == Some(k);
        assert moved[if n == j then i else n] == Some(k);
      }
      if Held(moved, k) {
        var n :| 0 <= n < |moved| && moved[n] == Some(k);
        assert w.holders[if n == i then j else n] == Some(k);
      }
    }
  }

  function LostBy(w: World, op: Op): set<nat> {
    if op.BindAt? && op.i < |w.holders| && op.k !in w.results && w.holders[op.i].Some? then {w.holders[op.i].value}
    else {}
  }

  lemma {:induction false} AfterLinear(w: World, lost: set<nat>, op: Op)
    requires w.Known() && LinearOk(w, lost) && lost <= w.results.Keys
    ensures LinearOk(After(w, op), lost + LostBy(w, op)) && lost + LostBy(w, op) <= After(w, op).results.Keys
  {
    hide LinearOk;
    assert lost + {} == lost;
    if op.BindAt? && op.i < |w.holders| && op.k !in w.results {
      BindLinear(w, lost, op.i, op.k);
    } else if !op.BindAt? && op.i < |w.holders| {
      ResolveLinear(w, lost, op.i, if op.ResolveAt? then op.r else REJECTED);
      if op.AssignTo? && op.j < |w.holders| {
        MoveLinear(Resolved(w, op.i, REJECTED), lost, op.i, op.j);
      }
    }
  }

  function LostIn(count: nat, ops: seq<Op>): set<nat> {
    if ops == [] then {}
    else LostIn(count, ops[..|ops| - 1]) + LostBy(Run(count, ops[..|ops| - 1]), ops[|ops| - 1])
  }

  lemma {:induction false} RunLinear(count: nat, ops: seq<Op>)
    ensures LinearOk(Run(count, ops), LostIn(count, ops)) && LostIn(count, ops) <= Run(count, ops).results.Keys
  {
    if ops != [] {
      RunLinear(count, ops[..|ops| - 1]);
      AfterLinear(Run(count, ops[..|ops| - 1]), LostIn(count, ops[..|ops| - 1]), ops[|ops| - 1]);
    }
  }

  lemma {:induction false} OverwrittenStep(count: nat, before: seq<Op>, op: Op, k: nat)
    ensures Overwritten(count, before + [op], k)
        <==> Overwritten(count, before, k) || Overwrites(Run(count, before), op, k)
  {
    hide Run, Overwrites;
    var ops := before + [op];
    assert ops[..|before|] == before && ops[|before|] == op;
    forall n | 0 <= n < |before|
      ensures ops[..n] == before[..n] && ops[n] == before[n]
    {
    }
    if Overwritten(count, before, k) {
      var n :| 0 <= n < |before| && Overwrites(Run(count, before[..n]), before[n], k);
      assert Overwrites(Run(count, ops[..n]), ops[n], k);
    }
  }

  lemma {:induction false} LostIsOverwritten(count: nat, ops: seq<Op>, k: nat)
    ensures k in LostIn(count, ops) <==> Overwritten(count, ops, k)
  {
    hide Run, Overwritten;
    if ops == [] {
      NoneOverwritten(count, k);
    } else {
      var before, op := ops[..|ops| - 1], ops[|ops| - 1];
      LostIsOverwritten(count, before, k);
      assert ops == before + [op];
      OverwrittenStep(count, before, op, k);
    }
  }

  lemma {:induction false} NoneOverwritten(count: nat, k: nat)
    ensures !Overwritten(count, [], k)
  {
  }

  lemma {:induction false} AfterGives(w: World, op: Op, k: nat)
    requires w.Known()
    ensures k in After(w, op).results <==> k in w.results || Binds(|w.holders|, op, k)
    ensures k in w.results ==> After(w, op).results[k] == w.results[k] + Gives(w.holders, op, k)
    ensures k !in w.results ==> Gives(w.holders, op, k) == []
    ensures k !in w.results && k in After(w, op).results ==> After(w, op).results[k] == []
  {
  }

  lemma {:induction false} BoundStep(count: nat, before: seq<Op>, op: Op, k: nat)
    ensures Bound(count, before + [op], k) <==> Bound(count, before, k) || Binds(count, op, k)
  {
    var ops := before + [op];
    assert forall n :: 0 <= n < |before| ==> ops[n] == before[n];
    assert ops[|before|] == op;
  }

  lemma {:induction false} RunGives(count: nat, ops: seq<Op>, k: nat)
    ensures k in Run(count, ops).results <==> Bound(count, ops, k)
    ensures if k in Run(count, ops).results then Run(count, ops).results[k] == Given(count, ops, k)
            else Given(count, ops, k) == []
  {
    hide After, Gives, Binds, Bound, World.Known;
    if ops == [] {
      NoneBound(count, k);
    } else {
      var before, op := ops[..|ops| - 1], ops[|ops| - 1];
      RunGives(count, before, k);
      AfterGives(Run(count, before), op, k);
      assert ops == before + [op];
      BoundStep(count, before, op, k);
    }
  }

  lemma {:induction false} NoneBound(count: nat, k: nat)
    ensures !Bound(count, [], k)
  {
  }

  lemma {:induction false} GoneLinear(w: World, lost: set<nat>, n: nat)
    requires LinearOk(w, lost) && n <= |w.holders|
    ensures LinearOk(Gone(w, n), lost)
    ensures forall j :: 0 <= j < |w.holders| ==> Gone(w, n).holders[j] == if j < n then None else w.holders[j]
  {
    if n > 0 {
      GoneLinear(w, lost, n - 1);
      ResolveLinear(Gone(w, n - 1), lost, n - 1, REJECTED);
    }
  }

  lemma {:induction false} HeldStep(w: World, lost: set<nat>, n: nat, k: nat)
    requires LinearOk(w, lost) && n < |w.holders|
    ensures Held(w.holders[..n + 1], k) <==> Held(w.holders[..n], k) || w.holders[n] == Some(k)
    ensures Held(w.holders[..n], k) ==> w.holders[n] != Some(k)
  {
    if Held(w.holders[..n], k) {
      var i :| 0 <= i < n && w.holders[..n][i] == Some(k);
      assert w.holders[..n + 1][i] == Some(k) && w.holders[i] == Some(k);
    }
    if Held(w.holders[..n + 1], k) {
      var i :| 0 <= i < n + 1 && w.holders[..n + 1][i] == Some(k);
      assert i < n ==> w.holders[..n][i] == Some(k);
    }
    assert w.holders[..n + 1][n] == w.holders[n];
  }

  lemma {:induction false} GoneZero(w: World)
    requires w.Known()
    ensures Gone(w, 0) == w
  {
  }

  lemma {:induction false} GoneStep(w: World, n: nat)
    requires w.Known() && n < |w.holders|
    ensures Gone(w, n + 1) == Resolved(Gone(w, n), n, REJECTED)
  {
  }

  lemma {:induction false} ResolvedGives(w: World, i: nat, k: nat)
    requires w.Known() && i < |w.holders| && k in w.results
    ensures Resolved(w, i, REJECTED).results[k] == w.results[k] + if w.holders[i] == Some(k) then [REJECTED] else []
  {
  }

  lemma {:induction false} GoneGives(w: World, lost: set<nat>, n: nat, k: nat)
    requires w.Known() && LinearOk(w, lost) && n <= |w.holders| && k in w.results
    ensures Gone(w, n).results[k] == w.results[k] + if Held(w.holders[..n], k) then [REJECTED] else []
  {
    hide LinearOk, World.Known, Gone, Resolved, Held;
    if n > 0 {
      GoneGives(w, lost, n - 1, k);
      GoneLinear(w, lost, n - 1);
      HeldStep(w, lost, n - 1, k);
      GoneStep(w, n - 1);
      ResolvedGives(Gone(w, n - 1), n - 1, k);
    } else {
      GoneZero(w);
      NoneHeldYet(w.holders, k);
    }
  }

  lemma {:induction false} NoneHeldYet(holders: Holders, k: nat)
    ensures !Held(holders[..0], k)
  {
  }

  /** Once all the places are gone, a callback that was ever bound has had the results that were given to the
      place it was in, in order, then a rejection if it was still held. It has had exactly one last result if
      and only if no other callback was ever bound over it; otherwise it never gets a last one. */
  lemma {:induction false} Fate(count: nat, ops: seq<Op>, k: nat)
    ensures var results := Gone(Run(count, ops), count).results;
            && (k in results <==> Bound(count, ops, k))
            && (k in results ==>
                  && results[k] == Given(count, ops, k) + (if Held(Run(count, ops).holders, k) then [REJECTED] else [])
                  && if Overwritten(count, ops, k) then AllMore(results[k]) else Complete(results[k]))
  {
    hide Run, After, Given, LostIn, Overwritten, LinearOk, Bound;
    var w, lost := Run(count, ops), LostIn(count, ops);
    RunLinear(count, ops);
    RunGives(count, ops, k);
    LostIsOverwritten(count, ops, k);
    GoneLinear(w, lost, count);
    NoneHeld(Gone(w, count), lost);
    if k in w.results {
      GoneGives(w, lost, count, k);
      assert w.holders[..count] == w.holders;
    }
  }

  lemma {:induction false} NoneHeld(w: World, lost: set<nat>)
    requires LinearOk(w, lost) && forall j :: 0 <= j < |w.holders| ==> w.holders[j].None?
    ensures forall k :: k in w.results ==> if k in lost then AllMore(w.results[k]) else Complete(w.results[k])
  {
  }

  // ---- The objects ----------------------------------------------------------------------------------------

  ghost predicate Places(pool: seq<DeferredBase>, holders: Holders)
    reads pool
  {
    && |holders| == |pool| && (forall i, j :: 0 <= i < j < |pool| ==> pool[i] != pool[j])
    && forall i :: 0 <= i < |pool| ==> pool[i].callback == holders[i]
  }

  method PerformDestroy(pool: seq<DeferredBase>, sink: Sink, i: nat, ghost w: World)
    requires Places(pool, w.holders) && sink.results == w.results && w.Known() && i < |pool|
    modifies pool, sink
    ensures Places(pool, Resolved(w, i, REJECTED).holders) && sink.results == Resolved(w, i, REJECTED).results
  {
    pool[i].Destroy(sink);
  }

  method Perform(pool: seq<DeferredBase>, sink: Sink, op: Op, ghost w: World)
    requires Places(pool, w.holders) && sink.results == w.results && w.Known()
    modifies pool, sink
    ensures Places(pool, After(w, op).holders) && sink.results == After(w, op).results
  {
    match op {
      case BindAt(i, k) =>
        if i < |pool| && k !in sink.results {
          pool[i].Bind(k);
          sink.results := sink.results[k := []];
        }
      case ResolveAt(i, r) =>
        if i < |pool| {
          pool[i].Resolve(r, sink);
        }
      case AssignTo(i, j) =>
        if i < |pool| && j < |pool| {
          pool[i].Assign(pool[j], sink);
        }
      case DestroyAt(i) =>
        if i < |pool| {
          PerformDestroy(pool, sink, i, w);
        }
    }
  }

  method MakePlaces(count: nat) returns (pool: seq<DeferredBase>)
    ensures |pool| == count && (forall j :: 0 <= j < count ==> fresh(pool[j]))
    ensures Places(pool, seq(count, _ => None))
  {
    pool := [];
    for i := 0 to count
      invariant |pool| == i && Places(pool, seq(i, _ => None)) && forall j :: 0 <= j < i ==> fresh(pool[j])
    {
      var d := new DeferredBase(None);
      pool := pool + [d];
    }
  }

  method DestroyAll(pool: seq<DeferredBase>, sink: Sink, ghost w: World)
    requires Places(pool, w.holders) && sink.results == w.results && w.Known()
    modifies pool, sink
    ensures sink.results == Gone(w, |pool|).results
  {
    hide World.Known, Gone;
    GoneZero(w);
    for i := 0 to |pool|
      invariant Places(pool, Gone(w, i).holders) && sink.results == Gone(w, i).results
    {
      GoneStep(w, i);
      PerformDestroy(pool, sink, i, Gone(w, i));
    }
  }

  /** The objects do what the run says, whatever is done with them, and are all destroyed in the end. */
  method Live(count: nat, ops: seq<Op>) returns (results: map<nat, seq<Result>>)
    ensures results == Gone(Run(count, ops), count).results
  {
    var sink := new Sink();
    var pool := MakePlaces(count);
    for n := 0 to |ops|
      invariant fresh(sink) && (forall j :: 0 <= j < |pool| ==> fresh(pool[j])) && |pool| == count
      invariant Places(pool, Run(count, ops[..n]).holders) && sink.results == Run(count, ops[..n]).results
    {
      Perform(pool, sink, ops[n], Run(count, ops[..n]));
      assert ops[..n + 1][..n] == ops[..n];
    }
    assert ops[..|ops|] == ops;
    DestroyAll(pool, sink, Run(count, ops));
    results := sink.results;
  }
}
