/** Translating the times of other clocks into trace time, from pairs of times taken at the same moment. */
module Clocks {
  import opened Options

  datatype ClockDomain = BootTime | Monotonic | RealTime

  datatype Snapshot = Snapshot(clockTime: int, traceTime: int)

  /** Later snapshots are later in both clocks. */
  predicate Increasing(s: seq<Snapshot>) {
    forall i, j :: 0 <= i < j < |s| ==> s[i].clockTime < s[j].clockTime && s[i].traceTime < s[j].traceTime
  }

  // ---- What is kept, said by what came in ------------------------------------------------------------------

  /** Whether a snapshot is taken in after those taken in before. */
  predicate Accepted(domain: ClockDomain, taken: seq<Snapshot>, s: Snapshot) {
    taken == [] || (taken[|taken| - 1].traceTime < s.traceTime &&
                    (domain.Monotonic? ==> taken[|taken| - 1].clockTime < s.clockTime))
  }

  /** The snapshots that no later one contradicts: the clock has not been set back to them or before. */
  predicate Stands(taken: seq<Snapshot>, i: nat)
    requires i < |taken|
  {
    forall j :: i < j < |taken| ==> taken[i].clockTime < taken[j].clockTime
  }

  function Standing(taken: seq<Snapshot>, n: nat): seq<Snapshot>
    requires n <= |taken|
  {
    if n == 0 then []
    else if Stands(taken, n - 1) then Standing(taken, n - 1) + [taken[n - 1]]
    else Standing(taken, n - 1)
  }

  predicate TraceOrdered(taken: seq<Snapshot>) {
    forall i, j :: 0 <= i < j < |taken| ==> taken[i].traceTime < taken[j].traceTime
  }

  lemma {:induction false} StandingIncreasing(taken: seq<Snapshot>, n: nat)
    requires n <= |taken| && TraceOrdered(taken)
    ensures Increasing(Standing(taken, n))
    ensures forall s :: s in Standing(taken, n) ==> exists i :: 0 <= i < n && taken[i] == s && Stands(taken, i)
  {
    if n > 0 {
      StandingIncreasing(taken, n - 1);
      var front := Standing(taken, n - 1);
      forall k | 0 <= k < |front|
        ensures Stands(taken, n - 1) ==>
                  front[k].clockTime < taken[n - 1].clockTime && front[k].traceTime < taken[n - 1].traceTime
      {
        assert front[k] in front;
      }
    }
  }

  /** The last one always stands. */
  lemma {:induction false} StandingLast(taken: seq<Snapshot>)
    requires taken != []
    ensures Standing(taken, |taken|) == Standing(taken, |taken| - 1) + [taken[|taken| - 1]]
  {
  }

  /** The snapshots before a time. */
  function Before(s: seq<Snapshot>, clockTime: int): seq<Snapshot> {
    if s == [] then []
    else if s[|s| - 1].clockTime < clockTime then s
    else Before(s[..|s| - 1], clockTime)
  }

  /** Taking one in drops those that it contradicts. */
  lemma {:induction false} StandingSnoc(taken: seq<Snapshot>, s: Snapshot, n: nat)
    requires n <= |taken| && TraceOrdered(taken)
    ensures Standing(taken + [s], n) == Before(Standing(taken, n), s.clockTime)
  {
    if n > 0 {
      StandingSnoc(taken, s, n - 1);
      var now := taken + [s];
      var front := Standing(taken, n - 1);
      if Stands(taken, n - 1) {
        assert Standing(taken, n)[..|front|] == front;
        if taken[n - 1].clockTime < s.clockTime {
          assert Stands(now, n - 1);
          assert now[|now| - 1] == s;
          BelowAll(front, taken, n, s.clockTime);
        } else {
          assert !Stands(now, n - 1) by {
            assert now[|taken|] == s;
          }
        }
      } else {
        var j :| n - 1 < j < |taken| && taken[n - 1].clockTime >= taken[j].clockTime;
        assert now[j] == taken[j];
      }
    }
  }

  lemma {:induction false} BelowAll(front: seq<Snapshot>, taken: seq<Snapshot>, n: nat, clockTime: int)
    requires 0 < n <= |taken| && TraceOrdered(taken) && front == Standing(taken, n - 1)
    requires taken[n - 1].clockTime < clockTime
    ensures Before(front, clockTime) == front
  {
    StandingIncreasing(taken, n - 1);
    if front != [] {
      assert front[|front| - 1] in front;
    }
  }

  // ---- Looking up -----------------------------------------------------------------------------------------

  /** The last snapshot at or before a time, else the first, found one after the other. */
  function Latest(s: seq<Snapshot>, clockTime: int): (i: nat)
    requires s != []
    ensures i < |s|
  {
    if |s| == 1 || s[|s| - 1].clockTime <= clockTime then |s| - 1 else Latest(s[..|s| - 1], clockTime)
  }

  function Translate(s: seq<Snapshot>, clockTime: int): Option<int> {
    if s == [] then None
    else
      var at := s[Latest(s, clockTime)];
      Some(at.traceTime + (clockTime - at.clockTime))
  }

  lemma {:induction false} LatestAt(s: seq<Snapshot>, clockTime: int, i: nat)
    requires Increasing(s) && i < |s| && (i == 0 || s[i].clockTime <= clockTime)
    requires i + 1 < |s| ==> clockTime < s[i + 1].clockTime
    ensures Latest(s, clockTime) == i
    decreases |s|
  {
    if i < |s| - 1 {
      LatestAt(s[..|s| - 1], clockTime, i);
    }
  }

  /** Every snapshot that is kept translates to itself. */
  lemma {:induction false} TranslateExact(s: seq<Snapshot>, i: nat)
    requires Increasing(s) && i < |s|
    ensures Translate(s, s[i].clockTime) == Some(s[i].traceTime)
  {
    LatestAt(s, s[i].clockTime, i);
  }

  lemma {:induction false} LatestIs(s: seq<Snapshot>, clockTime: int)
    requires s != []
    ensures var i := Latest(s, clockTime);
            (i == 0 || s[i].clockTime <= clockTime) && (i + 1 < |s| ==> clockTime < s[i + 1].clockTime)
    decreases |s|
  {
    if |s| > 1 && s[|s| - 1].clockTime > clockTime {
      LatestIs(s[..|s| - 1], clockTime);
    }
  }

  /** The snapshot that a time goes by: the last one not after it, or the first if all are after it. */
  predicate Governs(s: seq<Snapshot>, clockTime: int, i: nat) {
    && i < |s| && (forall j :: 0 < j <= i ==> s[j].clockTime <= clockTime)
    && forall j :: i < j < |s| ==> clockTime < s[j].clockTime
  }

  /** A time is as far from its snapshot in trace time as it is in the clock, also before the first and after the
      last. */
  lemma {:induction false} DistanceKept(s: seq<Snapshot>, clockTime: int, i: nat)
    requires Increasing(s) && Governs(s, clockTime, i)
    ensures Translate(s, clockTime).Some?
    ensures Translate(s, clockTime).value - s[i].traceTime == clockTime - s[i].clockTime
  {
    LatestAt(s, clockTime, i);
  }

  /** So two times with no snapshot but the first between them are as far apart in trace time as in the clock. */
  lemma {:induction false} DistancesKept(s: seq<Snapshot>, t: int, u: int)
    requires Increasing(s) && s != [] && t <= u && forall i :: 0 < i < |s| ==> !(t < s[i].clockTime <= u)
    ensures Translate(s, u).value - Translate(s, t).value == u - t
  {
    LatestIs(s, t);
    LatestAt(s, u, Latest(s, t));
  }

  /** A later time never translates to an earlier one. */
  ghost predicate KeepsOrder(s: seq<Snapshot>) {
    forall t: int, u: int :: t <= u && s != [] ==> Translate(s, t).value <= Translate(s, u).value
  }

  /** Between neighbouring snapshots trace time advances no less than the clock, but for the last instant. */
  predicate Steady(s: seq<Snapshot>) {
    forall i :: 0 < i < |s| ==>
      s[i].clockTime - s[i - 1].clockTime - 1 <= s[i].traceTime - s[i - 1].traceTime
  }

  lemma {:induction false} SteadyKeeps(s: seq<Snapshot>, t: int, u: int)
    requires Increasing(s) && Steady(s) && s != [] && t <= u
    ensures Translate(s, t).value <= Translate(s, u).value
  {
    var i, j := Latest(s, t), Latest(s, u);
    LatestIs(s, t);
    LatestIs(s, u);
    if i < j {
      assert s[i + 1].clockTime - s[i + 1 - 1].clockTime - 1 <= s[i + 1].traceTime - s[i + 1 - 1].traceTime;
      assert i + 1 == j || s[i + 1].traceTime < s[j].traceTime;
    }
  }

  /** Translation keeps the order of times if and only if the snapshots are steady. */
  lemma {:induction false} KeepsOrderIff(s: seq<Snapshot>)
    requires Increasing(s)
    ensures KeepsOrder(s) <==> Steady(s)
  {
    hide Latest;
    if Steady(s) {
      forall t: int, u: int | t <= u && s != []
        ensures Translate(s, t).value <= Translate(s, u).value
      {
        SteadyKeeps(s, t, u);
      }
    }
    if KeepsOrder(s) {
      forall i | 0 < i < |s|
        ensures s[i].clockTime - s[i - 1].clockTime - 1 <= s[i].traceTime - s[i - 1].traceTime
      {
        LatestAt(s, s[i].clockTime, i);
        LatestAt(s, s[i].clockTime - 1, i - 1);
        assert Translate(s, s[i].clockTime - 1).value <= Translate(s, s[i].clockTime).value;
      }
    }
  }

  /** A clock that runs faster than the trace: an earlier time translates to a later one. */
  lemma {:induction false} GoesBack()
    ensures var s := [Snapshot(0, 0), Snapshot(10, 1)];
            Increasing(s) && Translate(s, 9) == Some(9) && Translate(s, 10) == Some(1)
  {
    var s := [Snapshot(0, 0), Snapshot(10, 1)];
    LatestAt(s, 9, 0);
    LatestAt(s, 10, 1);
  }

  /** The first position after all times at or before one, by halving. */
  method UpperBound(s: seq<Snapshot>, clockTime: int) returns (n: nat)
    requires Increasing(s)
    ensures n <= |s| && (forall i :: 0 <= i < n ==> s[i].clockTime <= clockTime)
    ensures forall i :: n <= i < |s| ==> clockTime < s[i].clockTime
  {
    var low, high := 0, |s|;
    while low < high
      invariant 0 <= low <= high <= |s|
      invariant forall i :: 0 <= i < low ==> s[i].clockTime <= clockTime
      invariant forall i :: high <= i < |s| ==> clockTime < s[i].clockTime
    {
      var mid := low + (high - low) / 2;
      if clockTime < s[mid].clockTime {
        high := mid;
      } else {
        low := mid + 1;
      }
    }
    n := low;
  }

  // ---- The tracker ----------------------------------------------------------------------------------------

  class ClockTracker {
    var clocks: map<ClockDomain, seq<Snapshot>>
    var notMonotonic: nat
    var syncFailures: nat
    /** The snapshots taken in so far. */
    ghost var taken: map<ClockDomain, seq<Snapshot>>

    ghost predicate Valid()
      reads this
    {
      forall d: ClockDomain :: d in clocks && d in taken && Kept(taken[d], clocks[d])
    }

    constructor ()
      ensures Valid() && forall d: ClockDomain :: taken[d] == []
    {
      clocks := map[BootTime := [], Monotonic := [], RealTime := []];
      taken := map[BootTime := [], Monotonic := [], RealTime := []];
      notMonotonic, syncFailures := 0, 0;
      new;
      forall d: ClockDomain
        ensures d in clocks && d in taken && clocks[d] == [] && taken[d] == []
      {
        match d {
          case BootTime =>
          case Monotonic =>
          case RealTime =>
        }
      }
    }

    /** Takes in a snapshot unless trace time, or the monotonic clock, would go backwards. */
    method SyncClocks(domain: ClockDomain, clockTime: int, traceTime: int)
      requires Valid()
      modifies this
      ensures Valid()
      ensures var s := Snapshot(clockTime, traceTime);
              if Accepted(domain, old(taken[domain]), s)
              then taken == old(taken)[domain := old(taken[domain]) + [s]] && notMonotonic == old(notMonotonic)
              else taken == old(taken) && clocks == old(clocks) && notMonotonic == old(notMonotonic) + 1
      ensures notMonotonic > old(notMonotonic) <==>
                var known := old(clocks[domain]);
                known != [] && (traceTime <= known[|known| - 1].traceTime
                                || (domain == Monotonic && clockTime <= known[|known| - 1].clockTime))
      ensures notMonotonic == old(notMonotonic) ==> Superseded(old(clocks[domain]), Snapshot(clockTime, traceTime),
                                                               clocks[domain])
      ensures forall d :: d != domain ==> clocks[d] == old(clocks[d])
    {
      hide Standing, Superseded, Increasing;
      assert Kept(taken[domain], clocks[domain]);
      var snapshots := clocks[domain];
      ghost var before, s := taken[domain], Snapshot(clockTime, traceTime);
      KeptLast(before, snapshots);
      if snapshots != [] {
        if traceTime <= snapshots[|snapshots| - 1].traceTime {
          notMonotonic := notMonotonic + 1;
          return;
        }
        if clockTime <= snapshots[|snapshots| - 1].clockTime {
          if domain == Monotonic {
            notMonotonic := notMonotonic + 1;
            return;
          }
          while snapshots != [] && snapshots[|snapshots| - 1].clockTime >= clockTime
            invariant Before(snapshots, clockTime) == Before(clocks[domain], clockTime)
          {
            snapshots := snapshots[..|snapshots| - 1];
          }
        }
      }
      KeptSnoc(before, clocks[domain], s);
      StandingIncreasing(before, |before|);
      BeforeSupersedes(clocks[domain], s);
      assert snapshots == Before(clocks[domain], clockTime);
      clocks := clocks[domain := snapshots + [Snapshot(clockTime, traceTime)]];
      taken := taken[domain := before + [s]];
    }

    /** The trace time of a time in a clock: what scanning the snapshots from the end would give. */
    method ToTraceTime(domain: ClockDomain, clockTime: int) returns (r: Option<int>)
      requires Valid()
      modifies this`syncFailures
      ensures r == Translate(Standing(taken[domain], |taken[domain]|), clockTime)
      ensures r.None? <==> clocks[domain] == []
      ensures forall i: nat :: Governs(clocks[domain], clockTime, i) ==>
                r.value - clocks[domain][i].traceTime == clockTime - clocks[domain][i].clockTime
      ensures syncFailures == old(syncFailures) + (if taken[domain] == [] then 1 else 0)
    {
      hide Standing;
      assert Kept(taken[domain], clocks[domain]);
      var snapshots := clocks[domain];
      KeptLast(taken[domain], snapshots);
      if snapshots == [] {
        syncFailures := syncFailures + 1;
        return None;
      }
      StandingIncreasing(taken[domain], |taken[domain]|);
      var it := UpperBound(snapshots, clockTime);
      if it != 0 {
        it := it - 1;
      }
      LatestAt(snapshots, clockTime, it);
      forall i: nat | Governs(snapshots, clockTime, i)
        ensures i == it
      {
        LatestAt(snapshots, clockTime, i);
      }
      r := Some(snapshots[it].traceTime + (clockTime - snapshots[it].clockTime));
    }
  }

  /** A snapshot takes the place of those that are not before it. */
  predicate Superseded(before: seq<Snapshot>, s: Snapshot, after: seq<Snapshot>) {
    exists n :: && 0 <= n <= |before| && after == before[..n] + [s]
                && (forall i :: 0 <= i < n ==> before[i].clockTime < s.clockTime)
                && forall i :: n <= i < |before| ==> s.clockTime <= before[i].clockTime
  }

  lemma {:induction false} BeforeIs(s: seq<Snapshot>, clockTime: int)
    requires Increasing(s)
    ensures Before(s, clockTime) <= s
    ensures forall i :: 0 <= i < |Before(s, clockTime)| ==> s[i].clockTime < clockTime
    ensures forall i :: |Before(s, clockTime)| <= i < |s| ==> clockTime <= s[i].clockTime
  {
    if s != [] && s[|s| - 1].clockTime >= clockTime {
      BeforeIs(s[..|s| - 1], clockTime);
    }
  }

  lemma {:induction false} BeforeSupersedes(before: seq<Snapshot>, s: Snapshot)
    requires Increasing(before)
    ensures Superseded(before, s, Before(before, s.clockTime) + [s])
  {
    BeforeIs(before, s.clockTime);
    var n := |Before(before, s.clockTime)|;
    assert Before(before, s.clockTime) == before[..n];
  }

  predicate Kept(taken: seq<Snapshot>, snapshots: seq<Snapshot>) {
    TraceOrdered(taken) && snapshots == Standing(taken, |taken|)
  }

  lemma {:induction false} KeptLast(taken: seq<Snapshot>, snapshots: seq<Snapshot>)
    requires Kept(taken, snapshots)
    ensures taken == [] <==> snapshots == []
    ensures taken != [] ==> snapshots[|snapshots| - 1] == taken[|taken| - 1]
  {
  }

  lemma {:induction false} KeptSnoc(taken: seq<Snapshot>, snapshots: seq<Snapshot>, s: Snapshot)
    requires Kept(taken, snapshots) && (taken != [] ==> taken[|taken| - 1].traceTime < s.traceTime)
    ensures Kept(taken + [s], Before(snapshots, s.clockTime) + [s])
  {
    StandingSnoc(taken, s, |taken|);
    StandingLast(taken + [s]);
    assert TraceOrdered(taken + [s]);
  }

  /** After every run, each snapshot that no later one contradicts translates to its own trace time. */
  lemma {:induction false} TakenExact(taken: seq<Snapshot>, i: nat)
    requires TraceOrdered(taken) && i < |taken| && Stands(taken, i)
    ensures Translate(Standing(taken, |taken|), taken[i].clockTime) == Some(taken[i].traceTime)
  {
    var s := Standing(taken, |taken|);
    StandingIncreasing(taken, |taken|);
    StandingHas(taken, |taken|, i);
    var k :| 0 <= k < |s| && s[k] == taken[i];
    TranslateExact(s, k);
  }

  /** After every run, translation keeps the order of times exactly if the snapshots that stand are steady. */
  lemma {:induction false} TakenOrder(taken: seq<Snapshot>)
    requires TraceOrdered(taken)
    ensures KeepsOrder(Standing(taken, |taken|)) <==> Steady(Standing(taken, |taken|))
  {
    StandingIncreasing(taken, |taken|);
    KeepsOrderIff(Standing(taken, |taken|));
  }

  lemma {:induction false} StandingHas(taken: seq<Snapshot>, n: nat, i: nat)
    requires i < n <= |taken| && Stands(taken, i)
    ensures taken[i] in Standing(taken, n)
  {
    if i < n - 1 {
      StandingHas(taken, n - 1, i);
    }
  }
}
