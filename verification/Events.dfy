/** Scheduling slices and counters, from the events of a trace. */
module Events {
  import opened Powers
  import opened Options
  import opened Associations
  import opened ProcessTracking

  const MAX_CPUS: nat := 128

  /** A switch on a CPU from one thread to another. */
  datatype Switch = Switch(cpu: nat, ts: int, prevPid: nat, prevState: int, nextPid: nat, nextPrio: int)

  datatype Slice = Slice(cpu: nat, start: int, duration: int, utid: nat, endState: Option<nat>, priority: int)

  datatype Counter = Counter(nameId: nat, reference: int, ts: int, value: real)

  // ---- The slices, said by the switches --------------------------------------------------------------------

  /** The first switch on a CPU from a position on, or the end. */
  function NextOn(switches: seq<Switch>, cpu: nat, from: nat): (j: nat)
    requires from <= |switches|
    ensures from <= j <= |switches| && (j < |switches| ==> switches[j].cpu == cpu)
    ensures forall k :: from <= k < j ==> switches[k].cpu != cpu
    decreases |switches| - from
  {
    if from == |switches| || switches[from].cpu == cpu then from else NextOn(switches, cpu, from + 1)
  }

  /** The next switch on the CPU leaves the thread that this one started. */
  predicate Closed(switches: seq<Switch>, i: nat)
    requires i < |switches|
  {
    var j := NextOn(switches, switches[i].cpu, i + 1);
    j < |switches| && switches[j].prevPid == switches[i].nextPid
  }

  function DurationOf(switches: seq<Switch>, i: nat): int
    requires i < |switches|
  {
    if Closed(switches, i) then switches[NextOn(switches, switches[i].cpu, i + 1)].ts - switches[i].ts else 0
  }

  function EndStateOf(switches: seq<Switch>, i: nat): Option<nat>
    requires i < |switches|
  {
    if Closed(switches, i)
    then Some(switches[NextOn(switches, switches[i].cpu, i + 1)].prevState % TWO_TO_THE_16)
    else None
  }

  predicate SliceOk(switches: seq<Switch>, i: nat, slice: Slice)
    requires i < |switches|
  {
    var s := switches[i];
    && slice.cpu == s.cpu && slice.start == s.ts && slice.priority == s.nextPrio
    && slice.duration == DurationOf(switches, i) && slice.endState == EndStateOf(switches, i)
  }

  predicate SlicesOk(switches: seq<Switch>, slices: seq<Slice>) {
    |slices| == |switches| && forall i :: 0 <= i < |slices| ==> SliceOk(switches, i, slices[i])
  }

  predicate Ordered(switches: seq<Switch>) {
    forall i, j :: 0 <= i < j < |switches| ==> switches[i].ts <= switches[j].ts
  }

  /** Slices start in order; those of a CPU never overlap; each has no length or ends where the next begins. */
  lemma {:induction false} SlicesTile(switches: seq<Switch>, slices: seq<Slice>, i: nat, j: nat)
    requires Ordered(switches) && SlicesOk(switches, slices) && i < j < |slices|
    ensures slices[i].start <= slices[j].start && 0 <= slices[i].duration
    ensures slices[i].cpu == slices[j].cpu ==> slices[i].start + slices[i].duration <= slices[j].start
    ensures slices[i].cpu == slices[j].cpu && (forall k :: i < k < j ==> slices[k].cpu != slices[i].cpu) ==>
              slices[i].duration == 0 || slices[i].start + slices[i].duration == slices[j].start
  {
    var next := NextOn(switches, switches[i].cpu, i + 1);
    assert SliceOk(switches, i, slices[i]) && SliceOk(switches, j, slices[j]);
    if slices[i].cpu == slices[j].cpu && next < j {
      assert SliceOk(switches, next, slices[next]);
    }
  }

  /** A new switch closes at most the last slice of its CPU. */
  lemma {:induction false} NextOnSnoc(switches: seq<Switch>, s: Switch, cpu: nat, from: nat)
    requires from <= |switches|
    ensures var j := NextOn(switches, cpu, from);
            NextOn(switches + [s], cpu, from) == if j < |switches| || s.cpu == cpu then j else |switches| + 1
  {
    var j, now := NextOn(switches, cpu, from), switches + [s];
    var j' := NextOn(now, cpu, from);
    assert forall k :: from <= k < |switches| ==> now[k] == switches[k];
    if j < |switches| {
      assert now[j] == switches[j];
    } else {
      assert now[|switches|] == s;
    }
  }

  // ---- The tracker ----------------------------------------------------------------------------------------

  /** The slice still open on a CPU, if there is one, and the thread that runs there. */
  datatype PendingSlice = PendingSlice(index: Option<nat>, nextPid: nat)

  predicate PendingOk(switches: seq<Switch>, cpu: nat, p: PendingSlice) {
    match p.index
    case None => NextOn(switches, cpu, 0) == |switches|
    case Some(i) => i < |switches| && switches[i].cpu == cpu && switches[i].nextPid == p.nextPid
                    && NextOn(switches, cpu, i + 1) == |switches|
  }

  /** The thread that the switch leaves is not the one that the CPU was switched to. */
  predicate Mismatches(p: PendingSlice, s: Switch) {
    p.index.Some? && s.prevPid != p.nextPid
  }

  predicate AllPendingOk(switches: seq<Switch>, pending: seq<PendingSlice>) {
    forall cpu :: 0 <= cpu < |pending| ==> PendingOk(switches, cpu, pending[cpu])
  }

  /** Each slice names a thread with the id that was switched to. */
  predicate UtidsOk(switches: seq<Switch>, slices: seq<Slice>, threads: seq<Thread>) {
    |slices| == |switches| && forall i :: 0 <= i < |slices| ==> UtidOk(switches[i], slices[i], threads)
  }

  predicate UtidOk(s: Switch, slice: Slice, threads: seq<Thread>) {
    slice.utid < |threads| && threads[slice.utid].tid == s.nextPid
  }

  /** The slices once the open one is closed, if it was for the thread now left. */
  function Closing(slices: seq<Slice>, p: PendingSlice, s: Switch): seq<Slice>
    requires p.index.Some? ==> p.index.value < |slices|
  {
    if p.index.Some? && s.prevPid == p.nextPid then
      var i := p.index.value;
      slices[i := slices[i].(duration := s.ts - slices[i].start, endState := Some(s.prevState % TWO_TO_THE_16))]
    else slices
  }

  function Opening(s: Switch, utid: nat): Slice {
    Slice(s.cpu, s.ts, 0, utid, None, s.nextPrio)
  }

  lemma {:induction false} PushedSlices(switches: seq<Switch>, slices: seq<Slice>, p: PendingSlice, s: Switch,
                                        utid: nat)
    requires SlicesOk(switches, slices) && PendingOk(switches, s.cpu, p)
    ensures SlicesOk(switches + [s], Closing(slices, p, s) + [Opening(s, utid)])
  {
    hide NextOn;
    var now, slices' := switches + [s], Closing(slices, p, s) + [Opening(s, utid)];
    forall i | 0 <= i < |now|
      ensures SliceOk(now, i, slices'[i])
    {
      if i < |switches| {
        NextOnSnoc(switches, s, switches[i].cpu, i + 1);
        assert SliceOk(switches, i, slices[i]);
        if p.index == Some(i) {
        } else if switches[i].cpu == s.cpu {
          LastOn(switches, s.cpu, p, i);
        }
      }
    }
  }

  /** A slice that is not the open one of its CPU has a successor there. */
  lemma {:induction false} LastOn(switches: seq<Switch>, cpu: nat, p: PendingSlice, i: nat)
    requires PendingOk(switches, cpu, p) && i < |switches| && switches[i].cpu == cpu && p.index != Some(i)
    ensures NextOn(switches, cpu, i + 1) < |switches|
  {
  }

  lemma {:induction false} PushedPending(switches: seq<Switch>, pending: seq<PendingSlice>, s: Switch)
    requires AllPendingOk(switches, pending) && s.cpu < |pending|
    ensures AllPendingOk(switches + [s], pending[s.cpu := PendingSlice(Some(|switches|), s.nextPid)])
  {
  }

  lemma {:induction false} UtidsKept(switches: seq<Switch>, slices: seq<Slice>, slices': seq<Slice>,
                                     before: seq<Thread>, after: seq<Thread>)
    requires UtidsOk(switches, slices, before) && BindingsKept(before, after)
    requires |slices'| == |slices| && forall i :: 0 <= i < |slices| ==> slices'[i].utid == slices[i].utid
    ensures UtidsOk(switches, slices', after)
  {
  }

  predicate CountersOk(counters: seq<Counter>, now: int) {
    && (forall i :: 0 <= i < |counters| ==> counters[i].ts <= now)
    && (forall i, j :: 0 <= i < j < |counters| ==> counters[i].ts <= counters[j].ts)
  }

  predicate SwitchesOk(switches: seq<Switch>, now: int) {
    Ordered(switches) && forall i :: 0 <= i < |switches| ==> switches[i].ts <= now
  }

  lemma {:induction false} Later(switches: seq<Switch>, counters: seq<Counter>, earlier: int, now: int)
    requires SwitchesOk(switches, earlier) && CountersOk(counters, earlier) && earlier <= now
    ensures SwitchesOk(switches, now) && CountersOk(counters, now)
  {
  }

  lemma {:induction false} SwitchesSnoc(switches: seq<Switch>, s: Switch)
    requires SwitchesOk(switches, s.ts)
    ensures SwitchesOk(switches + [s], s.ts)
  {
  }

  // ---- The names of the threads ---------------------------------------------------------------------------

  /** The thread switched to is named first, then the one switched from. */
  ghost predicate SwitchNamed(before: seq<Thread>, s: Switch, prevComm: nat, nextComm: nat, after: seq<Thread>) {
    exists next: nat, prev: nat, between :: ThreadNamed(before, s.nextPid, nextComm, s.ts, next, between)
                                            && ThreadNamed(between, s.prevPid, prevComm, s.ts, prev, after)
  }

  /** The latest thread with an id has a name, if it is one. */
  predicate HasName(threads: seq<Thread>, tid: nat, nameId: nat) {
    Latest(threads, tid).Some? && (nameId != 0 ==> threads[Latest(threads, tid).value].nameId == nameId)
  }

  /** No thread changes but the latest with each of two ids. */
  predicate OthersSame(before: seq<Thread>, after: seq<Thread>, tid1: nat, tid2: nat) {
    && |before| <= |after|
    && forall u :: 0 <= u < |before| && Latest(before, tid1) != Some(u) && Latest(before, tid2) != Some(u) ==>
         after[u] == before[u]
  }

  lemma {:induction false} NamedLatest(before: seq<Thread>, tid: nat, nameId: nat, startNs: int, utid: nat,
                                       after: seq<Thread>, other: nat)
    requires ThreadNamed(before, tid, nameId, startNs, utid, after)
    ensures Latest(after, tid) == Some(utid) && HasName(after, tid, nameId)
    ensures other != tid ==> Latest(after, other) == Latest(before, other)
    ensures |before| <= |after| && forall u :: 0 <= u < |before| && Latest(before, tid) != Some(u) ==>
              after[u] == before[u]
    ensures |after| <= |before| + 1 && forall u :: 0 <= u < |before| ==> after[u].tid == before[u].tid
  {
    assert forall u :: 0 <= u < |before| ==> after[u].tid == before[u].tid;
  }

  /** After a switch between two threads, each has the name given for it, and no other thread has changed. */
  lemma {:induction false} SwitchNames(before: seq<Thread>, s: Switch, prevComm: nat, nextComm: nat,
                                       after: seq<Thread>)
    requires SwitchNamed(before, s, prevComm, nextComm, after) && s.prevPid != s.nextPid
    ensures HasName(after, s.nextPid, nextComm) && HasName(after, s.prevPid, prevComm)
    ensures OthersSame(before, after, s.nextPid, s.prevPid)
  {
    hide ThreadNamed, Latest;
    var next: nat, prev: nat, between :| ThreadNamed(before, s.nextPid, nextComm, s.ts, next, between)
                                         && ThreadNamed(between, s.prevPid, prevComm, s.ts, prev, after);
    NamedLatest(before, s.nextPid, nextComm, s.ts, next, between, s.prevPid);
    NamedLatest(between, s.prevPid, prevComm, s.ts, prev, after, s.nextPid);
  }

  /** An event names a thread. */
  datatype Mention = Mention(tid: nat, nameId: nat, ts: int)

  /** The last name given for a thread id, and the time of the first mention. */
  function LastName(ms: seq<Mention>, tid: nat): nat {
    if ms == [] then 0
    else
      var last := ms[|ms| - 1];
      if last.tid == tid && last.nameId != 0 then last.nameId else LastName(ms[..|ms| - 1], tid)
  }

  function FirstTime(ms: seq<Mention>, tid: nat): Option<int> {
    if ms == [] then None
    else
      var last, before := ms[|ms| - 1], FirstTime(ms[..|ms| - 1], tid);
      if before.None? && last.tid == tid then Some(last.ts) else before
  }

  /** There is one thread for each id mentioned, and one for the idle process, each with the last name given for it
      and the time of its first mention. */
  ghost predicate NamesOk(ms: seq<Mention>, threads: seq<Thread>) {
    && (forall u, v :: 0 <= u < v < |threads| ==> threads[u].tid != threads[v].tid)
    && (forall u :: 0 <= u < |threads| ==> ThreadOk(ms, threads[u]))
    && (forall tid: nat :: tid == 0 || FirstTime(ms, tid).Some? ==> Latest(threads, tid).Some?)
  }

  predicate ThreadOk(ms: seq<Mention>, thread: Thread) {
    && thread.upid.None? && thread.nameId == LastName(ms, thread.tid)
    && if thread.tid == 0 then thread.startNs == 0 else FirstTime(ms, thread.tid) == Some(thread.startNs)
  }

  lemma {:induction false} MentionedNext(ms: seq<Mention>, m: Mention, tid: nat)
    ensures LastName(ms + [m], tid) == if m.tid == tid && m.nameId != 0 then m.nameId else LastName(ms, tid)
    ensures FirstTime(ms + [m], tid) == if FirstTime(ms, tid).None? && m.tid == tid then Some(m.ts)
                                        else FirstTime(ms, tid)
  {
    assert (ms + [m])[..|ms|] == ms;
  }

  lemma {:induction false} NeverNamed(ms: seq<Mention>, tid: nat)
    requires FirstTime(ms, tid).None?
    ensures LastName(ms, tid) == 0
  {
    if ms != [] {
      NeverNamed(ms[..|ms| - 1], tid);
    }
  }

  lemma {:induction false} MentionOk(ms: seq<Mention>, m: Mention, before: seq<Thread>, utid: nat, after: seq<Thread>)
    requires NamesOk(ms, before) && ThreadNamed(before, m.tid, m.nameId, m.ts, utid, after)
    ensures NamesOk(ms + [m], after)
  {
    hide LastName, FirstTime, Latest;
    NamedLatest(before, m.tid, m.nameId, m.ts, utid, after, 0);
    forall u | 0 <= u < |after|
      ensures ThreadOk(ms + [m], after[u])
    {
      MentionedNext(ms, m, after[u].tid);
      if u < |before| {
        assert ThreadOk(ms, before[u]);
      } else {
        assert after[u].tid == m.tid && m.tid != 0;
        NeverNamed(ms, m.tid);
      }
    }
    forall tid: nat | tid == 0 || FirstTime(ms + [m], tid).Some?
      ensures Latest(after, tid).Some?
    {
      MentionedNext(ms, m, tid);
      NamedLatest(before, m.tid, m.nameId, m.ts, utid, after, tid);
    }
  }

  lemma {:induction false} SwitchMentions(ms: seq<Mention>, before: seq<Thread>, s: Switch, prevComm: nat,
                                          nextComm: nat, after: seq<Thread>)
    requires NamesOk(ms, before) && SwitchNamed(before, s, prevComm, nextComm, after)
    ensures NamesOk(ms + [Mention(s.nextPid, nextComm, s.ts), Mention(s.prevPid, prevComm, s.ts)], after)
  {
    hide ThreadNamed, NamesOk;
    var next: nat, prev: nat, between :| ThreadNamed(before, s.nextPid, nextComm, s.ts, next, between)
                                         && ThreadNamed(between, s.prevPid, prevComm, s.ts, prev, after);
    var first, second := Mention(s.nextPid, nextComm, s.ts), Mention(s.prevPid, prevComm, s.ts);
    MentionOk(ms, first, before, next, between);
    MentionOk(ms + [first], second, between, prev, after);
    assert ms + [first] + [second] == ms + [first, second];
  }

  lemma {:induction false} NoMentions()
    ensures NamesOk([], EMPTY.threads)
  {
    assert Latest(EMPTY.threads, 0) == Some(0);
  }

  class EventTracker {
    const processTracker: ProcessTracker
    const pending: array<PendingSlice>
    var prevTimestamp: int
    var slices: seq<Slice>
    var counters: seq<Counter>
    var outOfOrder: nat
    var mismatched: nat
    /** The switches taken in so far. */
    ghost var switches: seq<Switch>

    ghost predicate Valid()
      reads this, pending, processTracker
    {
      && processTracker.Valid() && pending.Length == MAX_CPUS
      && SwitchesOk(switches, prevTimestamp) && CountersOk(counters, prevTimestamp)
      && SlicesOk(switches, slices)
      && AllPendingOk(switches, pending[..])
      && UtidsOk(switches, slices, processTracker.threads)
    }

    constructor (processTracker: ProcessTracker)
      requires processTracker.Valid()
      ensures Valid() && fresh(pending) && this.processTracker == processTracker
      ensures switches == [] && counters == [] && prevTimestamp == 0
    {
      this.processTracker := processTracker;
      pending := new PendingSlice[MAX_CPUS](_ => PendingSlice(None, 0));
      prevTimestamp := 0;
      slices, counters, switches := [], [], [];
      outOfOrder, mismatched := 0, 0;
    }

    /** Closes the slice open on the CPU, if it was for the thread now left, and opens the next one. Names the two
        threads. A switch out of order is only counted. */
    method PushSchedSwitch(s: Switch, prevComm: nat, nextComm: nat)
      requires Valid() && s.cpu < MAX_CPUS
      modifies this, pending, processTracker
      ensures Valid() && counters == old(counters)
      ensures if s.ts < old(prevTimestamp)
              then switches == old(switches) && slices == old(slices) && prevTimestamp == old(prevTimestamp)
                   && outOfOrder == old(outOfOrder) + 1 && mismatched == old(mismatched)
              else switches == old(switches) + [s] && prevTimestamp == s.ts && outOfOrder == old(outOfOrder)
                   && mismatched == old(mismatched) + (if Mismatches(old(pending[s.cpu]), s) then 1 else 0)
      ensures processTracker.View() == old(processTracker.View()).(tids := processTracker.tids,
                                                                   threads := processTracker.threads)
      ensures processTracker.tied == old(processTracker.tied)
      ensures s.ts < old(prevTimestamp) ==>
                processTracker.View() == old(processTracker.View()) && pending[..] == old(pending[..])
      ensures s.ts >= old(prevTimestamp) ==>
                && SwitchNamed(old(processTracker.threads), s, prevComm, nextComm, processTracker.threads)
                && slices != [] && Latest(processTracker.threads, s.nextPid) == Some(slices[|slices| - 1].utid)
      ensures s.ts >= old(prevTimestamp) && s.prevPid != s.nextPid ==>
                && HasName(processTracker.threads, s.nextPid, nextComm)
                && HasName(processTracker.threads, s.prevPid, prevComm)
                && OthersSame(old(processTracker.threads), processTracker.threads, s.nextPid, s.prevPid)
    {
      hide ProcessTracker.Valid, SwitchesOk, CountersOk, SlicesOk, UtidsOk, BindsOnly, NextOn, BindingsKept,
           ThreadNamed, Latest, HasName, OthersSame;
      if s.ts < prevTimestamp {
        outOfOrder := outOfOrder + 1;
        return;
      }
      ghost var threads0 := processTracker.threads;
      var nextUtid := processTracker.UpdateThreadName(s.ts, s.nextPid, nextComm);
      ghost var threads1 := processTracker.threads;
      var prevUtid := processTracker.UpdateThreadName(s.ts, s.prevPid, prevComm);
      BindsKeeps(threads0, threads1, 0);
      BindsKeeps(threads1, processTracker.threads, 0);
      NamedLatest(threads1, s.prevPid, prevComm, s.ts, prevUtid, processTracker.threads, s.nextPid);
      assert SwitchNamed(threads0, s, prevComm, nextComm, processTracker.threads);
      if s.prevPid != s.nextPid {
        SwitchNames(threads0, s, prevComm, nextComm, processTracker.threads);
      }
      Push(s, nextUtid, threads0, threads1);
    }

    /** The part of a switch that concerns the slices. */
    method Push(s: Switch, nextUtid: nat, ghost threads0: seq<Thread>, ghost threads1: seq<Thread>)
      requires processTracker.Valid() && pending.Length == MAX_CPUS && s.cpu < MAX_CPUS && prevTimestamp <= s.ts
      requires SwitchesOk(switches, prevTimestamp) && CountersOk(counters, prevTimestamp)
      requires SlicesOk(switches, slices) && AllPendingOk(switches, pending[..]) && UtidsOk(switches, slices, threads0)
      requires BindingsKept(threads0, threads1) && BindingsKept(threads1, processTracker.threads)
      requires nextUtid < |threads1| && threads1[nextUtid].tid == s.nextPid
      modifies this, pending
      ensures Valid() && counters == old(counters) && switches == old(switches) + [s] && prevTimestamp == s.ts
      ensures slices != [] && slices[|slices| - 1].utid == nextUtid
      ensures outOfOrder == old(outOfOrder)
      ensures mismatched == old(mismatched) + (if Mismatches(old(pending[s.cpu]), s) then 1 else 0)
    {
      hide ProcessTracker.Valid, SwitchesOk, CountersOk, SlicesOk, NextOn, Ordered;
      Later(switches, counters, prevTimestamp, s.ts);
      prevTimestamp := s.ts;
      var prevSlice := pending[s.cpu];
      assert PendingOk(switches, s.cpu, pending[..][s.cpu]);
      if prevSlice.index.Some? {
        var i := prevSlice.index.value;
        if s.prevPid == prevSlice.nextPid {
          slices := slices[i := slices[i].(duration := s.ts - slices[i].start,
                                           endState := Some(s.prevState % TWO_TO_THE_16))];
        } else {
          mismatched := mismatched + 1;
        }
      }
      assert slices == Closing(old(slices), prevSlice, s);
      BindingsKeptOn(threads0, threads1, processTracker.threads);
      UtidsKept(switches, old(slices), slices, threads0, processTracker.threads);
      PushedSlices(switches, old(slices), prevSlice, s, nextUtid);
      PushedPending(switches, pending[..], s);
      SwitchesSnoc(switches, s);
      assert BindingKept(threads1[nextUtid], processTracker.threads[nextUtid]);
      ghost var before := pending[..];
      slices := slices + [Slice(s.cpu, s.ts, 0, nextUtid, None, s.nextPrio)];
      pending[s.cpu] := PendingSlice(Some(|slices| - 1), s.nextPid);
      assert pending[..] == before[s.cpu := PendingSlice(Some(|switches|), s.nextPid)];
      switches := switches + [s];
    }

    /** Adds a counter value, unless it comes out of order. */
    method PushCounter(c: Counter) returns (row: Option<nat>)
      requires Valid()
      modifies this`prevTimestamp, this`counters, this`outOfOrder
      ensures Valid()
      ensures if c.ts < old(prevTimestamp)
              then && row.None? && counters == old(counters) && prevTimestamp == old(prevTimestamp)
                   && outOfOrder == old(outOfOrder) + 1
              else && row == Some(|old(counters)|) && counters == old(counters) + [c] && prevTimestamp == c.ts
                   && outOfOrder == old(outOfOrder)
    {
      hide ProcessTracker.Valid, SlicesOk, UtidsOk, AllPendingOk;
      if c.ts < prevTimestamp {
        outOfOrder := outOfOrder + 1;
        return None;
      }
      prevTimestamp := c.ts;
      counters := counters + [c];
      row := Some(|counters| - 1);
    }
  }

  // ---- Whole runs -----------------------------------------------------------------------------------------

  datatype TraceEvent = Sched(s: Switch, prevComm: nat, nextComm: nat) | Count(c: Counter) {
    function Time(): int {
      match this
      case Sched(s, _, _) => s.ts
      case Count(c) => c.ts
    }
  }

  /** The events that do not come before one taken in earlier. */
  function InOrder(events: seq<TraceEvent>, now: int): seq<TraceEvent> {
    if events == [] then []
    else if events[0].Time() < now then InOrder(events[1..], now)
    else [events[0]] + InOrder(events[1..], events[0].Time())
  }

  function SwitchesOf(events: seq<TraceEvent>): seq<Switch> {
    if events == [] then []
    else (if events[0].Sched? then [events[0].s] else []) + SwitchesOf(events[1..])
  }

  function MentionsOf(events: seq<TraceEvent>): seq<Mention> {
    if events == [] then []
    else (if events[0].Sched? then MentionsIn(events[0]) else []) + MentionsOf(events[1..])
  }

  function MentionsIn(e: TraceEvent): seq<Mention>
    requires e.Sched?
  {
    [Mention(e.s.nextPid, e.nextComm, e.s.ts), Mention(e.s.prevPid, e.prevComm, e.s.ts)]
  }

  function CountersOf(events: seq<TraceEvent>): seq<Counter> {
    if events == [] then []
    else (if events[0].Count? then [events[0].c] else []) + CountersOf(events[1..])
  }

  /** Over every run, the slices and the counters are those of the events that came in order, each slice names the
      thread with the id that was switched to, and each thread has the last name that these events gave it. */
  method Track(events: seq<TraceEvent>) returns (slices: seq<Slice>, counters: seq<Counter>, threads: seq<Thread>)
    requires forall i :: 0 <= i < |events| && events[i].Sched? ==> events[i].s.cpu < MAX_CPUS
    ensures SlicesOk(SwitchesOf(InOrder(events, 0)), slices) && Ordered(SwitchesOf(InOrder(events, 0)))
    ensures UtidsOk(SwitchesOf(InOrder(events, 0)), slices, threads)
    ensures NamesOk(MentionsOf(InOrder(events, 0)), threads)
    ensures counters == CountersOf(InOrder(events, 0))
    ensures forall i, j :: 0 <= i < j < |counters| ==> counters[i].ts <= counters[j].ts
  {
    hide SlicesOk, SwitchesOk, AllPendingOk, UtidsOk, ProcessTracker.Valid, InOrder, SwitchesOf, CountersOf, MentionsOf,
         NamesOk, SwitchNamed;
    NoEvents();
    NoMentions();
    ghost var ms: seq<Mention> := [];
    var processTracker := new ProcessTracker();
    var t := new EventTracker(processTracker);
    assert events[0..] == events;
    for k := 0 to |events|
      invariant fresh(t) && fresh(t.pending) && fresh(t.processTracker) && t.Valid()
      invariant SwitchesOf(InOrder(events, 0)) == t.switches + SwitchesOf(InOrder(events[k..], t.prevTimestamp))
      invariant CountersOf(InOrder(events, 0)) == t.counters + CountersOf(InOrder(events[k..], t.prevTimestamp))
      invariant MentionsOf(InOrder(events, 0)) == ms + MentionsOf(InOrder(events[k..], t.prevTimestamp))
      invariant NamesOk(ms, t.processTracker.threads)
    {
      FirstEvent(events[k..], t.prevTimestamp);
      FirstMentions(events[k..], t.prevTimestamp);
      assert events[k..][1..] == events[k + 1..];
      ghost var threads0, e := t.processTracker.threads, events[k];
      ghost var taken := e.Sched? && e.Time() >= t.prevTimestamp;
      PushEvent(t, events[k]);
      if taken {
        SwitchMentions(ms, threads0, e.s, e.prevComm, e.nextComm, t.processTracker.threads);
        ms := ms + MentionsIn(e);
      }
    }
    assert events[|events|..] == [];
    assert ms + [] == ms;
    assert t.switches + [] == t.switches && t.counters + [] == t.counters;
    assert SwitchesOf(InOrder(events, 0)) == t.switches;
    InOrderIsOrdered(t.switches, t.prevTimestamp);
    slices, counters, threads := t.slices, t.counters, t.processTracker.threads;
  }

  method PushEvent(t: EventTracker, e: TraceEvent)
    requires t.Valid() && (e.Sched? ==> e.s.cpu < MAX_CPUS)
    modifies t, t.pending, t.processTracker
    ensures t.Valid()
    ensures if e.Time() < old(t.prevTimestamp) then
              t.switches == old(t.switches) && t.counters == old(t.counters) && t.prevTimestamp == old(t.prevTimestamp)
            else
              && t.switches == old(t.switches) + (if e.Sched? then [e.s] else [])
              && t.counters == old(t.counters) + (if e.Count? then [e.c] else [])
              && t.prevTimestamp == e.Time()
    ensures if e.Sched? && e.Time() >= old(t.prevTimestamp)
            then SwitchNamed(old(t.processTracker.threads), e.s, e.prevComm, e.nextComm, t.processTracker.threads)
            else t.processTracker.threads == old(t.processTracker.threads)
  {
    hide SlicesOk, SwitchesOk, CountersOk, AllPendingOk, UtidsOk, ProcessTracker.Valid, SwitchNamed, HasName,
         OthersSame;
    match e {
      case Sched(s, prevComm, nextComm) => t.PushSchedSwitch(s, prevComm, nextComm);
      case Count(c) => var _ := t.PushCounter(c);
    }
  }

  lemma {:induction false} NoEvents()
    ensures forall now :: SwitchesOf(InOrder([], now)) == [] && CountersOf(InOrder([], now)) == []
    ensures forall now :: MentionsOf(InOrder([], now)) == []
  {
  }

  lemma {:induction false} InOrderIsOrdered(switches: seq<Switch>, now: int)
    requires SwitchesOk(switches, now)
    ensures Ordered(switches)
  {
  }

  lemma {:induction false} FirstEvent(events: seq<TraceEvent>, now: int)
    requires events != []
    ensures var e, rest := events[0], events[1..];
            if e.Time() < now then
              SwitchesOf(InOrder(events, now)) == SwitchesOf(InOrder(rest, now)) &&
              CountersOf(InOrder(events, now)) == CountersOf(InOrder(rest, now))
            else
              SwitchesOf(InOrder(events, now)) == (if e.Sched? then [e.s] else [])
                + SwitchesOf(InOrder(rest, e.Time())) &&
              CountersOf(InOrder(events, now)) == (if e.Count? then [e.c] else []) + CountersOf(InOrder(rest, e.Time()))
  {
  }

  lemma {:induction false} FirstMentions(events: seq<TraceEvent>, now: int)
    requires events != []
    ensures var e, rest := events[0], events[1..];
            MentionsOf(InOrder(events, now))
            == if e.Time() < now then MentionsOf(InOrder(rest, now))
               else (if e.Sched? then MentionsIn(e) else []) + MentionsOf(InOrder(rest, e.Time()))
  {
  }
}
