/** Which thread belongs to which process, from the events of a trace that arrive in any order. */
module ProcessTracking {
  import opened Options
  import opened Associations

  datatype Process = Process(pid: nat, startNs: int, nameId: nat, pupid: Option<nat>)

  // ---- What the tables keep -------------------------------------------------------------------------------

  /** The table of thread ids lists every thread under its id, the latest last. */
  predicate TidsOk(tids: map<nat, seq<nat>>, threads: seq<Thread>) {
    && (forall t :: t in tids ==> tids[t] != [])
    && (forall t, k :: t in tids && 0 <= k < |tids[t]| ==> tids[t][k] < |threads| && threads[tids[t][k]].tid == t)
    && (forall u :: 0 <= u < |threads| ==> threads[u].tid in tids && u in tids[threads[u].tid])
    && (forall t :: t in tids ==> Ascending(tids[t]))
  }

  predicate Ascending(utids: seq<nat>) {
    forall j, k :: 0 <= j < k < |utids| ==> utids[j] < utids[k]
  }

  /** The latest thread with an id. */
  function Latest(threads: seq<Thread>, tid: nat): (u: Option<nat>)
    ensures match u
            case None => forall v :: 0 <= v < |threads| ==> threads[v].tid != tid
            case Some(u) => && u < |threads| && threads[u].tid == tid
                            && forall v :: u < v < |threads| ==> threads[v].tid != tid
  {
    if threads == [] then None
    else
      var last := |threads| - 1;
      if threads[last].tid == tid then Some(last) else Latest(threads[..last], tid)
  }

  /** The latest thread with the id gets the name, if it is one, and no other thread changes; if there is none, a
      new one is added. */
  predicate ThreadNamed(before: seq<Thread>, tid: nat, nameId: nat, startNs: int, utid: nat, after: seq<Thread>) {
    match Latest(before, tid)
    case None => utid == |before| && after == before + [Thread(tid, None, startNs, nameId)]
    case Some(u) =>
      && utid == u && |after| == |before|
      && after[u] == (if nameId == 0 then before[u] else before[u].(nameId := nameId))
      && forall v :: 0 <= v < |before| && v != u ==> after[v] == before[v]
  }

  lemma {:induction false} KnownNamed(threads: seq<Thread>, tid: nat, nameId: nat, startNs: int, utid: nat)
    requires Latest(threads, tid) == Some(utid) && utid < |threads|
    ensures var named := if nameId == 0 then threads else threads[utid := threads[utid].(nameId := nameId)];
            ThreadNamed(threads, tid, nameId, startNs, utid, named) && Latest(named, tid) == Some(utid)
  {
  }

  lemma {:induction false} NewNamed(threads: seq<Thread>, tid: nat, nameId: nat, startNs: int)
    requires Latest(threads, tid) == None
    ensures var named := threads + [Thread(tid, None, startNs, nameId)];
            && ThreadNamed(threads, tid, nameId, startNs, |threads|, named)
            && Latest(named, tid) == Some(|threads|)
  {
  }

  lemma {:induction false} LatestIsLast(tids: map<nat, seq<nat>>, threads: seq<Thread>, tid: nat)
    requires TidsOk(tids, threads)
    ensures var utids := Utids(tids, tid);
            Latest(threads, tid) == if utids == [] then None else Some(utids[|utids| - 1])
  {
    if tid in tids {
      var last := tids[tid][|tids[tid]| - 1];
      assert last < |threads| && threads[last].tid == tid;
      assert Latest(threads, tid).Some?;
      var u := Latest(threads, tid).value;
      assert u in tids[tid];
    }
  }

  function Utids(tids: map<nat, seq<nat>>, tid: nat): seq<nat> {
    if tid in tids then tids[tid] else []
  }

  predicate PidsOk(pids: map<nat, nat>, processes: seq<Process>) {
    forall p :: p in pids ==> pids[p] < |processes| && processes[pids[p]].pid == p
  }

  predicate UpidsOk(threads: seq<Thread>, count: nat) {
    forall u :: 0 <= u < |threads| && threads[u].upid.Some? ==> threads[u].upid.value < count
  }

  /** Threads that were associated share their process for good, or wait for it together. */
  predicate TiedOk(threads: seq<Thread>, pending: seq<Pair>, tied: seq<Pair>) {
    && (forall p :: p in tied ==> TieOk(threads, pending, p))
    && (forall p :: p in pending ==> p in tied)
  }

  predicate TieOk(threads: seq<Thread>, pending: seq<Pair>, p: Pair) {
    PairOk(threads, p) && (p in pending || (threads[p.0].upid.Some? && Agree(threads, p)))
  }

  predicate ProcessesKept(before: seq<Process>, after: seq<Process>) {
    |before| <= |after| && forall u :: 0 <= u < |before| ==> before[u].pid == after[u].pid
  }

  /** A thread that may stand for a thread of the process: it has no process yet, or one with this pid. */
  predicate Candidate(thread: Thread, processes: seq<Process>, pid: nat) {
    thread.upid.None? || (thread.upid.value < |processes| && processes[thread.upid.value].pid == pid)
  }

  /** No thread in the list could be taken for one of the process. */
  predicate NoneFor(utids: seq<nat>, threads: seq<Thread>, processes: seq<Process>, pid: nat) {
    forall k :: 0 <= k < |utids| && utids[k] < |threads| ==> !Candidate(threads[utids[k]], processes, pid)
  }

  /** The first candidate, or else a new thread. */
  predicate Chosen(utids: seq<nat>, threads: seq<Thread>, processes: seq<Process>, pid: nat, utid: nat) {
    if utid < |threads| then
      exists k :: 0 <= k < |utids| && utids[k] == utid && Candidate(threads[utid], processes, pid)
                  && NoneFor(utids[..k], threads, processes, pid)
    else
      utid == |threads| && NoneFor(utids, threads, processes, pid)
  }

  /** A new unbound thread at the end of the list is chosen exactly if none before it can be. */
  lemma {:induction false} MainChosen(utids: seq<nat>, threads: seq<Thread>, thread: Thread, processes: seq<Process>,
                                      process: Process, main: nat)
    requires (forall k :: 0 <= k < |utids| ==> utids[k] < |threads|) && UpidsOk(threads, |processes|)
             && thread.upid.None?
    requires Chosen(utids + [|threads|], threads + [thread], processes + [process], process.pid, main)
    ensures main == |threads| <==> NoneFor(utids, threads, processes, process.pid)
    ensures main <= |threads|
  {
    var all, threads', processes' := utids + [|threads|], threads + [thread], processes + [process];
    assert all[|utids|] == |threads| && Candidate(threads'[all[|utids|]], processes', process.pid);
    forall k | 0 <= k < |utids|
      ensures Candidate(threads'[all[k]], processes', process.pid)
              == Candidate(threads[utids[k]], processes, process.pid)
    {
    }
  }

  lemma {:induction false} NotTouched(threads: seq<Thread>, pending: seq<Pair>)
    requires PairsOk(threads, pending)
    ensures !Touched(pending, |threads|)
  {
  }

  lemma {:induction false} OneKept(before: seq<Thread>, pending: seq<Pair>, after: seq<Thread>, utid: nat, u: nat)
    requires OthersKept(before, pending, after, utid) && u < |before| && u != utid && !Touched(pending, u)
    ensures u < |after| && after[u] == before[u]
  {
  }

  function Listed(tids: map<nat, seq<nat>>, tid: nat, utid: nat): map<nat, seq<nat>> {
    tids[tid := Utids(tids, tid) + [utid]]
  }

  lemma {:induction false} AscendingSnoc(utids: seq<nat>, utid: nat)
    requires (utids == [] || Ascending(utids)) && forall k :: 0 <= k < |utids| ==> utids[k] < utid
    ensures Ascending(utids + [utid])
  {
  }

  lemma {:induction false} ListedOk(tids: map<nat, seq<nat>>, threads: seq<Thread>, thread: Thread)
    requires TidsOk(tids, threads)
    ensures TidsOk(Listed(tids, thread.tid, |threads|), threads + [thread])
  {
    hide Ascending;
    var tids' := Listed(tids, thread.tid, |threads|);
    var threads' := threads + [thread];
    AscendingSnoc(Utids(tids, thread.tid), |threads|);
    forall u | 0 <= u < |threads'|
      ensures threads'[u].tid in tids' && u in tids'[threads'[u].tid]
    {
      if u < |threads| {
        assert u in tids[threads[u].tid];
      }
    }
  }

  lemma {:induction false} TidsOkKept(tids: map<nat, seq<nat>>, before: seq<Thread>, after: seq<Thread>)
    requires TidsOk(tids, before) && BindingsKept(before, after) && |after| == |before|
    ensures TidsOk(tids, after)
  {
  }

  /** A new unbound thread changes nothing for the others. */
  lemma {:induction false} Joins(threads: seq<Thread>, pending: seq<Pair>, tied: seq<Pair>, thread: Thread)
    requires thread.upid.None? && PairsOk(threads, pending) && AllAgree(threads, pending)
             && TiedOk(threads, pending, tied)
    ensures PairsOk(threads + [thread], pending) && AllAgree(threads + [thread], pending)
    ensures TiedOk(threads + [thread], pending, tied)
    ensures forall upid :: BindsOnly(threads, threads + [thread], upid)
  {
  }

  /** Binding a thread leaves only its own pairs in disagreement. */
  lemma {:induction false} Binds(threads: seq<Thread>, pending: seq<Pair>, tied: seq<Pair>, utid: nat, upid: nat)
    requires PairsOk(threads, pending) && AllAgree(threads, pending) && TiedOk(threads, pending, tied)
    requires utid < |threads| && (threads[utid].upid.None? || threads[utid].upid == Some(upid))
    ensures var threads' := threads[utid := threads[utid].(upid := Some(upid))];
            && Resolvable(threads', pending, utid, upid)
            && TiedOk(threads', pending, tied)
            && BindsOnly(threads, threads', upid)
  {
  }

  /** Resolving keeps all that the tables promise. */
  lemma {:induction false} ResolvedOk(threads: seq<Thread>, pending: seq<Pair>, tied: seq<Pair>, root: nat, upid: nat,
                                      threads': seq<Thread>, pending': seq<Pair>)
    requires Resolvable(threads, pending, root, upid) && Resolved(threads, pending, root, upid, threads', pending')
    requires TiedOk(threads, pending, tied)
    ensures PairsOk(threads', pending') && AllAgree(threads', pending') && BindsOnly(threads, threads', upid)
    ensures TiedOk(threads', pending', tied)
  {
    forall u | 0 <= u < |threads| && Connected(pending, root, u)
      ensures threads[u].upid.None? || threads[u].upid == Some(upid)
    {
      var path :| IsPath(pending, path) && path[0] == root && path[|path| - 1] == u;
      ConnectedAgree(threads, pending, root, upid, path);
    }
    ResolvedAgrees(threads, pending, root, upid, threads', pending');
    forall p | p in tied
      ensures TieOk(threads', pending', p)
    {
      assert TieOk(threads, pending, p);
      if p in pending {
        assert multiset(pending)[p] > 0;
        if Connected(pending, root, p.0) {
          assert Joined(pending, p.0, p.1);
          ConnectedStep(pending, root, p.0, p.1);
        } else {
          assert multiset(pending')[p] > 0;
        }
      }
    }
  }

  /** Some pending association names the thread. */
  predicate Touched(pending: seq<Pair>, u: nat) {
    exists p :: p in pending && (p.0 == u || p.1 == u)
  }

  /** Only the thread chosen and threads that associations name may have changed. */
  predicate OthersKept(before: seq<Thread>, pending: seq<Pair>, after: seq<Thread>, utid: nat) {
    |before| <= |after| && forall u :: 0 <= u < |before| && u != utid && !Touched(pending, u) ==> after[u] == before[u]
  }

  lemma {:induction false} ResolvedOthers(before: seq<Thread>, pending: seq<Pair>, root: nat, upid: nat,
                                          threads: seq<Thread>, threads': seq<Thread>, pending': seq<Pair>)
    requires |before| <= |threads| && root < |threads|
    requires Resolved(Bound(threads, root, upid), pending, root, upid, threads', pending')
    requires forall u :: 0 <= u < |before| ==> threads[u] == before[u]
    ensures OthersKept(before, pending, threads', root)
  {
  }

  function Registered(pids: map<nat, nat>, pid: nat, next: nat): map<nat, nat> {
    if pid in pids then pids else pids[pid := next]
  }

  function Started(process: Process, startNs: int): Process {
    if process.startNs == 0 then process.(startNs := startNs) else process
  }

  function Bound(threads: seq<Thread>, utid: nat, upid: nat): seq<Thread>
    requires utid < |threads|
  {
    threads[utid := threads[utid].(upid := Some(upid))]
  }

  lemma {:induction false} BindsNothing(threads: seq<Thread>)
    ensures forall upid :: BindsOnly(threads, threads, upid)
  {
  }

  lemma {:induction false} BindsKeeps(before: seq<Thread>, after: seq<Thread>, upid: nat)
    requires BindsOnly(before, after, upid)
    ensures BindingsKept(before, after)
  {
  }

  /** Every thread that is newly bound is bound to one of two processes. */
  predicate BindsEither(before: seq<Thread>, after: seq<Thread>, upid: nat, pupid: Option<nat>) {
    && BindingsKept(before, after)
    && forall u :: 0 <= u < |after| && (u < |before| ==> before[u].upid.None?) ==>
         after[u].upid.None? || after[u].upid == Some(upid) || after[u].upid == pupid
  }

  lemma {:induction false} BindsBoth(a: seq<Thread>, b: seq<Thread>, c: seq<Thread>, pupid: Option<nat>, upid: nat)
    requires if pupid.Some? then BindsOnly(a, b, pupid.value) else a == b
    requires BindsOnly(b, c, upid)
    ensures BindsEither(a, c, upid, pupid)
  {
  }

  lemma {:induction false} EitherKeeps(before: seq<Thread>, after: seq<Thread>, upid: nat, pupid: Option<nat>)
    requires BindsEither(before, after, upid, pupid)
    ensures BindingsKept(before, after)
  {
  }

  lemma {:induction false} BoundTo(before: seq<Thread>, after: seq<Thread>, upid: nat, u: nat)
    requires BindsOnly(before, after, upid) && u < |before|
    ensures u < |after| && BindingKept(before[u], after[u])
    ensures before[u].upid.None? ==> after[u].upid.None? || after[u].upid == Some(upid)
  {
  }

  lemma {:induction false} AddedTo(before: seq<Thread>, after: seq<Thread>, upid: nat, u: nat)
    requires BindsOnly(before, after, upid) && |before| <= u < |after|
    ensures after[u].upid.None? || after[u].upid == Some(upid)
  {
  }

  lemma {:induction false} ProcessesKeptOn(a: seq<Process>, b: seq<Process>, c: seq<Process>)
    requires ProcessesKept(a, b) && ProcessesKept(b, c)
    ensures ProcessesKept(a, c)
  {
  }

  lemma {:induction false} SamePids(pids: map<nat, nat>, a: seq<Process>, b: seq<Process>, upid: nat, p: Process)
    requires PidsOk(pids, b) && ProcessesKept(a, b) && upid < |b| && p.pid == b[upid].pid
    ensures PidsOk(pids, b[upid := p]) && ProcessesKept(a, b[upid := p])
  {
  }

  lemma {:induction false} ProcessesKeptSelf(processes: seq<Process>)
    ensures ProcessesKept(processes, processes)
  {
  }

  lemma {:induction false} MoreProcesses(threads: seq<Thread>, count: nat)
    requires UpidsOk(threads, count)
    ensures UpidsOk(threads, count + 1)
  {
  }

  lemma {:induction false} TablesKept(tids: map<nat, seq<nat>>, before: seq<Thread>, after: seq<Thread>, upid: nat,
                                      count: nat)
    requires TidsOk(tids, before) && UpidsOk(before, count) && upid < count
    requires BindsOnly(before, after, upid) && |after| == |before|
    ensures TidsOk(tids, after) && UpidsOk(after, count)
  {
  }

  lemma {:induction false} TieBound(threads: seq<Thread>, pending: seq<Pair>, tied: seq<Pair>, p: Pair)
    requires TiedOk(threads, pending, tied) && PairOk(threads, p) && threads[p.0].upid.Some? && Agree(threads, p)
    ensures TiedOk(threads, pending, tied + [p])
  {
  }

  lemma {:induction false} TiePending(threads: seq<Thread>, pending: seq<Pair>, tied: seq<Pair>, p: Pair)
    requires PairsOk(threads, pending) && AllAgree(threads, pending)
    requires TiedOk(threads, pending, tied) && PairOk(threads, p) && Agree(threads, p)
    ensures PairsOk(threads, pending + [p]) && AllAgree(threads, pending + [p])
    ensures TiedOk(threads, pending + [p], tied + [p])
  {
  }

  /** Threads connected by associations, however far apart, are bound to one process or to none. */
  lemma {:induction false} TiedAgree(threads: seq<Thread>, pending: seq<Pair>, tied: seq<Pair>, path: seq<nat>)
    requires PairsOk(threads, pending) && AllAgree(threads, pending) && TiedOk(threads, pending, tied)
    requires IsPath(tied, path) && path[0] < |threads|
    ensures path[|path| - 1] < |threads| && threads[path[|path| - 1]].upid == threads[path[0]].upid
    decreases |path|
  {
    if |path| > 1 {
      var shorter := path[..|path| - 1];
      assert forall i {:trigger shorter[i]} :: 0 < i < |shorter| ==>
               shorter[i] == path[i] && shorter[i - 1] == path[i - 1];
      TiedAgree(threads, pending, tied, shorter);
      TiedStep(threads, pending, tied, path[|path| - 2], path[|path| - 1]);
    }
  }

  lemma {:induction false} TiedStep(threads: seq<Thread>, pending: seq<Pair>, tied: seq<Pair>, u: nat, v: nat)
    requires PairsOk(threads, pending) && AllAgree(threads, pending) && TiedOk(threads, pending, tied)
    requires Joined(tied, u, v)
    ensures u < |threads| && v < |threads| && threads[u].upid == threads[v].upid
  {
  }

  /** Resolving a thread that was bound before binds nothing new. */
  lemma {:induction false} ResolvedSame(threads: seq<Thread>, pending: seq<Pair>, root: nat, upid: nat,
                                        threads': seq<Thread>, pending': seq<Pair>)
    requires PairsOk(threads, pending) && AllAgree(threads, pending)
    requires root < |threads| && threads[root].upid == Some(upid)
    requires Resolved(threads, pending, root, upid, threads', pending')
    ensures threads' == threads
  {
    forall u | 0 <= u < |threads|
      ensures threads'[u] == threads[u]
    {
      if Connected(pending, root, u) {
        var path :| IsPath(pending, path) && path[0] == root && path[|path| - 1] == u;
        assert TiedOk(threads, pending, pending);
        TiedAgree(threads, pending, pending, path);
      }
    }
  }

  // ---- What each call may do --------------------------------------------------------------------------------

  datatype Tables = Tables(tids: map<nat, seq<nat>>, pids: map<nat, nat>, pending: seq<Pair>,
                           threads: seq<Thread>, processes: seq<Process>, errors: nat)

  /** The idle process and its thread. */
  const EMPTY: Tables :=
    Tables(map[0 := [0]], map[0 := 0], [], [Thread(0, None, 0, 0)], [Process(0, 0, 0, None)], 0)

  function WithThread(s: Tables, thread: Thread): Tables {
    s.(threads := s.threads + [thread], tids := Listed(s.tids, thread.tid, |s.threads|))
  }

  function WithProcess(s: Tables, pid: nat): Tables {
    s.(processes := s.processes + [Process(pid, 0, 0, None)], pids := s.pids[pid := |s.processes|])
  }

  function WithStart(s: Tables, upid: nat, startNs: int): Tables {
    if upid < |s.processes| then s.(processes := s.processes[upid := Started(s.processes[upid], startNs)]) else s
  }

  function WithName(s: Tables, upid: nat, nameId: nat, pupid: Option<nat>): Tables {
    if upid < |s.processes| then
      s.(processes := s.processes[upid := s.processes[upid].(nameId := nameId, pupid := pupid)])
    else s
  }

  /** The thread is bound, and with it all threads it is connected to; nothing else changes. */
  ghost predicate Settled(s: Tables, utid: nat, upid: nat, s': Tables) {
    && s' == s.(threads := s'.threads, pending := s'.pending) && utid < |s.threads|
    && Resolved(Bound(s.threads, utid, upid), s.pending, utid, upid, s'.threads, s'.pending)
  }

  /** A thread of a process: the first that can be, or a new one. If it has no process, it gets the one with
      the pid. */
  ghost predicate ThreadUpdated(s: Tables, tid: nat, pid: nat, utid: nat, s': Tables)
    decreases if pid in s.pids then 0 else 1, 1
  {
    && Chosen(Utids(s.tids, tid), s.threads, s.processes, pid, utid)
    && var s1 := if utid < |s.threads| then s else WithThread(s, Thread(tid, None, 0, 0));
       utid < |s1.threads| &&
       match s1.threads[utid].upid
       case Some(upid) => Settled(s1, utid, upid, s')
       case None => exists s2 :: ProcessFound(s1, pid, s1.threads[utid].startNs, s2) && pid in s2.pids
                                 && Settled(s2, utid, s2.pids[pid], s')
  }

  /** The process with a pid: the one known, or a new one, whose main thread is then looked for. */
  ghost predicate ProcessFound(s: Tables, pid: nat, startNs: int, s': Tables)
    decreases if pid in s.pids then 0 else 1, 0
  {
    if pid in s.pids then s' == WithStart(s, s.pids[pid], startNs)
    else exists main, s1 :: ThreadUpdated(WithProcess(s, pid), pid, pid, main, s1)
                            && s' == WithStart(s1, |s.processes|, startNs)
  }

  /** The parent, if there is one, is found before the process itself. */
  ghost predicate ProcessNamed(s: Tables, pid: nat, ppid: Option<nat>, nameId: nat, s': Tables) {
    exists s1, s2 ::
      && (if ppid.Some? then ProcessFound(s, ppid.value, 0, s1) && ppid.value in s1.pids else s1 == s)
      && ProcessFound(s1, pid, 0, s2) && pid in s2.pids
      && s' == WithName(s2, s2.pids[pid], nameId, if ppid.Some? then Some(s1.pids[ppid.value]) else None)
  }

  /** Two threads of one process. If one of them is bound, so is the other now, with all that waited for it;
      otherwise they wait together. Threads bound to different processes cannot be associated. */
  ghost predicate Associated(s: Tables, utid1: nat, utid2: nat, s': Tables)
    requires utid1 < |s.threads| && utid2 < |s.threads|
  {
    var first, second := s.threads[utid1].upid, s.threads[utid2].upid;
    if first == second then s' == s.(pending := s.pending + [(utid1, utid2)])
    else if second.None? then Settled(s, utid2, first.value, s')
    else if first.None? then Settled(s, utid1, second.value, s')
    else s' == s.(errors := s.errors + 1)
  }

  lemma {:induction false} UpdatedKnown(s: Tables, tid: nat, pid: nat, utid: nat, s': Tables)
    requires Chosen(Utids(s.tids, tid), s.threads, s.processes, pid, utid) && utid < |s.threads|
    requires s.threads[utid].upid.Some? && Settled(s, utid, s.threads[utid].upid.value, s')
    ensures ThreadUpdated(s, tid, pid, utid, s')
  {
  }

  lemma {:induction false} UpdatedNew(s: Tables, tid: nat, pid: nat, utid: nat, s1: Tables, s2: Tables, s': Tables)
    requires Chosen(Utids(s.tids, tid), s.threads, s.processes, pid, utid)
    requires s1 == (if utid < |s.threads| then s else WithThread(s, Thread(tid, None, 0, 0)))
    requires utid < |s1.threads| && s1.threads[utid].upid.None?
    requires ProcessFound(s1, pid, s1.threads[utid].startNs, s2) && pid in s2.pids
    requires Settled(s2, utid, s2.pids[pid], s')
    ensures ThreadUpdated(s, tid, pid, utid, s')
  {
  }

  lemma {:induction false} FoundKnown(s: Tables, pid: nat, startNs: int)
    requires pid in s.pids
    ensures ProcessFound(s, pid, startNs, WithStart(s, s.pids[pid], startNs))
  {
  }

  lemma {:induction false} FoundNew(s: Tables, pid: nat, startNs: int, main: nat, s1: Tables)
    requires pid !in s.pids && ThreadUpdated(WithProcess(s, pid), pid, pid, main, s1)
    ensures ProcessFound(s, pid, startNs, WithStart(s1, |s.processes|, startNs))
  {
  }

  lemma {:induction false} Named(s: Tables, pid: nat, ppid: Option<nat>, nameId: nat, s1: Tables, s2: Tables)
    requires if ppid.Some? then ProcessFound(s, ppid.value, 0, s1) && ppid.value in s1.pids else s1 == s
    requires ProcessFound(s1, pid, 0, s2) && pid in s2.pids
    ensures ProcessNamed(s, pid, ppid, nameId,
                         WithName(s2, s2.pids[pid], nameId, if ppid.Some? then Some(s1.pids[ppid.value]) else None))
  {
  }

  /** The pid is forgotten and a new thread made before the process is. */
  ghost predicate ProcessStarted(s: Tables, timestamp: int, pid: nat, s': Tables) {
    ProcessFound(WithThread(s.(pids := s.pids - {pid}), Thread(pid, None, timestamp, 0)), pid, timestamp, s')
  }

  lemma {:induction false} ChosenByPid(utids: seq<nat>, threads: seq<Thread>, processes: seq<Process>, p: Process,
                                       q: Process, utid: nat)
    requires Chosen(utids, threads, processes + [p], p.pid, utid) && p.pid == q.pid
    ensures Chosen(utids, threads, processes + [q], p.pid, utid)
  {
    forall u | 0 <= u < |threads|
      ensures Candidate(threads[u], processes + [p], p.pid) == Candidate(threads[u], processes + [q], p.pid)
    {
    }
  }

  lemma {:induction false} FirstChosen(utids: seq<nat>, threads: seq<Thread>, processes: seq<Process>, pid: nat,
                                       utid: nat)
    requires Chosen(utids, threads, processes, pid, utid)
    requires utids != [] && utids[0] < |threads| && Candidate(threads[utids[0]], processes, pid)
    ensures utid == utids[0]
  {
    assert forall k :: 0 < k <= |utids| ==> utids[..k][0] == utids[0];
  }

  lemma {:induction false} OneCandidate(utids: seq<nat>, threads: seq<Thread>, processes: seq<Process>, pid: nat)
    requires utids != [] && utids[0] < |threads| && Candidate(threads[utids[0]], processes, pid)
    ensures !NoneFor(utids, threads, processes, pid)
  {
  }

  lemma {:induction false} SettledOthers(before: seq<Thread>, s: Tables, utid: nat, upid: nat, s': Tables)
    requires |before| <= |s.threads| && (forall u :: 0 <= u < |before| ==> s.threads[u] == before[u])
    requires Settled(s, utid, upid, s')
    ensures OthersKept(before, s.pending, s'.threads, utid)
  {
    hide Resolved, OthersKept;
    ResolvedOthers(before, s.pending, utid, upid, s.threads, s'.threads, s'.pending);
  }

  /** The latest thread with an id gets the name, if there is a name; a new one does if there is no thread. */
  function Renaming(s: Tables, timestamp: int, tid: nat, nameId: nat): Tables {
    var utids := Utids(s.tids, tid);
    if utids == [] then WithThread(s, Thread(tid, None, timestamp, nameId))
    else
      var utid := utids[|utids| - 1];
      if nameId == 0 || utid >= |s.threads| then s
      else s.(threads := s.threads[utid := s.threads[utid].(nameId := nameId)])
  }

  /** When an unbound main thread is known, a new process started when that thread did. */
  function StartOf(threads: seq<Thread>, main: nat, startNs: int): int {
    if main < |threads| && threads[main].upid.None? && threads[main].startNs != 0
    then threads[main].startNs
    else startNs
  }

  /** A thread that was bound before, or is bound to this process now. */
  predicate BoundNow(before: seq<Thread>, after: seq<Thread>, utid: nat, upid: nat) {
    utid < |after| && if utid < |before| && before[utid].upid.Some? then after == before
                      else after[utid].upid == Some(upid)
  }

  // ---- The tracker ----------------------------------------------------------------------------------------

  class ProcessTracker {
    var tids: map<nat, seq<nat>>
    var pids: map<nat, nat>
    var pending: seq<Pair>
    var threads: seq<Thread>
    var processes: seq<Process>
    var errors: nat
    /** The associations accepted so far. */
    ghost var tied: seq<Pair>

    ghost predicate Valid()
      reads this
    {
      && TidsOk(tids, threads)
      && PidsOk(pids, processes)
      && UpidsOk(threads, |processes|)
      && PairsOk(threads, pending) && AllAgree(threads, pending)
      && TiedOk(threads, pending, tied)
    }

    function View(): Tables
      reads this
    {
      Tables(tids, pids, pending, threads, processes, errors)
    }

    constructor ()
      ensures Valid() && tied == [] && View() == EMPTY
    {
      tids, pids := map[0 := [0]], map[0 := 0];
      threads, processes := [Thread(0, None, 0, 0)], [Process(0, 0, 0, None)];
      pending, errors, tied := [], 0, [];
    }

    method StartNewThread(timestamp: int, tid: nat, nameId: nat) returns (utid: nat)
      requires Valid()
      modifies this`tids, this`threads
      ensures Valid()
      ensures utid == |old(threads)| && View() == WithThread(old(View()), Thread(tid, None, timestamp, nameId))
      ensures threads == old(threads) + [Thread(tid, None, timestamp, nameId)]
      ensures forall upid :: BindsOnly(old(threads), threads, upid)
    {
      hide TidsOk, PidsOk, PairsOk, AllAgree, TiedOk, BindsOnly;
      var thread := Thread(tid, None, timestamp, nameId);
      ListedOk(tids, threads, thread);
      Joins(threads, pending, tied, thread);
      utid := |threads|;
      threads := threads + [thread];
      tids := Listed(tids, tid, utid);
    }

    /** The latest thread with this id, which gets the name, or else a new one. */
    method UpdateThreadName(timestamp: int, tid: nat, nameId: nat) returns (utid: nat)
      requires Valid()
      modifies this`tids, this`threads
      ensures Valid()
      ensures utid < |threads| && threads[utid].tid == tid && Latest(threads, tid) == Some(utid)
      ensures ThreadNamed(old(threads), tid, nameId, timestamp, utid, threads)
      ensures View() == Renaming(old(View()), timestamp, tid, nameId)
      ensures utid == var utids := Utids(old(tids), tid); if utids == [] then |old(threads)| else utids[|utids| - 1]
      ensures forall upid :: BindsOnly(old(threads), threads, upid)
    {
      hide TidsOk, PidsOk, UpidsOk, PairsOk, AllAgree, TiedOk, BindsOnly, BindingsKept, Latest, ThreadNamed;
      LatestIsLast(tids, threads, tid);
      if tid in tids {
        UtidListed(tids, threads, tid);
        utid := tids[tid][|tids[tid]| - 1];
        KnownNamed(threads, tid, nameId, timestamp, utid);
        ghost var named := if nameId == 0 then threads else threads[utid := threads[utid].(nameId := nameId)];
        Renamed(threads, named, tids, |processes|, pending, tied);
        if nameId != 0 {
          threads := threads[utid := threads[utid].(nameId := nameId)];
        }
        return;
      }
      NewNamed(threads, tid, nameId, timestamp);
      utid := StartNewThread(timestamp, tid, nameId);
    }

    /** The first thread with this id that can belong to the process, if there is one. */
    method FindCandidate(tid: nat, pid: nat) returns (utid: Option<nat>)
      requires Valid()
      ensures var utids := Utids(tids, tid);
              && (forall k :: 0 <= k < |utids| ==> utids[k] < |threads|)
              && (utid.Some? ==> utid.value < |threads|)
              && Chosen(utids, threads, processes, pid, if utid.Some? then utid.value else |threads|)
      ensures utid.Some? ==> threads[utid.value].tid == tid && Candidate(threads[utid.value], processes, pid)
    {
      UtidListed(tids, threads, tid);
      var utids := Utids(tids, tid);
      for k := 0 to |utids|
        invariant NoneFor(utids[..k], threads, processes, pid)
      {
        var thread := threads[utids[k]];
        if thread.upid.None? {
          return Some(utids[k]);
        }
        assert thread.upid.value < |processes|;
        assert utids[..k + 1] == utids[..k] + [utids[k]];
        if processes[thread.upid.value].pid == pid {
          return Some(utids[k]);
        }
      }
      assert utids[..|utids|] == utids;
      utid := None;
    }

    /** A thread of the process: bound to it if it had no process, together with all that waited for it. */
    method UpdateThread(tid: nat, pid: nat) returns (utid: nat)
      requires Valid()
      modifies this
      ensures Valid() && tied == old(tied)
      ensures ThreadUpdated(old(View()), tid, pid, utid, View())
      ensures Chosen(Utids(old(tids), tid), old(threads), old(processes), pid, utid)
      ensures utid < |threads| && threads[utid].tid == tid && threads[utid].upid.Some?
      ensures threads[utid].upid.value < |processes| && processes[threads[utid].upid.value].pid == pid
      ensures ProcessesKept(old(processes), processes)
      ensures if utid < |old(threads)| && old(threads)[utid].upid.Some?
              then threads == old(threads) && pids == old(pids) && processes == old(processes)
              else pids == Registered(old(pids), pid, |old(processes)|)
                   && |processes| == |old(processes)| + (if pid in old(pids) then 0 else 1)
                   && threads[utid].upid == Some(pids[pid]) && BindsOnly(old(threads), threads, pids[pid])
      ensures pid in old(pids) ==> OthersKept(old(threads), old(pending), threads, utid)
      ensures pid in old(pids) && (utid < |old(threads)| ==> old(threads)[utid].upid.None?) ==>
                pids[pid] < |old(processes)| &&
                processes == old(processes)[pids[pid] :=
                               Started(old(processes)[pids[pid]], StartOf(old(threads), utid, 0))]
      decreases if pid in pids then 0 else 1, 1
    {
      hide TidsOk, PidsOk, UpidsOk, PairsOk, AllAgree, TiedOk, BindsOnly, BindingsKept, Resolved, Resolvable, Chosen,
           ProcessesKept, OthersKept, ThreadUpdated, ProcessFound, Settled;
      var candidate := FindCandidate(tid, pid);
      if candidate.Some? && threads[candidate.value].upid.Some? {
        utid := candidate.value;
        KeepProcess(utid, tid, pid);
        return;
      }
      if candidate.Some? {
        utid := candidate.value;
        BindsNothing(threads);
      } else {
        utid := StartNewThread(0, tid, 0);
      }
      ghost var s1, threads1 := View(), threads;
      var upid, _ := GetOrCreateProcess(pid, threads[utid].startNs);
      ghost var s2, threads2 := View(), threads;
      SettleThread(utid, upid, threads1);
      BindsOnlyOn(threads1, threads2, threads, upid);
      BindsOnlyOn(old(threads), threads1, threads, upid);
      UpdatedNew(old(View()), tid, pid, utid, s1, s2, View());
      if pid in old(pids) {
        SettledOthers(old(threads), s2, utid, upid, View());
      }
    }

    /** The thread that was found has its process. */
    method KeepProcess(utid: nat, ghost tid: nat, ghost pid: nat)
      requires Valid() && utid < |threads| && threads[utid].upid.Some?
      requires Chosen(Utids(tids, tid), threads, processes, pid, utid)
      modifies this`threads, this`pending
      ensures Valid() && threads == old(threads)
      ensures ThreadUpdated(old(View()), tid, pid, utid, View())
      ensures ProcessesKept(old(processes), processes) && OthersKept(old(threads), old(pending), threads, utid)
    {
      hide TidsOk, PidsOk, PairsOk, AllAgree, TiedOk, BindsOnly, BindingsKept, Resolved, Resolvable, Chosen,
           ThreadUpdated;
      var upid := threads[utid].upid.value;
      Binds(threads, pending, tied, utid, upid);
      assert Bound(threads, utid, upid) == threads;
      ResolvePendingAssociations(utid, upid);
      ResolvedSame(old(threads), old(pending), utid, upid, threads, pending);
      ProcessesKeptSelf(processes);
      UpdatedKnown(old(View()), tid, pid, utid, View());
    }

    /** The thread gets the process, and so does all that waits for it. */
    method SettleThread(utid: nat, upid: nat, ghost before: seq<Thread>)
      requires Valid() && utid < |before| && upid < |processes|
      requires BindsOnly(before, threads, upid) && before[utid].upid.None?
      modifies this`threads, this`pending
      ensures Valid() && Settled(old(View()), utid, upid, View())
      ensures BindsOnly(old(threads), threads, upid)
      ensures utid < |threads| && threads[utid].upid == Some(upid) && threads[utid].tid == before[utid].tid
    {
      hide TidsOk, PidsOk, PairsOk, AllAgree, TiedOk, BindsOnly, BindingsKept, Resolved, Resolvable;
      BoundTo(before, threads, upid, utid);
      Binds(threads, pending, tied, utid, upid);
      threads := Bound(threads, utid, upid);
      TablesKept(tids, old(threads), threads, upid, |processes|);
      ghost var threads1 := threads;
      ResolvePendingAssociations(utid, upid);
      BoundTo(threads1, threads, upid, utid);
      BindsOnlyOn(old(threads), threads1, threads, upid);
    }

    /** The process with this pid, which is made if there is none, together with its main thread. The pid is
        known before the main thread is looked for, so that this does not go on for ever. */
    method GetOrCreateProcess(pid: nat, startNs: int) returns (upid: nat, ghost main: nat)
      requires Valid()
      modifies this
      ensures Valid() && tied == old(tied)
      ensures ProcessFound(old(View()), pid, startNs, View())
      ensures pids == Registered(old(pids), pid, |old(processes)|) && upid == pids[pid]
      ensures upid < |processes| && processes[upid].pid == pid && ProcessesKept(old(processes), processes)
      ensures BindsOnly(old(threads), threads, upid)
      ensures pid in old(pids) && old(processes)[upid].startNs == 0 ==> processes[upid].startNs == startNs
      ensures pid in old(pids) && old(processes)[upid].startNs != 0 ==> processes == old(processes)
      ensures if pid in old(pids) then
                && threads == old(threads) && pending == old(pending) && upid < |old(processes)|
                && processes == old(processes)[upid := Started(old(processes)[upid], startNs)]
              else
                && processes == old(processes) + [Process(pid, StartOf(old(threads), main, startNs), 0, None)]
                && Chosen(Utids(old(tids), pid), old(threads), old(processes) + [Process(pid, 0, 0, None)], pid, main)
                && OthersKept(old(threads), old(pending), threads, main) && BoundNow(old(threads), threads, main, upid)
      decreases if pid in pids then 0 else 1, 0
    {
      hide TidsOk, UpidsOk, PairsOk, AllAgree, TiedOk, BindsOnly, BindingsKept, Resolved, Resolvable, Chosen,
           OthersKept,
           ThreadUpdated, ProcessFound;
      main := 0;
      if pid in pids {
        upid := pids[pid];
        BindsNothing(threads);
        FoundKnown(View(), pid, startNs);
      } else {
        upid, main := CreateProcess(pid);
        FoundNew(old(View()), pid, startNs, main, View());
      }
      processes := processes[upid := Started(processes[upid], startNs)];
    }

    /** A new process, whose main thread is the first that can be. */
    method CreateProcess(pid: nat) returns (upid: nat, main: nat)
      requires Valid() && pid !in pids
      modifies this
      ensures Valid() && tied == old(tied) && ThreadUpdated(WithProcess(old(View()), pid), pid, pid, main, View())
      ensures upid == |old(processes)| && pids == old(pids)[pid := upid]
      ensures processes == old(processes) + [Process(pid, StartOf(old(threads), main, 0), 0, None)]
      ensures BindsOnly(old(threads), threads, upid) && BoundNow(old(threads), threads, main, upid)
      ensures Chosen(Utids(old(tids), pid), old(threads), old(processes) + [Process(pid, 0, 0, None)], pid, main)
      ensures OthersKept(old(threads), old(pending), threads, main)
      decreases 0, 2
    {
      hide TidsOk, UpidsOk, PairsOk, AllAgree, TiedOk, BindsOnly, BindingsKept, Chosen, OthersKept, ThreadUpdated,
           ProcessFound, ProcessesKept;
      upid := |processes|;
      MoreProcesses(threads, |processes|);
      processes := processes + [Process(pid, 0, 0, None)];
      pids := pids[pid := upid];
      BindsNothing(threads);
      assert View() == WithProcess(old(View()), pid);
      main := UpdateThread(pid, pid);
    }

    /** A new process and a new thread for its main thread. The first thread with the id that has no process,
        or one with this pid, is taken for the main thread: it is the new one exactly if no earlier one can
        be. */
    method StartNewProcess(timestamp: int, pid: nat) returns (upid: nat, ghost main: nat)
      requires Valid()
      modifies this
      ensures Valid() && tied == old(tied)
      ensures ProcessStarted(old(View()), timestamp, pid, View())
      ensures upid == |old(processes)| && pids == old(pids)[pid := upid]
      ensures BindsOnly(old(threads), threads, upid) && ProcessesKept(old(processes), processes)
      ensures var now := old(threads) + [Thread(pid, None, timestamp, 0)];
              && processes == old(processes) + [Process(pid, StartOf(now, main, timestamp), 0, None)]
              && Chosen(Utids(old(tids), pid) + [|old(threads)|], now, processes, pid, main)
              && BoundNow(now, threads, main, upid)
      ensures |old(threads)| < |threads| && threads[|old(threads)|].tid == pid
      ensures threads[|old(threads)|].upid == Some(upid)
         <==> NoneFor(Utids(old(tids), pid), old(threads), old(processes), pid)
      ensures NoneFor(Utids(old(tids), pid), old(threads), old(processes), pid) ==> processes[upid].startNs == timestamp
    {
      hide TidsOk, PairsOk, AllAgree, TiedOk, BindsOnly, BindingsKept, Chosen, OthersKept, ProcessFound;
      UtidListed(tids, threads, pid);
      NotTouched(threads, pending);
      pids := pids - {pid};
      var utid := StartNewThread(timestamp, pid, 0);
      ghost var threads1 := threads;
      upid, main := GetOrCreateProcess(pid, timestamp);
      BoundTo(threads1, threads, upid, utid);
      BindsOnlyOn(old(threads), threads1, threads, upid);
      assert pids == old(pids)[pid := upid];
      MainChosen(Utids(old(tids), pid), old(threads), threads1[utid], old(processes), Process(pid, 0, 0, None), main);
      ChosenByPid(Utids(old(tids), pid) + [utid], threads1, old(processes), Process(pid, 0, 0, None), processes[upid],
          main);
      if main != utid {
        OneKept(threads1, old(pending), threads, main, utid);
      }
    }

    /** The process with the pid. A start time that is known stays; a new process takes that of its main
        thread, if it has one. */
    method UpdateProcessStart(pid: nat, startNs: int) returns (upid: nat, ghost main: nat)
      requires Valid()
      modifies this
      ensures Valid() && tied == old(tied)
      ensures ProcessFound(old(View()), pid, startNs, View())
      ensures pids == Registered(old(pids), pid, |old(processes)|) && upid == pids[pid]
      ensures ProcessesKept(old(processes), processes) && BindsOnly(old(threads), threads, upid)
      ensures upid < |processes| && (pid in old(pids) ==> upid < |old(processes)|)
      ensures pid in old(pids) && old(processes)[upid].startNs == 0 ==> processes[upid].startNs == startNs
      ensures pid in old(pids) && old(processes)[upid].startNs != 0 ==> processes == old(processes)
      ensures if pid in old(pids) then
                && threads == old(threads) && upid < |old(processes)|
                && processes == old(processes)[upid := Started(old(processes)[upid], startNs)]
              else
                && processes == old(processes) + [Process(pid, StartOf(old(threads), main, startNs), 0, None)]
                && Chosen(Utids(old(tids), pid), old(threads), old(processes) + [Process(pid, 0, 0, None)], pid, main)
                && BoundNow(old(threads), threads, main, upid)
    {
      hide ProcessFound, Chosen, BindsOnly;
      upid, main := GetOrCreateProcess(pid, startNs);
    }

    /** Names a process and its parent. Threads are bound to those two processes only. */
    method UpdateProcess(pid: nat, ppid: Option<nat>, nameId: nat) returns (upid: nat)
      requires Valid()
      modifies this
      ensures Valid() && tied == old(tied)
      ensures ProcessNamed(old(View()), pid, ppid, nameId, View())
      ensures pid in pids && upid == pids[pid] && upid < |processes| && processes[upid].pid == pid
      ensures processes[upid].nameId == nameId
      ensures if ppid.None? then processes[upid].pupid.None?
              else ppid.value in pids && processes[upid].pupid == Some(pids[ppid.value])
      ensures ProcessesKept(old(processes), processes)
      ensures BindsEither(old(threads), threads, upid, processes[upid].pupid)
    {
      hide TidsOk, PidsOk, UpidsOk, PairsOk, AllAgree, TiedOk, BindsOnly, BindingsKept, ProcessFound, ProcessNamed,
           BindsEither, ProcessesKept, Chosen, OthersKept;
      var pupid := None;
      ProcessesKeptSelf(processes);
      BindsNothing(threads);
      if ppid.Some? {
        var parent, _ := GetOrCreateProcess(ppid.value, 0);
        pupid := Some(parent);
      }
      ghost var s1, threads1, processes1 := View(), threads, processes;
      ghost var main;
      upid, main := GetOrCreateProcess(pid, 0);
      BindsBoth(old(threads), threads1, threads, pupid, upid);
      ProcessesKeptOn(old(processes), processes1, processes);
      Named(old(View()), pid, ppid, nameId, s1, View());
      SamePids(pids, old(processes), processes, upid, processes[upid].(nameId := nameId, pupid := pupid));
      processes := processes[upid := processes[upid].(nameId := nameId, pupid := pupid)];
    }

    /** Two threads of one process. They end up bound to one process or waiting together, unless they were
        bound to different processes. */
    method AssociateThreads(utid1: nat, utid2: nat)
      requires Valid() && utid1 < |threads| && utid2 < |threads|
      modifies this`threads, this`pending, this`tied, this`errors
      ensures Valid() && BindingsKept(old(threads), threads)
      ensures Associated(old(View()), utid1, utid2, View())
      ensures var first, second := old(threads)[utid1].upid, old(threads)[utid2].upid;
              if first.Some? && second.Some? && first != second then tied == old(tied) && errors == old(errors) + 1
              else tied == old(tied) + [(utid1, utid2)] && errors == old(errors)
                   && |threads| == |old(threads)| && threads[utid1].upid == threads[utid2].upid
    {
      hide TidsOk, PidsOk, UpidsOk, PairsOk, AllAgree, TiedOk, BindsOnly, BindingsKept, Resolved, Resolvable;
      BindsNothing(threads);
      BindsKeeps(threads, threads, 0);
      var first, second := threads[utid1].upid, threads[utid2].upid;
      if first.Some? && second.None? {
        BindAndResolve(utid2, first.value, utid1);
        TieBound(threads, pending, tied, (utid1, utid2));
        tied := tied + [(utid1, utid2)];
        return;
      }
      if second.Some? && first.None? {
        BindAndResolve(utid1, second.value, utid2);
        TieBound(threads, pending, tied, (utid1, utid2));
        tied := tied + [(utid1, utid2)];
        return;
      }
      if first.Some? && first != second {
        errors := errors + 1;
        return;
      }
      TiePending(threads, pending, tied, (utid1, utid2));
      pending := pending + [(utid1, utid2)];
      tied := tied + [(utid1, utid2)];
    }

    /** Binds an unbound thread and all that waits for it. */
    method BindAndResolve(utid: nat, upid: nat, other: nat)
      requires Valid() && utid < |threads| && threads[utid].upid.None?
      requires other < |threads| && threads[other].upid == Some(upid)
      modifies this`threads, this`pending
      ensures Valid() && BindingsKept(old(threads), threads)
      ensures Settled(old(View()), utid, upid, View())
      ensures |threads| == |old(threads)| && threads[utid].upid == threads[other].upid == Some(upid)
    {
      hide TidsOk, PidsOk, PairsOk, AllAgree, TiedOk, BindsOnly, BindingsKept, Resolved, Resolvable;
      Binds(threads, pending, tied, utid, upid);
      threads := Bound(threads, utid, upid);
      TablesKept(tids, old(threads), threads, upid, |processes|);
      ghost var threads1 := threads;
      ResolvePendingAssociations(utid, upid);
      SameLength(threads1, old(pending), utid, upid, threads, pending);
      BindsOnlyOn(old(threads), threads1, threads, upid);
      BindsKeeps(old(threads), threads, upid);
      BoundTo(threads1, threads, upid, utid);
      BoundTo(old(threads), threads, upid, other);
    }

    /** The threads waiting for a thread are bound to its process, and those waiting for them, until none is. */
    method ResolvePendingAssociations(utidArg: nat, upid: nat)
      requires TidsOk(tids, threads) && PidsOk(pids, processes) && UpidsOk(threads, |processes|) && upid < |processes|
      requires Resolvable(threads, pending, utidArg, upid) && TiedOk(threads, pending, tied)
      modifies this`threads, this`pending
      ensures Valid()
      ensures Resolved(old(threads), old(pending), utidArg, upid, threads, pending)
      ensures BindsOnly(old(threads), threads, upid)
    {
      hide TidsOk, PidsOk, PairsOk, AllAgree, TiedOk, BindsOnly, Resolved, Resolvable, Underway, BindingsKept;
      var resolvedUtids := [utidArg];
      ghost var s := Search(threads, pending, {utidArg}, []);
      StartSearch(threads, pending, utidArg, upid);
      while resolvedUtids != []
        invariant Underway(old(threads), old(pending), utidArg, upid, s)
        invariant s.threads == threads && s.pairs == pending
        invariant forall w :: w in resolvedUtids ==> w in s.seen
        invariant Frontier(s.pairs, s.seen, resolvedUtids)
        decreases 2 * |pending| + |resolvedUtids|
      {
        var utid := resolvedUtids[|resolvedUtids| - 1];
        ghost var work := resolvedUtids;
        resolvedUtids := resolvedUtids[..|resolvedUtids| - 1];
        assert work == resolvedUtids + [utid];
        resolvedUtids, s := ResolveOne(utid, upid, resolvedUtids, utidArg, old(threads), old(pending), s);
      }
      SearchDone(old(threads), old(pending), utidArg, upid, s);
      ResolvedOk(old(threads), old(pending), tied, utidArg, upid, threads, pending);
      Bounded(old(threads), threads, upid, |processes|);
      SameLength(old(threads), old(pending), utidArg, upid, threads, pending);
      TidsOkKept(tids, old(threads), threads);
    }

    /** The pass over the pending associations for one thread. */
    method ResolveOne(utid: nat, upid: nat, resolvedUtids: seq<nat>, ghost root: nat, ghost threads0: seq<Thread>,
                      ghost pending0: seq<Pair>, ghost s: Search)
      returns (resolvedUtids': seq<nat>, ghost s': Search)
      requires Resolvable(threads0, pending0, root, upid)
      requires Underway(threads0, pending0, root, upid, s) && s.threads == threads && s.pairs == pending
      requires utid in s.seen && (forall w :: w in resolvedUtids ==> w in s.seen)
      requires Frontier(s.pairs, s.seen, resolvedUtids + [utid])
      modifies this`threads, this`pending
      ensures Underway(threads0, pending0, root, upid, s') && s'.threads == threads && s'.pairs == pending
      ensures forall w :: w in resolvedUtids' ==> w in s'.seen
      ensures Frontier(s'.pairs, s'.seen, resolvedUtids')
      ensures 2 * |pending| + |resolvedUtids'| <= 2 * |old(pending)| + |resolvedUtids|
    {
      hide Resolvable, Underway, Erased, Reached;
      resolvedUtids', s' := resolvedUtids, s;
      var i := 0;
      while i < |pending|
        invariant i <= |pending|
        invariant Underway(threads0, pending0, root, upid, s') && s'.threads == threads && s'.pairs == pending
        invariant utid in s'.seen && forall w :: w in resolvedUtids' ==> w in s'.seen
        invariant Frontier(s'.pairs, s'.seen, resolvedUtids' + [utid])
        invariant forall k :: 0 <= k < i ==> pending[k].0 != utid && pending[k].1 != utid
        invariant 2 * |pending| + |resolvedUtids'| <= 2 * |old(pending)| + |resolvedUtids|
        decreases |pending| - i
      {
        var pair := pending[i];
        if pair.0 != utid && pair.1 != utid {
          i := i + 1;
        } else {
          var other := if pair.0 == utid then pair.1 else pair.0;
          FollowedUnderway(threads0, pending0, root, upid, s', i, utid, other);
          FollowedFrontier(s'.pairs, s'.seen, resolvedUtids', utid, i, other);
          UnderwayLength(threads0, pending0, root, upid, s');
          s' := Followed(s', i, other, upid);
          threads := threads[other := threads[other].(upid := Some(upid))];
          pending := Erased(pending, i);
          resolvedUtids' := resolvedUtids' + [other];
        }
      }
      assert forall p :: p in pending ==> p.0 != utid && p.1 != utid;
    }
  }

  lemma {:induction false} UnderwayLength(threads: seq<Thread>, pairs: seq<Pair>, root: nat, upid: nat, s: Search)
    requires Underway(threads, pairs, root, upid, s)
    ensures |s.threads| == |threads|
  {
  }

  lemma {:induction false} SameLength(threads: seq<Thread>, pairs: seq<Pair>, root: nat, upid: nat,
                                      threads': seq<Thread>, pairs': seq<Pair>)
    requires Resolved(threads, pairs, root, upid, threads', pairs') && BindsOnly(threads, threads', upid)
    ensures |threads'| == |threads| && BindingsKept(threads, threads')
  {
  }

  lemma {:induction false} Bounded(before: seq<Thread>, after: seq<Thread>, upid: nat, count: nat)
    requires BindsOnly(before, after, upid) && UpidsOk(before, count) && upid < count
    ensures UpidsOk(after, count)
  {
  }

  lemma {:induction false} FollowedFrontier(pairs: seq<Pair>, seen: set<nat>, work: seq<nat>, utid: nat, i: nat,
                                            other: nat)
    requires i < |pairs| && Frontier(pairs, seen, work + [utid])
    ensures Frontier(Erased(pairs, i), seen + {other}, work + [other] + [utid])
    ensures |Erased(pairs, i)| == |pairs| - 1 && Erased(pairs, i)[..i] == pairs[..i]
  {
  }

  lemma {:induction false} UtidListed(tids: map<nat, seq<nat>>, threads: seq<Thread>, tid: nat)
    requires TidsOk(tids, threads)
    ensures tid in tids ==> tids[tid] != []
    ensures var utids := Utids(tids, tid);
            forall k :: 0 <= k < |utids| ==> utids[k] < |threads| && threads[utids[k]].tid == tid
  {
  }

  /** A new name changes no binding. */
  lemma {:induction false} Renamed(before: seq<Thread>, after: seq<Thread>, tids: map<nat, seq<nat>>, count: nat,
                                   pending: seq<Pair>, tied: seq<Pair>)
    requires |after| == |before|
    requires forall u :: 0 <= u < |before| ==> after[u].tid == before[u].tid && after[u].upid == before[u].upid
    requires TidsOk(tids, before) && UpidsOk(before, count)
    requires PairsOk(before, pending) && AllAgree(before, pending) && TiedOk(before, pending, tied)
    ensures TidsOk(tids, after) && UpidsOk(after, count)
    ensures PairsOk(after, pending) && AllAgree(after, pending) && TiedOk(after, pending, tied)
    ensures forall upid :: BindsOnly(before, after, upid)
  {
  }

  // ---- Whole runs -----------------------------------------------------------------------------------------

  datatype Call =
    | NewThread(timestamp: int, tid: nat, nameId: nat)
    | NameThread(timestamp: int, tid: nat, nameId: nat)
    | ThreadOf(tid: nat, pid: nat)
    | NewProcess(timestamp: int, pid: nat)
    | ProcessStart(pid: nat, startNs: int)
    | NameProcess(pid: nat, ppid: Option<nat>, nameId: nat)
    | Associate(utid1: nat, utid2: nat)

  /** What one call may turn the tables into. A call that names a thread that is not there does nothing. */
  ghost predicate Next(call: Call, s: Tables, s': Tables) {
    match call
    case NewThread(timestamp, tid, nameId) => s' == WithThread(s, Thread(tid, None, timestamp, nameId))
    case NameThread(timestamp, tid, nameId) => s' == Renaming(s, timestamp, tid, nameId)
    case ThreadOf(tid, pid) => exists utid :: ThreadUpdated(s, tid, pid, utid, s')
    case NewProcess(timestamp, pid) => ProcessStarted(s, timestamp, pid, s')
    case ProcessStart(pid, startNs) => ProcessFound(s, pid, startNs, s')
    case NameProcess(pid, ppid, nameId) => ProcessNamed(s, pid, ppid, nameId, s')
    case Associate(utid1, utid2) =>
      if utid1 < |s.threads| && utid2 < |s.threads| then Associated(s, utid1, utid2, s') else s' == s
  }

  /** An association of two threads that are not known to belong to different processes. */
  predicate Ties(call: Call, threads: seq<Thread>) {
    && call.Associate? && PairOk(threads, (call.utid1, call.utid2))
    && (threads[call.utid1].upid.None? || threads[call.utid2].upid.None? || Agree(threads, (call.utid1, call.utid2)))
  }

  function TiesAfter(call: Call, threads: seq<Thread>, tied: seq<Pair>): seq<Pair> {
    if Ties(call, threads) then tied + [(call.utid1, call.utid2)] else tied
  }

  method Perform(t: ProcessTracker, call: Call)
    requires t.Valid()
    modifies t
    ensures t.Valid() && BindingsKept(old(t.threads), t.threads) && Next(call, old(t.View()), t.View())
    ensures t.tied == TiesAfter(call, old(t.threads), old(t.tied))
  {
    hide TidsOk, PidsOk, UpidsOk, PairsOk, AllAgree, TiedOk, BindsOnly, BindingsKept, Resolved, Chosen, ProcessesKept,
         ThreadUpdated, ProcessFound, ProcessNamed, BindsEither, Renaming, WithThread, Associated, ProcessStarted;
    ghost var before := t.threads;
    BindsNothing(before);
    BindsKeeps(before, before, 0);
    match call {
      case NewThread(timestamp, tid, nameId) =>
        var _ := t.StartNewThread(timestamp, tid, nameId);
        BindsKeeps(before, t.threads, 0);
      case NameThread(timestamp, tid, nameId) =>
        var _ := t.UpdateThreadName(timestamp, tid, nameId);
        BindsKeeps(before, t.threads, 0);
      case ThreadOf(tid, pid) =>
        var utid := t.UpdateThread(tid, pid);
        if utid >= |before| || before[utid].upid.None? {
          BindsKeeps(before, t.threads, t.pids[pid]);
        }
      case NewProcess(timestamp, pid) =>
        var upid, _ := t.StartNewProcess(timestamp, pid);
        BindsKeeps(before, t.threads, upid);
      case ProcessStart(pid, startNs) =>
        var upid, _ := t.UpdateProcessStart(pid, startNs);
        BindsKeeps(before, t.threads, upid);
      case NameProcess(pid, ppid, nameId) =>
        var upid := t.UpdateProcess(pid, ppid, nameId);
        EitherKeeps(before, t.threads, upid, t.processes[upid].pupid);
      case Associate(utid1, utid2) =>
        if utid1 < |t.threads| && utid2 < |t.threads| {
          t.AssociateThreads(utid1, utid2);
        }
    }
  }

  /** Every run goes from the empty tables by what each call may do; in it, a thread that is bound stays bound
      to the same process, and threads connected by the associations made so far are bound to one process or
      to none. */
  method Replay(calls: seq<Call>) returns (history: seq<Tables>, ties: seq<seq<Pair>>)
    ensures |history| == |ties| == |calls| + 1 && history[0] == EMPTY && ties[0] == []
    ensures forall k :: 0 <= k < |calls| ==> Next(calls[k], history[k], history[k + 1])
    ensures forall k :: 0 <= k < |calls| ==> ties[k + 1] == TiesAfter(calls[k], history[k].threads, ties[k])
    ensures forall i, j :: 0 <= i <= j < |history| ==> BindingsKept(history[i].threads, history[j].threads)
    ensures forall j :: 0 <= j < |history| ==> Together(history[j].threads, ties[j])
  {
    hide TidsOk, PidsOk, UpidsOk, PairsOk, AllAgree, TiedOk, BindsOnly, BindingsKept, Connected, Ties, Next, Together;
    var t := new ProcessTracker();
    var tied := [];
    history, ties := [t.View()], [tied];
    BindsNothing(t.threads);
    BindsKeeps(t.threads, t.threads, 0);
    TogetherNow(t.threads, t.pending, t.tied);
    for k := 0 to |calls|
      invariant fresh(t) && t.Valid() && tied == t.tied
      invariant |history| == |ties| == k + 1 && history[0] == EMPTY && ties[0] == []
      invariant history[k] == t.View() && ties[k] == tied
      invariant forall i :: 0 <= i < k ==> Next(calls[i], history[i], history[i + 1])
      invariant forall i :: 0 <= i < k ==> ties[i + 1] == TiesAfter(calls[i], history[i].threads, ties[i])
      invariant forall i, j :: 0 <= i <= j < |history| ==> BindingsKept(history[i].threads, history[j].threads)
      invariant forall j :: 0 <= j < |history| ==> Together(history[j].threads, ties[j])
    {
      ghost var before := t.threads;
      tied := TiesAfter(calls[k], t.threads, tied);
      Perform(t, calls[k]);
      forall i | 0 <= i <= k
        ensures BindingsKept(history[i].threads, t.threads)
      {
        BindingsKeptOn(history[i].threads, before, t.threads);
      }
      BindsNothing(t.threads);
      BindsKeeps(t.threads, t.threads, 0);
      TogetherNow(t.threads, t.pending, t.tied);
      history, ties := history + [t.View()], ties + [tied];
    }
  }

  /** A process whose main thread is left without it: a thread with the id was seen before the process started
      and gets the process instead. */
  method MainThreadMissed() returns (threads: seq<Thread>, upid: nat)
    ensures |threads| > 2 && threads[1].tid == threads[2].tid
    ensures threads[1].upid == Some(upid) && threads[2].upid.None?
  {
    hide TidsOk, PidsOk, UpidsOk, PairsOk, AllAgree, TiedOk, BindingsKept, BindsOnly, Chosen, NoneFor, ProcessStarted,
         ProcessesKept;
    var t := new ProcessTracker();
    var seen := t.StartNewThread(1, 5, 0);
    ghost var before, utids := t.threads, Utids(t.tids, 5);
    assert utids == [1] && Candidate(before[utids[0]], t.processes, 5);
    OneCandidate(utids, before, t.processes, 5);
    ghost var main;
    upid, main := t.StartNewProcess(2, 5);
    BoundTo(before, t.threads, upid, 1);
    AddedTo(before, t.threads, upid, 2);
    FirstChosen(utids + [2], before + [Thread(5, None, 2, 0)], t.processes, 5, main);
    threads := t.threads;
  }

  ghost predicate Together(threads: seq<Thread>, tied: seq<Pair>) {
    forall u: nat, v: nat :: u < |threads| && Connected(tied, u, v) ==>
          v < |threads| && threads[u].upid == threads[v].upid
  }

  lemma {:induction false} TogetherNow(threads: seq<Thread>, pending: seq<Pair>, tied: seq<Pair>)
    requires PairsOk(threads, pending) && AllAgree(threads, pending) && TiedOk(threads, pending, tied)
    ensures Together(threads, tied)
  {
    forall u: nat, v: nat | u < |threads| && Connected(tied, u, v)
      ensures v < |threads| && threads[u].upid == threads[v].upid
    {
      var path :| IsPath(tied, path) && path[0] == u && path[|path| - 1] == v;
      TiedAgree(threads, pending, tied, path);
    }
  }
}
