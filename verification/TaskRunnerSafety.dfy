/** What every interleaving of the threads keeps: no wake-up is lost, and the poll table agrees with the
    watches. */
module TaskRunnerSafety {
  import opened Powers
  import opened Options
  import opened Ordering
  import opened TaskRunner

  // ---- The invariants -------------------------------------------------------------------------------------

  /** The event is signalled, or some thread is about to signal it. */
  predicate Waking(s: State) {
    s.event || s.owed > 0
  }

  predicate DueBefore(due: int, since: int, timeout: int) {
    timeout < 0 || due < since + timeout
  }

  predicate EventPolled(pollFds: seq<PollFd>, eventFd: nat) {
    exists k :: 0 <= k < |pollFds| && pollFds[k].fd == eventFd
  }

  /** Whatever there is to do, the thread that polls does not sleep through it. */
  predicate NoLostWakeUp(s: State, eventFd: nat) {
    s.place.Polling? ==>
      && !s.ownOwed && EventPolled(s.pollFds, eventFd)
      && (s.immediate != [] ==> Waking(s) || s.place.timeout == 0)
      && (s.quit ==> Waking(s))
      && (s.added != {} ==> Waking(s))
      && (forall d :: d in s.delayed && DueBefore(d.due, s.place.since, s.place.timeout) ==>
            Waking(s) || s.place.timeout == 0 || s.delayed[0].due < s.place.since - TWO_TO_THE_31)
  }

  /** The watch has this place in the table, up to sign. */
  predicate Placed(watches: map<nat, Watch>, pollFds: seq<PollFd>, fd: nat)
    requires fd in watches
  {
    match watches[fd].index
    case None => false
    case Some(k) => k < |pollFds| && Abs(pollFds[k].fd) == fd
  }

  predicate Owned(watches: map<nat, Watch>, pollFds: seq<PollFd>, k: nat)
    requires k < |pollFds|
  {
    var fd := Abs(pollFds[k].fd);
    fd in watches && watches[fd].index == Some(k)
  }

  /** Watches and places in the table correspond. */
  predicate Corresponds(watches: map<nat, Watch>, pollFds: seq<PollFd>) {
    && (forall fd :: fd in watches ==> Placed(watches, pollFds, fd))
    && (forall k :: 0 <= k < |pollFds| ==> Owned(watches, pollFds, k))
  }

  predicate EventOn(pollFd: PollFd, eventFd: nat) {
    && (Abs(pollFd.fd) == eventFd ==> pollFd.fd == eventFd)
    && (pollFd.revents ==> pollFd.fd >= 0)
  }

  /** The event is never switched off; only what is polled is reported. */
  predicate EventOk(pollFds: seq<PollFd>, eventFd: nat) {
    forall k :: 0 <= k < |pollFds| ==> EventOn(pollFds[k], eventFd)
  }

  predicate TaskWaits(immediate: seq<Task>, place: Place, fd: nat) {
    RunWatch(fd) in immediate || (place.Running? && RunWatch(fd) in place.tasks)
  }

  /** A watch that is not polled has a task that will switch it on again. */
  predicate NoneStuck(pollFds: seq<PollFd>, immediate: seq<Task>, place: Place) {
    forall k :: 0 <= k < |pollFds| && pollFds[k].fd < 0 ==> TaskWaits(immediate, place, Abs(pollFds[k].fd))
  }

  predicate CallbacksOk(watches: map<nat, Watch>, callbacks: nat, removed: set<nat>) {
    && (forall fd :: fd in watches ==> watches[fd].callback < callbacks && watches[fd].callback !in removed)
    && (forall f, g :: f in watches && g in watches && f != g ==> watches[f].callback != watches[g].callback)
    && (forall c :: c in removed ==> c < callbacks)
  }

  predicate DelayedOk(delayed: seq<Delayed>) {
    forall i, j :: 0 <= i < j < |delayed| ==> delayed[i].due <= delayed[j].due
  }

  /** What holds of the tables; while a watch has changed, the poll table is out of date. */
  predicate TablesOk(s: State, eventFd: nat) {
    && eventFd in s.watches && EventOk(s.pollFds, eventFd)
    && (s.changed || (Corresponds(s.watches, s.pollFds) && s.added == {}))
    && CallbacksOk(s.watches, s.callbacks, s.removed) && DelayedOk(s.delayed)
  }

  predicate Inv(s: State, eventFd: nat) {
    NoLostWakeUp(s, eventFd) && TablesOk(s, eventFd) && (s.changed || NoneStuck(s.pollFds, s.immediate, s.place))
  }

  // ---- Time -----------------------------------------------------------------------------------------------

  lemma {:induction false} InsertedOk(delayed: seq<Delayed>, d: Delayed)
    requires DelayedOk(delayed)
    ensures DelayedOk(Inserted(delayed, d))
    ensures forall e :: e in Inserted(delayed, d) <==> e in delayed || e == d
  {
    if delayed == [] || d.due < delayed[0].due {
    } else {
      var rest := Inserted(delayed[1..], d);
      assert delayed == [delayed[0]] + delayed[1..];
      InsertedOk(delayed[1..], d);
      forall i | 0 <= i < |rest|
        ensures delayed[0].due <= rest[i].due
      {
        assert rest[i] in rest;
        if rest[i] in delayed[1..] {
          var k :| 0 <= k < |delayed[1..]| && delayed[1..][k] == rest[i];
        }
      }
    }
  }

  /** The timeout lets no delayed task wait too long exactly unless the first is overdue by more than 2^31
      milliseconds and the 32-bit difference comes out positive. */
  lemma {:induction false} TimeoutInTime(delayed: seq<Delayed>, now: int)
    requires delayed != [] && DelayedOk(delayed)
    ensures var timeout := TimeoutFor([], delayed, now);
            (timeout == 0 || forall d :: d in delayed ==> now + timeout <= d.due)
            <==> !(delayed[0].due - now < -TWO_TO_THE_31 && Cut(delayed[0].due - now) > 0)
  {
  }

  /** The time until the first delayed task, if it is not overdue. */
  function TimeLeft(due: int, now: int): nat {
    if due < now then 0 else due - now
  }

  /** The timeout is the time until the first delayed task exactly if that is less than 2^31 milliseconds and the
      task is not overdue by so much that the 32-bit difference comes out positive. */
  lemma {:induction false} TimeoutExact(delayed: seq<Delayed>, now: int)
    requires delayed != []
    ensures var timeout, diff := TimeoutFor([], delayed, now), delayed[0].due - now;
            && (timeout == TimeLeft(delayed[0].due, now)
                <==> diff < TWO_TO_THE_31 && (-TWO_TO_THE_31 <= diff || Cut(diff) <= 0))
            && (diff >= TWO_TO_THE_31 ==> timeout < diff)
  {
  }

  /** A task that is due in 2^31 milliseconds makes the runner poll without waiting. */
  lemma {:induction false} SpinsEarly()
    ensures TimeoutFor([], [Delayed(TWO_TO_THE_31, Posted(0))], 0) == 0
  {
  }

  /** Such a task exists: one overdue by a little more than that makes the runner sleep for 24 days. */
  lemma {:induction false} OversleepsOverdue()
    ensures TimeoutFor([], [Delayed(0, Posted(0))], TWO_TO_THE_31 + 1) == TWO_TO_THE_31 - 1
  {
  }

  /** A signalled event is reported to the thread that polls. */
  lemma {:induction false} EventReported(s: State, ready: set<int>, eventFd: nat)
    requires Inv(s, eventFd) && s.place.Polling? && s.event
    ensures exists k ::
              && 0 <= k < |s.pollFds| && s.pollFds[k].fd == eventFd
              && Polled(s.pollFds, ready, eventFd, s.event)[k].revents
  {
  }

  lemma {:induction false} TimeoutOk(immediate: seq<Task>, delayed: seq<Delayed>, now: int)
    requires DelayedOk(delayed)
    ensures var timeout := TimeoutFor(immediate, delayed, now);
            && (immediate != [] ==> timeout == 0)
            && forall d :: d in delayed && DueBefore(d.due, now, timeout) ==>
                             timeout == 0 || delayed[0].due < now - TWO_TO_THE_31
  {
  }

  // ---- The poll table -------------------------------------------------------------------------------------

  lemma {:induction false} RebuiltCorresponds(watches: map<nat, Watch>)
    ensures var fds := InOrder(watches.Keys);
            Corresponds(Indexed(watches, fds), TableOf(fds))
  {
    hide InOrder, IndexOf;
    var fds := InOrder(watches.Keys);
    InOrderSorted(watches.Keys);
    var watches', pollFds := Indexed(watches, fds), TableOf(fds);
    forall k | 0 <= k < |pollFds|
      ensures Owned(watches', pollFds, k)
    {
      assert fds[k] in fds;
      var i := IndexOf(fds, fds[k]);
    }
  }

  lemma {:induction false} UpdatedOk(s: State, eventFd: nat)
    requires TablesOk(s, eventFd)
    ensures var u := Updated(s);
            && !u.changed && u.added == {} && TablesOk(u, eventFd)
            && u.watches.Keys == s.watches.Keys
            && (forall fd :: fd in s.watches ==> u.watches[fd].callback == s.watches[fd].callback)
            && (s.changed ==> NoneStuck(u.pollFds, u.immediate, u.place))
  {
    hide Corresponds, IndexOf, InOrder, DelayedOk;
    if s.changed {
      RebuiltCorresponds(s.watches);
      assert Updated(s).pollFds == TableOf(InOrder(s.watches.Keys));
    }
  }

  lemma {:induction false} EventIsPolled(s: State, eventFd: nat)
    requires TablesOk(s, eventFd) && !s.changed
    ensures EventPolled(s.pollFds, eventFd)
  {
  }

  /** Changing the sign of a place does not matter to the correspondence. */
  lemma {:induction false} SignChanged(watches: map<nat, Watch>, pollFds: seq<PollFd>, i: nat, p: PollFd)
    requires Corresponds(watches, pollFds) && i < |pollFds| && Abs(p.fd) == Abs(pollFds[i].fd)
    ensures Corresponds(watches, pollFds[i := p])
  {
    var pollFds' := pollFds[i := p];
    forall k | 0 <= k < |pollFds'|
      ensures Owned(watches, pollFds', k)
    {
      assert Owned(watches, pollFds, k);
    }
    forall fd | fd in watches
      ensures Placed(watches, pollFds', fd)
    {
      assert Placed(watches, pollFds, fd);
    }
  }

  lemma {:induction false} PolledCorresponds(watches: map<nat, Watch>, pollFds: seq<PollFd>, ready: set<int>,
                                             eventFd: nat, event: bool)
    ensures Corresponds(watches, pollFds) ==> Corresponds(watches, Polled(pollFds, ready, eventFd, event))
    ensures EventOk(pollFds, eventFd) ==> EventOk(Polled(pollFds, ready, eventFd, event), eventFd)
  {
    var pollFds' := Polled(pollFds, ready, eventFd, event);
    if Corresponds(watches, pollFds) {
      forall k | 0 <= k < |pollFds'|
        ensures Owned(watches, pollFds', k)
      {
        assert Owned(watches, pollFds, k);
      }
      forall fd | fd in watches
        ensures Placed(watches, pollFds', fd)
      {
        assert Placed(watches, pollFds, fd);
      }
    }
    if EventOk(pollFds, eventFd) {
      assert forall k :: 0 <= k < |pollFds'| ==> EventOn(pollFds[k], eventFd);
    }
  }

  lemma {:induction false} StillWaits(pollFds: seq<PollFd>, immediate: seq<Task>, place: Place, immediate': seq<Task>,
                                      place': Place)
    requires NoneStuck(pollFds, immediate, place)
    requires forall fd :: TaskWaits(immediate, place, fd) ==> TaskWaits(immediate', place', fd)
    ensures NoneStuck(pollFds, immediate', place')
  {
  }

  // ---- Calls ----------------------------------------------------------------------------------------------

  lemma {:induction false} CalledOk(s: State, call: Call, eventFd: nat)
    requires TablesOk(s, eventFd) && Allowed(s, call, eventFd)
    ensures TablesOk(Called(s, call), eventFd)
  {
    hide Corresponds, EventOk;
    match call {
      case PostTask(task) =>
      case PostDelayedTask(task, due) => InsertedOk(s.delayed, Delayed(due, Posted(task)));
      case AddFileDescriptorWatch(fd) =>
      case RemoveFileDescriptorWatch(fd) =>
      case Quit =>
    }
  }

  lemma {:induction false} CalledStuck(s: State, call: Call, eventFd: nat)
    requires Inv(s, eventFd) && Allowed(s, call, eventFd)
    ensures var r := Called(s, call); r.changed || NoneStuck(r.pollFds, r.immediate, r.place)
  {
  }

  lemma {:induction false} OtherOk(s: State, call: Call, eventFd: nat)
    requires Inv(s, eventFd) && Allowed(s, call, eventFd)
    ensures Inv(Apply(s, Other(call), eventFd), eventFd)
  {
    hide Corresponds, EventOk, CallbacksOk, NoneStuck, EventPolled, DelayedOk;
    CalledOk(s, call, eventFd);
    CalledStuck(s, call, eventFd);
    match call {
      case PostTask(task) =>
      case PostDelayedTask(task, due) =>
      case AddFileDescriptorWatch(fd) =>
      case RemoveFileDescriptorWatch(fd) =>
      case Quit =>
    }
  }

  lemma {:induction false} OwnOk(s: State, call: Call, eventFd: nat)
    requires Inv(s, eventFd) && Enabled(s, Own(call), eventFd)
    ensures Inv(Apply(s, Own(call), eventFd), eventFd)
  {
    hide Corresponds, EventOk, CallbacksOk, NoneStuck, EventPolled, DelayedOk;
    CalledOk(s, call, eventFd);
    CalledStuck(s, call, eventFd);
  }

  // ---- Steps of the running thread ------------------------------------------------------------------------

  lemma {:induction false} TakeLockOk(s: State, now: int, eventFd: nat)
    requires Inv(s, eventFd) && Enabled(s, TakeLock(now), eventFd)
    ensures Inv(Apply(s, TakeLock(now), eventFd), eventFd)
  {
    hide Corresponds, EventOk, CallbacksOk, EventPolled, DelayedOk, TimeoutFor;
    if s.quit {
      if !s.changed {
        StillWaits(s.pollFds, s.immediate, s.place, s.immediate, Returned);
      }
    } else {
      var u := Updated(s);
      UpdatedOk(s, eventFd);
      EventIsPolled(u, eventFd);
      TimeoutOk(s.immediate, s.delayed, now);
      StillWaits(u.pollFds, u.immediate, u.place, u.immediate, Polling(now, TimeoutFor(s.immediate, s.delayed, now)));
    }
  }

  lemma {:induction false} PollReturnsOk(s: State, ready: set<int>, eventFd: nat)
    requires Inv(s, eventFd) && Enabled(s, PollReturns(ready), eventFd)
    ensures Inv(Apply(s, PollReturns(ready), eventFd), eventFd)
  {
    hide Corresponds, EventOk, CallbacksOk, EventPolled, DelayedOk;
    var r := Apply(s, PollReturns(ready), eventFd);
    PolledCorresponds(s.watches, s.pollFds, ready, eventFd, s.event);
    if !s.changed {
      forall k | 0 <= k < |r.pollFds| && r.pollFds[k].fd < 0
        ensures TaskWaits(r.immediate, r.place, Abs(r.pollFds[k].fd))
      {
        assert TaskWaits(s.immediate, s.place, Abs(s.pollFds[k].fd));
      }
    }
  }

  lemma {:induction false} PostNextOk(s: State, eventFd: nat)
    requires Inv(s, eventFd) && Enabled(s, PostNext, eventFd)
    ensures Inv(Apply(s, PostNext, eventFd), eventFd)
  {
    hide Corresponds, CallbacksOk, EventPolled, DelayedOk;
    var r := Apply(s, PostNext, eventFd);
    var i := s.place.i;
    if i < |s.pollFds| && s.pollFds[i].revents {
      assert EventOn(s.pollFds[i], eventFd);
      if !s.changed {
        SignChanged(s.watches, s.pollFds, i, r.pollFds[i]);
      }
    }
    if !s.changed {
      forall k | 0 <= k < |r.pollFds| && r.pollFds[k].fd < 0
        ensures TaskWaits(r.immediate, r.place, Abs(r.pollFds[k].fd))
      {
        if s.pollFds[k].fd < 0 {
          assert TaskWaits(s.immediate, s.place, Abs(s.pollFds[k].fd));
        }
      }
    }
  }

  lemma {:induction false} PopOk(s: State, now: int, eventFd: nat)
    requires Inv(s, eventFd) && Enabled(s, Pop(now), eventFd)
    ensures Inv(Apply(s, Pop(now), eventFd), eventFd)
  {
  }

  lemma {:induction false} TaskDoneOk(s: State, eventFd: nat)
    requires Inv(s, eventFd) && Enabled(s, TaskDone, eventFd)
    ensures Inv(Apply(s, TaskDone, eventFd), eventFd)
  {
  }

  /** The lookup that begins a watch's task finds its place in the table, and only a callback that is there. */
  lemma {:induction false} BeginWatchFinds(s: State, eventFd: nat)
    requires TablesOk(s, eventFd) && Enabled(s, BeginWatch, eventFd) && s.place.tasks[0].fd in s.watches
    ensures var u, fd := Updated(s), s.place.tasks[0].fd;
            && fd in u.watches && Placed(u.watches, u.pollFds, fd)
            && u.watches[fd].callback == s.watches[fd].callback && u.watches[fd].callback !in s.removed
  {
  }

  lemma {:induction false} BeginWatchOk(s: State, eventFd: nat)
    requires Inv(s, eventFd) && Enabled(s, BeginWatch, eventFd)
    ensures Inv(Apply(s, BeginWatch, eventFd), eventFd)
  {
    hide CallbacksOk, EventPolled, DelayedOk, Updated;
    var r := Apply(s, BeginWatch, eventFd);
    var tasks := s.place.tasks;
    var fd := tasks[0].fd;
    assert tasks == [tasks[0]] + tasks[1..];
    if fd !in s.watches {
      forall k | !s.changed && 0 <= k < |s.pollFds| && s.pollFds[k].fd < 0
        ensures TaskWaits(r.immediate, r.place, Abs(s.pollFds[k].fd))
      {
        assert Owned(s.watches, s.pollFds, k) && TaskWaits(s.immediate, s.place, Abs(s.pollFds[k].fd));
      }
    } else {
      var u := Updated(s);
      UpdatedOk(s, eventFd);
      BeginWatchFinds(s, eventFd);
      UpdatedKeeps(s);
      var i := u.watches[fd].index.value;
      SignChanged(u.watches, u.pollFds, i, u.pollFds[i].(fd := fd));
      assert EventOn(u.pollFds[i], eventFd);
      forall k | 0 <= k < |r.pollFds| && r.pollFds[k].fd < 0
        ensures TaskWaits(r.immediate, r.place, Abs(r.pollFds[k].fd))
      {
        assert Owned(u.watches, u.pollFds, k);
        assert TaskWaits(u.immediate, u.place, Abs(u.pollFds[k].fd));
      }
    }
  }

  lemma {:induction false} UpdatedKeeps(s: State)
    ensures var u := Updated(s);
            && u.immediate == s.immediate && u.place == s.place && u.delayed == s.delayed && u.quit == s.quit
            && u.event == s.event && u.owed == s.owed && u.ownOwed == s.ownOwed && u.removed == s.removed
            && (!s.changed ==> u == s)
  {
  }

  // ---- All steps ------------------------------------------------------------------------------------------

  lemma {:induction false} StepOk(s: State, step: Step, eventFd: nat)
    requires Inv(s, eventFd) && Enabled(s, step, eventFd)
    ensures Inv(Apply(s, step, eventFd), eventFd)
  {
    hide TablesOk, EventPolled, Called, Updated;
    match step {
      case Start =>
        if !s.changed {
          StillWaits(s.pollFds, s.immediate, s.place, s.immediate, Looping);
        }
        SameTables(s, Apply(s, step, eventFd), eventFd);
      case Other(call) => OtherOk(s, call, eventFd);
      case OtherWakes => SameTables(s, Apply(s, step, eventFd), eventFd);
      case OwnWakes => SameTables(s, Apply(s, step, eventFd), eventFd);
      case TakeLock(now) => TakeLockOk(s, now, eventFd);
      case PollReturns(ready) => PollReturnsOk(s, ready, eventFd);
      case PostNext => PostNextOk(s, eventFd);
      case Pop(now) => PopOk(s, now, eventFd);
      case Own(call) => OwnOk(s, call, eventFd);
      case BeginWatch => BeginWatchOk(s, eventFd);
      case TaskDone => TaskDoneOk(s, eventFd);
    }
  }

  lemma {:induction false} SameTables(s: State, r: State, eventFd: nat)
    requires TablesOk(s, eventFd) && r.watches == s.watches && r.pollFds == s.pollFds && r.changed == s.changed
    requires r.added == s.added && r.removed == s.removed && r.callbacks == s.callbacks && r.delayed == s.delayed
    ensures TablesOk(r, eventFd)
  {
  }

  // ---- Whole runs -----------------------------------------------------------------------------------------

  /** In every state of every run no wake-up is lost, and while no watch has changed the poll table and the
      watches correspond and no watch is left switched off. */
  lemma {:induction false} RunOk(states: seq<State>, steps: seq<Step>, eventFd: nat, k: nat)
    requires IsRun(states, steps, eventFd) && k < |states|
    ensures Inv(states[k], eventFd)
    decreases k
  {
    if k == 0 {
      assert forall c :: c in states[0].watches ==> c == eventFd;
    } else {
      RunOk(states, steps, eventFd, k - 1);
      StepOk(states[k - 1], steps[k - 1], eventFd);
    }
  }

  lemma {:induction false} RemovedStays(states: seq<State>, steps: seq<Step>, eventFd: nat, i: nat, j: nat)
    requires IsRun(states, steps, eventFd) && i <= j < |states|
    ensures states[i].removed <= states[j].removed
    decreases j
  {
    hide Apply;
    if i < j {
      RemovedStays(states, steps, eventFd, i, j - 1);
      RemovedGrows(states[j - 1], steps[j - 1], eventFd);
    }
  }

  lemma {:induction false} RemovedGrows(s: State, step: Step, eventFd: nat)
    requires Enabled(s, step, eventFd)
    ensures s.removed <= Apply(s, step, eventFd).removed
  {
    match step
    case Other(call) =>
    case Own(call) =>
    case TakeLock(_) =>
    case BeginWatch =>
    case _ =>
  }

  /** The callback of a watch that was removed is never selected again. */
  lemma {:induction false} RemovedNeverRuns(states: seq<State>, steps: seq<Step>, eventFd: nat, i: nat, j: nat)
    requires IsRun(states, steps, eventFd) && i <= j < |steps|
    ensures Selected(states[j], steps[j], eventFd).Some? ==>
              Selected(states[j], steps[j], eventFd).value !in states[i].removed
  {
    RunOk(states, steps, eventFd, j);
    RemovedStays(states, steps, eventFd, i, j);
  }
}
