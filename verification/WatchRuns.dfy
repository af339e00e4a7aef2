/** Runs of the task runner in which two tasks wait for one watch. */
module WatchRuns {
  import opened Ordering
  import opened TaskRunner
  import opened TaskRunnerSafety
  import opened UnixTaskRunner

  /** One round of the main loop up to the tasks, with no other thread in between. */
  method PollOnce(runner: UnixTaskRunner, ready: set<int>)
    requires runner.Valid() && runner.s.place.Looping? && !runner.s.ownOwed && !runner.s.quit
    modifies runner
    ensures runner.Valid() && runner.s.place.Popping? && !runner.s.ownOwed && !runner.s.quit && !runner.s.changed
    ensures runner.s.delayed == old(runner.s.delayed) && runner.s.watches.Keys == old(runner.s.watches).Keys
    ensures old(runner.s.changed) ==>
              var made := TableOf(InOrder(old(runner.s.watches).Keys));
              var table := Polled(made, ready, runner.eventFd, old(runner.s.event));
              && runner.immediateTasks == old(runner.immediateTasks) + ReadyWatches(table, runner.eventFd)
              && runner.pollFds == Switched(table, runner.eventFd, |table|)
    ensures !old(runner.s.changed) ==>
              var table := Polled(old(runner.s.pollFds), ready, runner.eventFd, old(runner.s.event));
              && runner.immediateTasks == old(runner.immediateTasks) + ReadyWatches(table, runner.eventFd)
              && runner.pollFds == Switched(table, runner.eventFd, |table|)
  {
    hide Inv, InOrder, IndexOf, ReadyWatches, Switched, WatchesIn, TimeoutFor, Polled;
    var _ := runner.TakeLock(0);
    runner.PollReturns(ready);
    runner.PostFileDescriptorWatches([], []);
  }

  /** Another thread adds a watch and notifies. */
  method AddWatch(runner: UnixTaskRunner, fd: nat)
    requires runner.Valid() && fd !in runner.s.watches
    modifies runner
    ensures runner.Valid() && runner.s.watches.Keys == old(runner.s.watches).Keys + {fd} && runner.s.changed
    ensures runner.s.place == old(runner.s.place) && runner.s.ownOwed == old(runner.s.ownOwed)
    ensures runner.s.quit == old(runner.s.quit) && runner.s.delayed == old(runner.s.delayed)
    ensures runner.immediateTasks == old(runner.immediateTasks) && runner.s.event
  {
    hide Inv;
    var _, _ := runner.AddFileDescriptorWatch(fd, false);
    runner.WakeUp(false);
  }

  /** A runner whose first task is posted before it runs, and that watches a descriptor. */
  method Watching(eventFd: nat, fd: nat) returns (runner: UnixTaskRunner)
    requires fd != eventFd
    ensures fresh(runner) && runner.Valid() && runner.eventFd == eventFd && runner.s.watches.Keys == {fd, eventFd}
    ensures runner.s.changed && runner.s.place.Looping? && !runner.s.ownOwed && !runner.s.quit && runner.s.delayed == []
    ensures runner.immediateTasks == [Posted(0)] && runner.s.event
  {
    hide Inv;
    runner := new UnixTaskRunner(eventFd);
    var _ := runner.PostTask(0, false);
    runner.WakeUp(false);
    AddWatch(runner, fd);
    assert runner.s.watches.Keys == {fd, eventFd};
    runner.BeginRun();
  }

  /** The first task runs and does nothing. */
  method RunFirst(runner: UnixTaskRunner)
    requires runner.Valid() && runner.s.place.Popping? && !runner.s.ownOwed && runner.s.delayed == []
    requires runner.immediateTasks != [] && runner.immediateTasks[0].Posted?
    modifies runner
    ensures runner.Valid() && runner.s.place.Looping? && !runner.s.ownOwed && runner.s.delayed == []
    ensures runner.immediateTasks == old(runner.immediateTasks)[1..] && runner.pollFds == old(runner.pollFds)
    ensures runner.s.watches == old(runner.s.watches) && runner.s.quit == old(runner.s.quit)
    ensures runner.s.changed == old(runner.s.changed) && runner.s.event == old(runner.s.event)
  {
    hide Inv;
    var _ := runner.RunImmediateAndDelayedTask(0);
    runner.FinishTask();
    runner.FinishTask();
  }

  /** The table of these descriptors, with the first of them ready. */
  lemma {:induction false} FirstReady(fds: seq<nat>, eventFd: nat, event: bool)
    requires |fds| >= 2 && fds[0] != eventFd && forall i :: 0 < i < |fds| ==> fds[i] != fds[0]
    ensures ReadyWatches(Polled(TableOf(fds), {fds[0]}, eventFd, event), eventFd) == [RunWatch(fds[0])]
    decreases |fds|
  {
    var table := Polled(TableOf(fds), {fds[0]}, eventFd, event);
    OnlyFirst(table, fds[0], eventFd, |table|);
    assert table[..|table|] == table;
  }

  lemma {:induction false} OnlyFirst(table: seq<PollFd>, fd: nat, eventFd: nat, n: nat)
    requires 0 < n <= |table| && table[0] == PollFd(fd, true) && fd != eventFd
    requires forall i :: 0 < i < |table| ==> !IsReady(table[i], eventFd)
    ensures ReadyWatches(table[..n], eventFd) == [RunWatch(fd)]
    decreases n
  {
    ReadyNext(table, eventFd, n - 1);
    if n == 1 {
      NoneReady(table, eventFd);
    } else {
      OnlyFirst(table, fd, eventFd, n - 1);
    }
  }

  /** A round that makes the table anew and finds its first watch ready. */
  method PollFirst(runner: UnixTaskRunner, ghost fds: seq<nat>, fd: nat)
    requires runner.Valid() && runner.s.place.Looping? && !runner.s.ownOwed && !runner.s.quit && runner.s.changed
    requires Sorted(fds) && |fds| >= 2 && fds[0] == fd != runner.eventFd
    requires forall x :: x in fds <==> x in runner.s.watches
    modifies runner
    ensures runner.Valid() && runner.s.place.Popping? && !runner.s.ownOwed && !runner.s.quit && !runner.s.changed
    ensures runner.s.delayed == old(runner.s.delayed) && runner.s.watches.Keys == old(runner.s.watches).Keys
    ensures runner.immediateTasks == old(runner.immediateTasks) + [RunWatch(fd)]
    ensures var table := Polled(TableOf(fds), {fd}, runner.eventFd, old(runner.s.event));
            runner.pollFds == Switched(table, runner.eventFd, |fds|)
  {
    hide Inv, InOrder, ReadyWatches, Switched;
    InOrderIs(runner.s.watches.Keys, fds);
    FirstReady(fds, runner.eventFd, runner.s.event);
    PollOnce(runner, {fd});
  }

  /** Two tasks wait for one watch: the poll table was made anew, for another watch, while the first one waited. */
  method TwoAfterRebuild() returns (runner: UnixTaskRunner)
    ensures runner.Valid() && runner.immediateTasks == [RunWatch(5), RunWatch(5)]
  {
    hide Inv, Switched, Polled, TableOf, UnixTaskRunner.Valid;
    runner := Watching(9, 5);
    PollFirst(runner, [5, 9], 5);
    RunFirst(runner);
    AddWatch(runner, 6);
    PollFirst(runner, [5, 6, 9], 5);
  }

  /** Two tasks wait for descriptor 0, which is not switched off. */
  method TwoForZero() returns (runner: UnixTaskRunner)
    ensures runner.Valid() && runner.immediateTasks == [RunWatch(0), RunWatch(0)]
  {
    hide Inv, Switched, Polled, TableOf, ReadyWatches;
    runner := Watching(9, 0);
    PollFirst(runner, [0, 9], 0);
    ZeroStays();
    RunFirst(runner);
    FirstReady([0, 9], 9, runner.event);
    PollOnce(runner, {0});
  }

  lemma {:induction false} ZeroStays()
    ensures Switched(Polled(TableOf([0, 9]), {0}, 9, true), 9, 2) == TableOf([0, 9])
  {
  }
}
