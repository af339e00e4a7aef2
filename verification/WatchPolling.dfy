/** Which watches are polled: a watch whose task waits is not, unless the poll table was made anew in between or the
    descriptor is 0. */
module WatchPolling {
  import opened Ordering
  import TaskOrder
  import opened TaskRunner
  import opened TaskRunnerSafety

  // ---- The watches switched off ---------------------------------------------------------------------------

  /** The descriptors whose task was posted since the poll table was made, and has not begun. */
  function PostedAfter(s: State, step: Step, eventFd: nat, posted: set<nat>): set<nat>
    requires Enabled(s, step, eventFd)
  {
    match step
    case TakeLock(_) => if s.changed && !s.quit then {} else posted
    case PostNext => posted + Posts(s, eventFd)
    case BeginWatch =>
      var fd := s.place.tasks[0].fd;
      (if s.changed && fd in s.watches then {} else posted) - {fd}
    case _ => posted
  }

  /** The descriptor that a turn of the loop over the poll table posts a task for. */
  function Posts(s: State, eventFd: nat): set<nat>
    requires s.place.Posting?
  {
    var i := s.place.i;
    if i < |s.pollFds| && s.pollFds[i].revents && s.pollFds[i].fd != eventFd then {Abs(s.pollFds[i].fd)} else {}
  }

  function PostedIn(states: seq<State>, steps: seq<Step>, eventFd: nat, k: nat): set<nat>
    requires IsRun(states, steps, eventFd) && k < |states|
    decreases k
  {
    if k == 0 then {}
    else PostedAfter(states[k - 1], steps[k - 1], eventFd, PostedIn(states, steps, eventFd, k - 1))
  }

  /** Exactly the descriptors posted are switched off, but for 0, which is its own negative. */
  predicate SwitchedOff(pollFds: seq<PollFd>, posted: set<nat>) {
    forall k :: 0 <= k < |pollFds| ==> OffOk(pollFds[k].fd, posted)
  }

  predicate OffOk(fd: int, posted: set<nat>) {
    fd < 0 <==> Abs(fd) in posted && fd != 0
  }

  predicate AllWait(posted: set<nat>, immediate: seq<Task>, place: Place) {
    forall fd :: fd in posted ==> TaskWaits(immediate, place, fd)
  }

  /** Only the loop over the poll table makes tasks for watches. */
  predicate PostedOnly(delayed: seq<Delayed>) {
    forall d :: d in delayed ==> d.task.Posted?
  }

  predicate PollingOk(s: State, posted: set<nat>) {
    && (s.changed || SwitchedOff(s.pollFds, posted))
    && AllWait(posted, s.immediate, s.place) && PostedOnly(s.delayed)
  }

  // ---- How many tasks wait for a watch ---------------------------------------------------------------------

  /** How many tasks wait for a watch. */
  function Waiting(immediate: seq<Task>, place: Place, fd: nat): nat {
    multiset(immediate)[RunWatch(fd)] + if place.Running? then multiset(place.tasks)[RunWatch(fd)] else 0
  }

  lemma {:induction false} NoneWaiting(immediate: seq<Task>, place: Place, fd: nat)
    ensures Waiting(immediate, place, fd) == 0 <==> !TaskWaits(immediate, place, fd)
  {
  }

  predicate ChangesWatches(step: Step) {
    && (step.Other? || step.Own?)
    && (step.call.AddFileDescriptorWatch? || step.call.RemoveFileDescriptorWatch?)
  }

  lemma {:induction false} CallWaits(s: State, call: Call, fd: nat)
    requires call.RemoveFileDescriptorWatch? ==> call.fd in s.watches
    ensures var r := Called(s, call);
            r.place == s.place && Waiting(r.immediate, r.place, fd) == Waiting(s.immediate, s.place, fd)
  {
  }

  lemma {:induction false} PopWaits(s: State, now: int, fd: nat)
    requires PostedOnly(s.delayed) && s.place.Popping?
    ensures var r := Popped(s, now); Waiting(r.immediate, r.place, fd) == Waiting(s.immediate, s.place, fd)
  {
    hide PostedOnly;
    var r := Popped(s, now);
    var first := if s.immediate == [] then [] else [s.immediate[0]];
    var due := if s.delayed != [] && now >= s.delayed[0].due then [s.delayed[0].task] else [];
    DueIsPosted(s.delayed);
    PopCounts(s.immediate, first, r.immediate, due, fd);
    assert r.place == Running(first + due);
  }

  lemma {:induction false} PopCounts(all: seq<Task>, first: seq<Task>, rest: seq<Task>, due: seq<Task>, fd: nat)
    requires all == first + rest && (due == [] || (|due| == 1 && due[0].Posted?))
    ensures multiset(rest)[RunWatch(fd)] + multiset(first + due)[RunWatch(fd)] == multiset(all)[RunWatch(fd)]
  {
    CountConcat(first, rest, fd);
    CountConcat(first, due, fd);
    assert due != [] ==> due == [due[0]];
  }

  lemma {:induction false} DueIsPosted(delayed: seq<Delayed>)
    requires PostedOnly(delayed)
    ensures delayed != [] ==> delayed[0].task.Posted?
  {
  }

  lemma {:induction false} CountConcat(a: seq<Task>, b: seq<Task>, fd: nat)
    ensures multiset(a + b)[RunWatch(fd)] == multiset(a)[RunWatch(fd)] + multiset(b)[RunWatch(fd)]
  {
  }

  lemma {:induction false} BeginWaits(s: State, fd: nat)
    requires s.place.Running? && s.place.tasks != [] && s.place.tasks[0].RunWatch?
    ensures var r := Begun(s);
            Waiting(r.immediate, r.place, fd)
            == Waiting(s.immediate, s.place, fd) - if s.place.tasks[0].fd == fd then 1 else 0
  {
    hide Updated;
    UpdatedKeeps(s);
    var tasks := s.place.tasks;
    assert tasks == [tasks[0]] + tasks[1..];
    CountConcat([tasks[0]], tasks[1..], fd);
    if tasks[0].fd in s.watches {
      var first := Begun(s).place.tasks[0];
      assert Begun(s).place.tasks == [first] + tasks[1..];
      CountConcat([first], tasks[1..], fd);
    }
  }

  lemma {:induction false} DoneWaits(s: State, eventFd: nat, fd: nat)
    requires Enabled(s, TaskDone, eventFd)
    ensures var r := Apply(s, TaskDone, eventFd);
            Waiting(r.immediate, r.place, fd) == Waiting(s.immediate, s.place, fd)
  {
    if s.place.tasks != [] {
      assert s.place.tasks == [s.place.tasks[0]] + s.place.tasks[1..];
    }
  }

  lemma {:induction false} PostWaits(s: State, eventFd: nat, fd: nat)
    requires s.place.Posting?
    ensures var r := PostedNext(s, eventFd);
            Waiting(r.immediate, r.place, fd)
            == Waiting(s.immediate, s.place, fd) + if fd in Posts(s, eventFd) then 1 else 0
  {
    var i := s.place.i;
    if i < |s.pollFds| && s.pollFds[i].revents && s.pollFds[i].fd != eventFd {
      CountConcat(s.immediate, [RunWatch(Abs(s.pollFds[i].fd))], fd);
    }
  }

  /** How a step changes the number of tasks that wait for a watch. */
  lemma {:induction false} StepWaiting(s: State, step: Step, eventFd: nat, fd: nat)
    requires Enabled(s, step, eventFd) && PostedOnly(s.delayed)
    ensures var r := Apply(s, step, eventFd);
            Waiting(r.immediate, r.place, fd) == Waiting(s.immediate, s.place, fd)
              + (if step.PostNext? && fd in Posts(s, eventFd) then 1 else 0)
              - (if step.BeginWatch? && s.place.tasks[0].fd == fd then 1 else 0)
  {
    hide Updated, Called, Begun, PostedNext, Popped;
    UpdatedKeeps(s);
    match step {
      case Other(call) => CallWaits(s, call, fd);
      case Own(call) => CallWaits(s, call, fd);
      case PostNext => PostWaits(s, eventFd, fd);
      case Pop(now) => PopWaits(s, now, fd);
      case BeginWatch => BeginWaits(s, fd);
      case TaskDone => DoneWaits(s, eventFd, fd);
      case _ =>
    }
  }

  // ---- Steps ----------------------------------------------------------------------------------------------

  lemma {:induction false} PostNextOff(s: State, eventFd: nat, posted: set<nat>)
    requires Inv(s, eventFd) && Enabled(s, PostNext, eventFd) && !s.changed && SwitchedOff(s.pollFds, posted)
    ensures SwitchedOff(Apply(s, PostNext, eventFd).pollFds, posted + Posts(s, eventFd))
  {
    hide NoLostWakeUp, NoneStuck, CallbacksOk, DelayedOk;
    var r, i := Apply(s, PostNext, eventFd), s.place.i;
    if i < |s.pollFds| && s.pollFds[i].revents {
      assert EventOn(s.pollFds[i], eventFd) && Owned(s.watches, s.pollFds, i);
      forall k | 0 <= k < |r.pollFds|
        ensures OffOk(r.pollFds[k].fd, posted + Posts(s, eventFd))
      {
        assert OffOk(s.pollFds[k].fd, posted) && Owned(s.watches, s.pollFds, k);
      }
    }
  }

  lemma {:induction false} BeginWatchOff(s: State, eventFd: nat, posted: set<nat>)
    requires Inv(s, eventFd) && Enabled(s, BeginWatch, eventFd) && !s.changed && SwitchedOff(s.pollFds, posted)
    ensures SwitchedOff(Apply(s, BeginWatch, eventFd).pollFds, posted - {s.place.tasks[0].fd})
  {
    hide NoLostWakeUp, NoneStuck, CallbacksOk, DelayedOk;
    var r, fd := Apply(s, BeginWatch, eventFd), s.place.tasks[0].fd;
    if fd in s.watches {
      BeginWatchFinds(s, eventFd);
    }
    forall k | 0 <= k < |r.pollFds|
      ensures OffOk(r.pollFds[k].fd, posted - {fd})
    {
      assert OffOk(s.pollFds[k].fd, posted) && Owned(s.watches, s.pollFds, k);
    }
  }

  lemma {:induction false} RebuiltOff(fds: seq<nat>)
    ensures SwitchedOff(TableOf(fds), {})
  {
  }

  /** The table that a watch's task makes anew has no watch switched off. */
  lemma {:induction false} BeginRebuiltOff(s: State, eventFd: nat)
    requires Inv(s, eventFd) && Enabled(s, BeginWatch, eventFd) && s.changed && s.place.tasks[0].fd in s.watches
    ensures SwitchedOff(Apply(s, BeginWatch, eventFd).pollFds, {})
  {
    hide InOrder, NoLostWakeUp;
    RebuiltOff(InOrder(s.watches.Keys));
    BeginWatchFinds(s, eventFd);
  }

  lemma {:induction false} StepOff(s: State, step: Step, eventFd: nat, posted: set<nat>)
    requires Inv(s, eventFd) && Enabled(s, step, eventFd) && (s.changed || SwitchedOff(s.pollFds, posted))
    ensures var r := Apply(s, step, eventFd);
            r.changed || SwitchedOff(r.pollFds, PostedAfter(s, step, eventFd, posted))
  {
    hide Inv, SwitchedOff, InOrder, Called, Begun, PostedNext, Popped, TimeoutFor, Polled;
    match step {
      case Other(call) => CalledTable(s, call);
      case Own(call) => CalledTable(s, call);
      case TakeLock(_) => RebuiltOff(InOrder(s.watches.Keys));
      case PollReturns(ready) =>
        if !s.changed {
          PolledOff(s.pollFds, ready, eventFd, s.event, posted);
        }
      case PostNext =>
        PostedNextChanged(s, eventFd);
        if !s.changed {
          PostNextOff(s, eventFd, posted);
        }
      case Pop(now) => PoppedTable(s, now);
      case BeginWatch =>
        BegunChanged(s);
        if !s.changed {
          BeginWatchOff(s, eventFd, posted);
        } else if s.place.tasks[0].fd in s.watches {
          BeginRebuiltOff(s, eventFd);
          assert {} - {s.place.tasks[0].fd} == {};
        }
      case _ =>
    }
  }

  lemma {:induction false} CalledTable(s: State, call: Call)
    requires call.RemoveFileDescriptorWatch? ==> call.fd in s.watches
    ensures Called(s, call).pollFds == s.pollFds && (s.changed ==> Called(s, call).changed)
  {
  }

  lemma {:induction false} BegunChanged(s: State)
    requires s.place.Running? && s.place.tasks != [] && s.place.tasks[0].RunWatch?
    ensures Begun(s).changed == (s.changed && s.place.tasks[0].fd !in s.watches)
  {
    hide InOrder;
  }

  lemma {:induction false} PostedNextChanged(s: State, eventFd: nat)
    requires s.place.Posting?
    ensures PostedNext(s, eventFd).changed == s.changed
  {
  }

  lemma {:induction false} PoppedTable(s: State, now: int)
    ensures Popped(s, now).pollFds == s.pollFds && Popped(s, now).changed == s.changed
  {
  }

  lemma {:induction false} PolledOff(pollFds: seq<PollFd>, ready: set<int>, eventFd: nat, event: bool, posted: set<nat>)
    requires SwitchedOff(pollFds, posted)
    ensures SwitchedOff(Polled(pollFds, ready, eventFd, event), posted)
  {
  }

  lemma {:induction false} StepWaits(s: State, step: Step, eventFd: nat, posted: set<nat>)
    requires Enabled(s, step, eventFd) && AllWait(posted, s.immediate, s.place) && PostedOnly(s.delayed)
    ensures var r := Apply(s, step, eventFd);
            AllWait(PostedAfter(s, step, eventFd, posted), r.immediate, r.place)
  {
    hide Apply, TaskWaits, Waiting, PostedOnly;
    var r := Apply(s, step, eventFd);
    forall fd | fd in PostedAfter(s, step, eventFd, posted)
      ensures TaskWaits(r.immediate, r.place, fd)
    {
      StepWaiting(s, step, eventFd, fd);
      NoneWaiting(s.immediate, s.place, fd);
      NoneWaiting(r.immediate, r.place, fd);
    }
  }

  lemma {:induction false} StepPostedOnly(s: State, step: Step, eventFd: nat)
    requires Inv(s, eventFd) && Enabled(s, step, eventFd) && PostedOnly(s.delayed)
    ensures PostedOnly(Apply(s, step, eventFd).delayed)
  {
    hide Updated, Called, Begun, PostedNext, NoLostWakeUp, NoneStuck, Corresponds, CallbacksOk, EventOk;
    match step {
      case Other(call) => CalledPostedOnly(s, call);
      case Own(call) => CalledPostedOnly(s, call);
      case Pop(_) =>
      case _ => TaskOrder.SameQueues(s, step, eventFd);
    }
  }

  lemma {:induction false} CalledPostedOnly(s: State, call: Call)
    requires DelayedOk(s.delayed) && PostedOnly(s.delayed) && (call.RemoveFileDescriptorWatch? ==> call.fd in s.watches)
    ensures PostedOnly(Called(s, call).delayed)
  {
    if call.PostDelayedTask? {
      InsertedOk(s.delayed, Delayed(call.due, Posted(call.task)));
    }
  }

  /** In every state of every run, while no watch has changed, a watch is switched off if and only if its task was
      posted since the poll table was made and has not begun, and its descriptor is not 0; such a task waits. */
  lemma {:induction false} RunSwitchedOff(states: seq<State>, steps: seq<Step>, eventFd: nat, k: nat)
    requires IsRun(states, steps, eventFd) && k < |states|
    ensures PollingOk(states[k], PostedIn(states, steps, eventFd, k))
    decreases k
  {
    hide Apply, Enabled, Inv, SwitchedOff, AllWait, PostedOnly, PostedAfter;
    if k == 0 {
      NothingPosted(eventFd);
    } else {
      var s, step, posted := states[k - 1], steps[k - 1], PostedIn(states, steps, eventFd, k - 1);
      RunSwitchedOff(states, steps, eventFd, k - 1);
      RunOk(states, steps, eventFd, k - 1);
      StepOff(s, step, eventFd, posted);
      StepWaits(s, step, eventFd, posted);
      StepPostedOnly(s, step, eventFd);
    }
  }

  lemma {:induction false} NothingPosted(eventFd: nat)
    ensures PollingOk(Initial(eventFd), {})
  {
  }

  lemma {:induction false} StaysUnchanged(s: State, step: Step, eventFd: nat)
    requires Enabled(s, step, eventFd) && !s.changed && !ChangesWatches(step)
    ensures !Apply(s, step, eventFd).changed
  {
  }

  /** No task is posted for a watch that is switched off. */
  lemma {:induction false} PostsPolled(s: State, eventFd: nat, posted: set<nat>, fd: nat)
    requires Inv(s, eventFd) && s.place.Posting? && SwitchedOff(s.pollFds, posted) && fd in Posts(s, eventFd) && fd != 0
    ensures fd !in posted
  {
    assert EventOn(s.pollFds[s.place.i], eventFd) && OffOk(s.pollFds[s.place.i].fd, posted);
  }

  /** As long as no watch is added or removed, at most one task waits for each watch, but for descriptor 0. */
  lemma {:induction false} OneTaskWaits(states: seq<State>, steps: seq<Step>, eventFd: nat, i: nat, k: nat, fd: nat)
    requires IsRun(states, steps, eventFd) && i <= k < |states| && fd != 0
    requires !states[i].changed && Waiting(states[i].immediate, states[i].place, fd) == 0
    requires forall j :: i <= j < k ==> !ChangesWatches(steps[j])
    ensures !states[k].changed
    ensures Waiting(states[k].immediate, states[k].place, fd)
         <= if fd in PostedIn(states, steps, eventFd, k) then 1 else 0
    decreases k
  {
    hide Apply, Enabled, Inv, SwitchedOff, AllWait, PostedOnly, ChangesWatches;
    if i < k {
      var s, step, posted := states[k - 1], steps[k - 1], PostedIn(states, steps, eventFd, k - 1);
      OneTaskWaits(states, steps, eventFd, i, k - 1, fd);
      RunSwitchedOff(states, steps, eventFd, k - 1);
      RunOk(states, steps, eventFd, k - 1);
      StaysUnchanged(s, step, eventFd);
      StepWaiting(s, step, eventFd, fd);
      if step.PostNext? {
        InPosting(s, eventFd);
        if fd in Posts(s, eventFd) {
          PostsPolled(s, eventFd, posted, fd);
        }
      }
    }
  }

  lemma {:induction false} InPosting(s: State, eventFd: nat)
    requires Enabled(s, PostNext, eventFd)
    ensures s.place.Posting?
  {
  }
}
