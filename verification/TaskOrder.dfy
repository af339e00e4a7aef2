/** Every task posted is run once: immediate tasks in the order of posting, delayed ones when they are due, the
    earliest first and those of one time in the order of posting. What is run is said by the tasks that the running
    thread has in hand, not by what leaves the queues. */
module TaskOrder {
  import opened Ordering
  import opened TaskRunner
  import opened TaskRunnerSafety

  // ---- What is posted and what is begun -------------------------------------------------------------------

  /** The immediate tasks that a step posts. */
  function Entered(s: State, step: Step, eventFd: nat): seq<Task> {
    match step
    case Other(PostTask(t)) => [Posted(t)]
    case Own(PostTask(t)) => [Posted(t)]
    case PostNext =>
      if s.place.Posting? && s.place.i < |s.pollFds| && s.pollFds[s.place.i].revents
          && s.pollFds[s.place.i].fd != eventFd
      then [RunWatch(Abs(s.pollFds[s.place.i].fd))] else []
    case _ => []
  }

  /** The delayed tasks that a step posts for a time. */
  function EnteredFor(step: Step, due: int): seq<Task> {
    match step
    case Other(PostDelayedTask(t, d)) => if d == due then [Posted(t)] else []
    case Own(PostDelayedTask(t, d)) => if d == due then [Posted(t)] else []
    case _ => []
  }

  /** The tasks that the running thread takes in hand with a step. */
  function Started(s': State, step: Step): seq<Task> {
    if step.Pop? && s'.place.Running? then s'.place.tasks else []
  }

  /** The first of them is an immediate one if any was waiting, and the others are delayed ones. */
  function StartedNow(s: State, s': State, step: Step): seq<Task> {
    if s.immediate == [] || Started(s', step) == [] then [] else Started(s', step)[..1]
  }

  function StartedLate(s: State, s': State, step: Step): seq<Task> {
    Started(s', step)[|StartedNow(s, s', step)|..]
  }

  function StartedFor(s: State, s': State, step: Step, due: int): seq<Task> {
    if s.delayed != [] && s.delayed[0].due == due then StartedLate(s, s', step) else []
  }

  /** The tasks that wait for a time. */
  function WaitingFor(delayed: seq<Delayed>, due: int): seq<Task> {
    if delayed == [] then []
    else (if delayed[0].due == due then [delayed[0].task] else []) + WaitingFor(delayed[1..], due)
  }

  // ---- Steps ----------------------------------------------------------------------------------------------

  /** Steps that neither call nor take tasks leave the queues alone, but for the tasks of watches. */
  lemma {:induction false} SameQueues(s: State, step: Step, eventFd: nat)
    requires Enabled(s, step, eventFd) && !step.Other? && !step.Own? && !step.Pop?
    ensures Apply(s, step, eventFd).delayed == s.delayed
    ensures !step.PostNext? ==> Apply(s, step, eventFd).immediate == s.immediate
  {
    hide Updated, Polled, TimeoutFor;
    UpdatedKeeps(s);
    match step
    case TakeLock(_) =>
    case BeginWatch =>
    case PostNext =>
    case _ =>
  }

  lemma {:induction false} QueueStep(s: State, step: Step, eventFd: nat)
    requires Enabled(s, step, eventFd)
    ensures var s' := Apply(s, step, eventFd);
            s.immediate + Entered(s, step, eventFd) == StartedNow(s, s', step) + s'.immediate
  {
    hide Inserted, Updated, Polled, TimeoutFor, Begun;
    match step
    case Other(call) => match call { case PostTask(t) => case _ => }
    case Own(call) => match call { case PostTask(t) => case _ => }
    case PostNext =>
    case Pop(now) =>
    case _ => SameQueues(s, step, eventFd);
  }

  lemma {:induction false} NoneWaits(delayed: seq<Delayed>, due: int)
    requires forall i :: 0 <= i < |delayed| ==> delayed[i].due != due
    ensures WaitingFor(delayed, due) == []
  {
    if delayed != [] {
      NoneWaits(delayed[1..], due);
    }
  }

  /** A delayed task comes after those of the same time. */
  lemma {:induction false} InsertedLast(delayed: seq<Delayed>, d: Delayed, due: int)
    requires DelayedOk(delayed)
    ensures WaitingFor(Inserted(delayed, d), due)
            == WaitingFor(delayed, due) + (if d.due == due then [d.task] else [])
  {
    if delayed == [] || d.due < delayed[0].due {
      assert ([d] + delayed)[1..] == delayed;
      if d.due == due {
        NoneWaits(delayed, due);
      }
    } else {
      var rest := Inserted(delayed[1..], d);
      InsertedLast(delayed[1..], d, due);
      assert ([delayed[0]] + rest)[1..] == rest;
      var more := if d.due == due then [d.task] else [];
      var first := if delayed[0].due == due then [delayed[0].task] else [];
      assert first + (WaitingFor(delayed[1..], due) + more) == first + WaitingFor(delayed[1..], due) + more;
    }
  }

  lemma {:induction false} CalledDelayed(s: State, call: Call, due: int)
    requires (call.RemoveFileDescriptorWatch? ==> call.fd in s.watches) && DelayedOk(s.delayed)
    ensures WaitingFor(Called(s, call).delayed, due) == WaitingFor(s.delayed, due) + EnteredFor(Other(call), due)
    ensures EnteredFor(Own(call), due) == EnteredFor(Other(call), due)
  {
    hide Inserted;
    if call.PostDelayedTask? {
      InsertedLast(s.delayed, Delayed(call.due, Posted(call.task)), due);
    }
  }

  lemma {:induction false} DelayedStep(s: State, step: Step, eventFd: nat, due: int)
    requires Enabled(s, step, eventFd) && DelayedOk(s.delayed)
    ensures var s' := Apply(s, step, eventFd);
            WaitingFor(s.delayed, due) + EnteredFor(step, due)
            == StartedFor(s, s', step, due) + WaitingFor(s'.delayed, due)
  {
    hide Called, Updated, Polled, TimeoutFor, Begun, PostedNext;
    match step
    case Other(call) => CalledDelayed(s, call, due);
    case Own(call) => CalledDelayed(s, call, due);
    case Pop(now) => PopDelayed(s, now, eventFd, due);
    case _ => SameQueues(s, step, eventFd);
  }

  lemma {:induction false} PopDelayed(s: State, now: int, eventFd: nat, due: int)
    requires Enabled(s, Pop(now), eventFd)
    ensures var s' := Apply(s, Pop(now), eventFd);
            && WaitingFor(s.delayed, due) == StartedFor(s, s', Pop(now), due) + WaitingFor(s'.delayed, due)
            && StartedLate(s, s', Pop(now))
               == if s.delayed != [] && s.delayed[0].due <= now then [s.delayed[0].task] else []
  {
  }

  // ---- Whole runs -----------------------------------------------------------------------------------------

  function AllEntered(states: seq<State>, steps: seq<Step>, eventFd: nat, k: nat): seq<Task>
    requires k <= |steps| <= |states|
  {
    if k == 0 then [] else AllEntered(states, steps, eventFd, k - 1) + Entered(states[k - 1], steps[k - 1], eventFd)
  }

  function AllStartedNow(states: seq<State>, steps: seq<Step>, k: nat): seq<Task>
    requires k <= |steps| < |states|
  {
    if k == 0 then []
    else AllStartedNow(states, steps, k - 1) + StartedNow(states[k - 1], states[k], steps[k - 1])
  }

  function AllEnteredFor(steps: seq<Step>, due: int, k: nat): seq<Task>
    requires k <= |steps|
  {
    if k == 0 then [] else AllEnteredFor(steps, due, k - 1) + EnteredFor(steps[k - 1], due)
  }

  function AllStartedFor(states: seq<State>, steps: seq<Step>, due: int, k: nat): seq<Task>
    requires k <= |steps| < |states|
  {
    if k == 0 then []
    else AllStartedFor(states, steps, due, k - 1) + StartedFor(states[k - 1], states[k], steps[k - 1], due)
  }

  lemma {:induction false} Regroup(a: seq<Task>, b: seq<Task>, c: seq<Task>)
    ensures a + b + c == a + (b + c)
  {
  }

  /** At any time in any run, the immediate tasks posted are those begun, in that order, and then those waiting. */
  lemma {:induction false} FirstInFirstOut(states: seq<State>, steps: seq<Step>, eventFd: nat, k: nat)
    requires IsRun(states, steps, eventFd) && k <= |steps|
    ensures AllEntered(states, steps, eventFd, k) == AllStartedNow(states, steps, k) + states[k].immediate
    decreases k
  {
    hide Apply, Enabled, Entered, StartedNow;
    if k > 0 {
      FirstInFirstOut(states, steps, eventFd, k - 1);
      var s, step := states[k - 1], steps[k - 1];
      QueueStep(s, step, eventFd);
      var begun := AllStartedNow(states, steps, k - 1);
      Regroup(begun, s.immediate, Entered(s, step, eventFd));
      Regroup(begun, StartedNow(s, states[k], step), states[k].immediate);
    }
  }

  /** The delayed tasks posted for a time are those begun, in that order, and then those waiting. */
  lemma {:induction false} NoneLost(states: seq<State>, steps: seq<Step>, eventFd: nat, k: nat, due: int)
    requires IsRun(states, steps, eventFd) && k <= |steps|
    ensures AllEnteredFor(steps, due, k) == AllStartedFor(states, steps, due, k) + WaitingFor(states[k].delayed, due)
    decreases k
  {
    hide Apply, Enabled, EnteredFor, StartedFor, NoLostWakeUp, WaitingFor, Corresponds, CallbacksOk;
    if k > 0 {
      NoneLost(states, steps, eventFd, k - 1, due);
      var s, step := states[k - 1], steps[k - 1];
      RunOk(states, steps, eventFd, k - 1);
      DelayedStep(s, step, eventFd, due);
      var begun := AllStartedFor(states, steps, due, k - 1);
      Regroup(begun, WaitingFor(s.delayed, due), EnteredFor(step, due));
      Regroup(begun, StartedFor(s, states[k], step, due), WaitingFor(states[k].delayed, due));
    } else {
      NoneWaits([], due);
    }
  }

  /** A delayed task is begun only when it is due, and none that waits was due before it; and whenever one is due,
      one is begun. */
  lemma {:induction false} EarliestFirst(states: seq<State>, steps: seq<Step>, eventFd: nat, k: nat)
    requires IsRun(states, steps, eventFd) && k < |steps| && steps[k].Pop?
    ensures var s, late := states[k], StartedLate(states[k], states[k + 1], steps[k]);
            && (late != [] <==> exists d :: d in s.delayed && d.due <= steps[k].now)
            && (late != [] ==> s.delayed != [] && late == [s.delayed[0].task] && s.delayed[0].due <= steps[k].now)
            && (late != [] ==> forall d :: d in s.delayed ==> s.delayed[0].due <= d.due)
  {
    hide NoLostWakeUp;
    RunOk(states, steps, eventFd, k);
    PopDelayed(states[k], steps[k].now, eventFd, 0);
    if StartedLate(states[k], states[k + 1], steps[k]) != [] {
      assert states[k].delayed[0] in states[k].delayed;
    }
  }

  // ---- To the end -----------------------------------------------------------------------------------------

  /** The tasks that the running thread has in hand. */
  function InHand(s: State): seq<Task> {
    if s.place.Running? then s.place.tasks else []
  }

  /** The task that a step is the end of; a watch's task ends when its callback takes over. */
  function Over(s: State, step: Step): seq<Task> {
    if (step.TaskDone? || step.BeginWatch?) && InHand(s) != [] then InHand(s)[..1] else []
  }

  /** The tasks among these that were posted, which callbacks are not. */
  function Ours(tasks: seq<Task>): seq<Task> {
    if tasks == [] then [] else (if tasks[0].Callback? then [] else [tasks[0]]) + Ours(tasks[1..])
  }

  lemma {:induction false} OursConcat(a: seq<Task>, b: seq<Task>)
    ensures Ours(a + b) == Ours(a) + Ours(b)
    decreases |a|
  {
    if a == [] {
      assert a + b == b;
    } else {
      OursConcat(a[1..], b);
      assert (a + b)[1..] == a[1..] + b;
    }
  }

  lemma {:induction false} HandStep(s: State, step: Step, eventFd: nat)
    requires Enabled(s, step, eventFd)
    ensures var s' := Apply(s, step, eventFd);
            Ours(InHand(s)) + Ours(Started(s', step)) == Ours(Over(s, step)) + Ours(InHand(s'))
  {
    hide Updated, Polled, TimeoutFor, Called, Ours;
    var s', tasks := Apply(s, step, eventFd), InHand(s);
    OursNone();
    UpdatedKeeps(s);
    match step
    case Pop(_) => PopFrom(s, step, eventFd);
    case TaskDone =>
      if tasks != [] {
        assert tasks == tasks[..1] + tasks[1..];
        OursConcat(tasks[..1], tasks[1..]);
      }
    case BeginWatch =>
      assert tasks == tasks[..1] + tasks[1..];
      OursConcat(tasks[..1], tasks[1..]);
      if tasks[0].fd in s.watches {
        OursCallback(s'.place.tasks[0].callback, tasks[1..]);
      }
    case Other(call) => SamePlace(s, call);
    case Own(call) => SamePlace(s, call);
    case _ =>
  }

  lemma {:induction false} PopFrom(s: State, step: Step, eventFd: nat)
    requires Enabled(s, step, eventFd) && step.Pop?
    ensures InHand(s) == [] && Started(Apply(s, step, eventFd), step) == InHand(Apply(s, step, eventFd))
  {
  }

  lemma {:induction false} OursNone()
    ensures Ours([]) == []
  {
  }

  lemma {:induction false} OursCallback(callback: nat, tasks: seq<Task>)
    ensures Ours([Callback(callback)] + tasks) == Ours(tasks)
  {
  }

  lemma {:induction false} SamePlace(s: State, call: Call)
    requires call.RemoveFileDescriptorWatch? ==> call.fd in s.watches
    ensures Called(s, call).place == s.place
  {
    hide Inserted;
  }

  function AllStarted(states: seq<State>, steps: seq<Step>, k: nat): seq<Task>
    requires k <= |steps| < |states|
  {
    if k == 0 then [] else AllStarted(states, steps, k - 1) + Ours(Started(states[k], steps[k - 1]))
  }

  function AllOver(states: seq<State>, steps: seq<Step>, k: nat): seq<Task>
    requires k <= |steps| <= |states|
  {
    if k == 0 then [] else AllOver(states, steps, k - 1) + Ours(Over(states[k - 1], steps[k - 1]))
  }

  /** In every run, each task begun is run to its end once, in the order in which they were begun, and what is not
      over is still in hand. */
  lemma {:induction false} EachRunsOnce(states: seq<State>, steps: seq<Step>, eventFd: nat, k: nat)
    requires IsRun(states, steps, eventFd) && k <= |steps|
    ensures AllStarted(states, steps, k) == AllOver(states, steps, k) + Ours(InHand(states[k]))
    decreases k
  {
    hide Apply, Enabled, Started, Over, InHand, Ours;
    if k > 0 {
      EachRunsOnce(states, steps, eventFd, k - 1);
      var s, step := states[k - 1], steps[k - 1];
      HandStep(s, step, eventFd);
      var over := AllOver(states, steps, k - 1);
      Regroup(over, Ours(InHand(s)), Ours(Started(states[k], step)));
      Regroup(over, Ours(Over(s, step)), Ours(InHand(states[k])));
    } else {
      NothingInHand(eventFd);
    }
  }

  lemma {:induction false} NothingInHand(eventFd: nat)
    ensures Ours(InHand(Initial(eventFd))) == []
  {
  }

  // ---- Watches --------------------------------------------------------------------------------------------

  predicate Calls(step: Step, call: Call) {
    step == Other(call) || step == Own(call)
  }

  /** A watch has the callback that it was given when it was last added. */
  ghost predicate AddedAt(states: seq<State>, steps: seq<Step>, k: nat, fd: nat, j: nat)
    requires k < |states| && |states| == |steps| + 1
  {
    && j < k && Calls(steps[j], AddFileDescriptorWatch(fd)) && fd in states[k].watches
    && states[k].watches[fd].callback == states[j].callbacks
    && forall m :: j < m < k ==> !Calls(steps[m], RemoveFileDescriptorWatch(fd))
  }

  lemma {:induction false} CalledWatch(s: State, call: Call, fd: nat)
    requires (call.RemoveFileDescriptorWatch? ==> call.fd in s.watches) && fd in Called(s, call).watches
    ensures if call == AddFileDescriptorWatch(fd) then Called(s, call).watches[fd].callback == s.callbacks
            else && fd in s.watches && Called(s, call).watches[fd] == s.watches[fd]
                 && call != RemoveFileDescriptorWatch(fd)
  {
    hide Inserted;
  }

  lemma {:induction false} WatchStep(s: State, step: Step, eventFd: nat, fd: nat)
    requires Enabled(s, step, eventFd) && TablesOk(s, eventFd) && fd in Apply(s, step, eventFd).watches
    ensures var s' := Apply(s, step, eventFd);
            if Calls(step, AddFileDescriptorWatch(fd)) then s'.watches[fd].callback == s.callbacks
            else && fd in s.watches && s'.watches[fd].callback == s.watches[fd].callback
                 && !Calls(step, RemoveFileDescriptorWatch(fd))
  {
    hide Updated, TablesOk, Polled, TimeoutFor, Called, NoneStuck;
    UpdatedOk(s, eventFd);
    match step
    case Other(call) => CalledWatch(s, call, fd);
    case Own(call) => CalledWatch(s, call, fd);
    case TakeLock(_) =>
    case BeginWatch =>
    case PostNext =>
    case _ =>
  }

  /** In every run, the callback of a watch is the one that its descriptor was last added with. */
  lemma {:induction false} WatchHasItsCallback(states: seq<State>, steps: seq<Step>, eventFd: nat, k: nat, fd: nat)
    returns (j: nat)
    requires IsRun(states, steps, eventFd) && k < |states| && fd in states[k].watches && fd != eventFd
    ensures AddedAt(states, steps, k, fd, j)
    decreases k
  {
    hide Apply, Enabled, Calls, NoLostWakeUp, TablesOk, NoneStuck;
    RunOk(states, steps, eventFd, k - 1);
    WatchStep(states[k - 1], steps[k - 1], eventFd, fd);
    if Calls(steps[k - 1], AddFileDescriptorWatch(fd)) {
      j := k - 1;
    } else {
      j := WatchHasItsCallback(states, steps, eventFd, k - 1, fd);
    }
  }

  /** A watch's task hands over to that callback, if the watch is still there, and to nothing otherwise. */
  lemma {:induction false} WatchRunsItsCallback(s: State, eventFd: nat)
    requires Enabled(s, BeginWatch, eventFd)
    ensures var fd, rest := s.place.tasks[0].fd, s.place.tasks[1..];
            Apply(s, BeginWatch, eventFd).place
            == Running(if fd in s.watches then [Callback(s.watches[fd].callback)] + rest else rest)
  {
    hide InOrder;
  }
}
