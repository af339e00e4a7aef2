/** The task runner's own code: what each thread does while it holds the lock. */
module UnixTaskRunner {
  import opened Powers
  import opened Options
  import opened Ordering
  import opened TaskRunner
  import opened TaskRunnerSafety
  import opened TaskOrder

  // ---- What the loop over the poll table does ----------------------------------------------------------------

  function WatchesIn(tasks: seq<Task>): seq<Task> {
    if tasks == [] then []
    else WatchesIn(tasks[..|tasks| - 1]) + if tasks[|tasks| - 1].RunWatch? then [tasks[|tasks| - 1]] else []
  }

  predicate IsReady(p: PollFd, eventFd: nat) {
    p.revents && p.fd != eventFd
  }

  /** The task for an entry of the poll table, if it is ready and is not the event. */
  function ReadyWatch(p: PollFd, eventFd: nat): seq<Task> {
    if IsReady(p, eventFd) then [RunWatch(Abs(p.fd))] else []
  }

  function ReadyWatches(pollFds: seq<PollFd>, eventFd: nat): seq<Task> {
    if pollFds == [] then []
    else ReadyWatches(pollFds[..|pollFds| - 1], eventFd) + ReadyWatch(pollFds[|pollFds| - 1], eventFd)
  }

  function SwitchedOne(p: PollFd, eventFd: nat): PollFd {
    if p.revents then PollFd(if p.fd == eventFd then p.fd else -p.fd, false) else p
  }

  function Switched(pollFds: seq<PollFd>, eventFd: nat, n: nat): (r: seq<PollFd>)
    ensures |r| == |pollFds|
  {
    seq(|pollFds|, i requires 0 <= i < |pollFds| => if i < n then SwitchedOne(pollFds[i], eventFd) else pollFds[i])
  }

  lemma {:induction false} SwitchedNone(pollFds: seq<PollFd>, eventFd: nat)
    ensures Switched(pollFds, eventFd, 0) == pollFds
  {
  }

  lemma {:induction false} NoneReady(pollFds: seq<PollFd>, eventFd: nat)
    ensures ReadyWatches(pollFds[..0], eventFd) == []
  {
  }

  lemma {:induction false} SwitchedNext(pollFds: seq<PollFd>, eventFd: nat, i: nat)
    requires i < |pollFds|
    ensures var now := Switched(pollFds, eventFd, i);
            now[i] == pollFds[i] && Switched(pollFds, eventFd, i + 1) == now[i := SwitchedOne(now[i], eventFd)]
  {
  }

  /** What is ready is switched off, but for descriptor 0, which is its own negative. */
  lemma {:induction false} SwitchedOff(s: State, eventFd: nat)
    requires Inv(s, eventFd)
    ensures var now := Switched(s.pollFds, eventFd, |s.pollFds|);
            forall k :: 0 <= k < |s.pollFds| ==>
              if IsReady(s.pollFds[k], eventFd) then now[k].fd < 0 <==> s.pollFds[k].fd != 0
              else now[k].fd == s.pollFds[k].fd
  {
    forall k | 0 <= k < |s.pollFds|
      ensures s.pollFds[k].revents ==> s.pollFds[k].fd >= 0
    {
      PolledPositive(s, k, eventFd);
    }
  }

  lemma {:induction false} ReadyNext(pollFds: seq<PollFd>, eventFd: nat, i: nat)
    requires i < |pollFds|
    ensures ReadyWatches(pollFds[..i + 1], eventFd) == ReadyWatches(pollFds[..i], eventFd)
            + ReadyWatch(pollFds[i], eventFd)
  {
    assert pollFds[..i + 1][..i] == pollFds[..i];
  }

  lemma {:induction false} PostedWatch(before: seq<Task>, after: seq<Task>, table: seq<PollFd>, i: nat, eventFd: nat)
    requires i < |table| && after == before + ReadyWatch(table[i], eventFd)
    ensures WatchesIn(after) == WatchesIn(before) + ReadyWatch(table[i], eventFd)
  {
    if ReadyWatch(table[i], eventFd) == [] {
      assert after == before;
    } else {
      assert after[..|after| - 1] == before;
    }
  }

  lemma {:induction false} PostedKeeps(tasks: seq<Task>, task: nat)
    ensures WatchesIn(tasks + [Posted(task)]) == WatchesIn(tasks)
  {
    assert (tasks + [Posted(task)])[..|tasks|] == tasks;
  }

  /** What only calls change is as it was. */
  predicate SameCalls(s: State, s': State) {
    && s'.watches == s.watches && s'.changed == s.changed && s'.quit == s.quit && s'.delayed == s.delayed
    && s'.callbacks == s.callbacks
  }

  /** What another thread's call leaves alone, and whether it owes a notification. */
  lemma {:induction false} OtherKeeps(s: State, call: Call, eventFd: nat)
    requires Allowed(s, call, eventFd)
    ensures var s' := Apply(s, Other(call), eventFd);
            && s'.place == s.place && s'.ownOwed == s.ownOwed && s'.pollFds == s.pollFds
            && s'.immediate == (if call.PostTask? then s.immediate + [Posted(call.task)] else s.immediate)
            && (Owes(s, call) ==> s'.owed > 0)
  {
  }

  class UnixTaskRunner {
    const eventFd: nat
    var immediateTasks: seq<Task>
    var delayedTasks: seq<Delayed>
    var quit: bool
    var watchTasks: map<nat, Watch>
    var watchTasksChanged: bool
    var pollFds: seq<PollFd>
    var event: bool
    var callbacks: nat
    /** The state of the protocol. */
    ghost var s: State

    ghost predicate Valid()
      reads this
    {
      && Inv(s, eventFd)
      && s.immediate == immediateTasks && s.delayed == delayedTasks && s.quit == quit
      && s.watches == watchTasks && s.changed == watchTasksChanged && s.pollFds == pollFds
      && s.event == event && s.callbacks == callbacks
    }

    constructor (eventFd: nat)
      ensures Valid() && this.eventFd == eventFd && s == Initial(eventFd)
    {
      this.eventFd := eventFd;
      immediateTasks, delayedTasks, quit := [], [], false;
      watchTasks, watchTasksChanged := map[eventFd := Watch(0, None)], true;
      pollFds, event, callbacks := [], true, 1;
      s := Initial(eventFd);
      new;
      RunOk([s], [], eventFd, 0);
    }

    // ---- Any thread ---------------------------------------------------------------------------------------

    /** A call from the thread that runs the tasks, or from another. */
    ghost function StepOf(call: Call, own: bool): Step {
      if own then Own(call) else Other(call)
    }

    method WakeUp(ghost own: bool)
      requires Valid() && Enabled(s, if own then OwnWakes else OtherWakes, eventFd)
      modifies this`event, this`s
      ensures Valid() && s == Apply(old(s), if own then OwnWakes else OtherWakes, eventFd) && event
    {
      hide Inv;
      StepOk(s, if own then OwnWakes else OtherWakes, eventFd);
      event := true;
      s := Apply(s, if own then OwnWakes else OtherWakes, eventFd);
    }

    method PostTask(task: nat, ghost own: bool) returns (wake: bool)
      requires Valid() && Enabled(s, StepOf(Call.PostTask(task), own), eventFd)
      modifies this`immediateTasks, this`s
      ensures Valid() && s == Apply(old(s), StepOf(Call.PostTask(task), own), eventFd)
      ensures wake == Owes(old(s), Call.PostTask(task)) && (wake <==> old(immediateTasks) == [])
      ensures immediateTasks == old(immediateTasks) + [Posted(task)]
    {
      hide Inv;
      StepOk(s, StepOf(Call.PostTask(task), own), eventFd);
      var wasEmpty := immediateTasks == [];
      immediateTasks := immediateTasks + [Posted(task)];
      s := Apply(s, StepOf(Call.PostTask(task), own), eventFd);
      wake := wasEmpty;
    }

    method PostDelayedTask(task: nat, due: int, ghost own: bool) returns (wake: bool)
      requires Valid() && Enabled(s, StepOf(Call.PostDelayedTask(task, due), own), eventFd)
      modifies this`delayedTasks, this`s
      ensures Valid() && s == Apply(old(s), StepOf(Call.PostDelayedTask(task, due), own), eventFd)
      ensures wake == Owes(old(s), Call.PostDelayedTask(task, due)) && wake && DelayedOk(delayedTasks)
      ensures forall d :: WaitingFor(delayedTasks, d)
                == WaitingFor(old(delayedTasks), d) + if d == due then [Posted(task)] else []
    {
      hide Inv, WaitingFor, Inserted;
      StepOk(s, StepOf(Call.PostDelayedTask(task, due), own), eventFd);
      DelayedInOrder(s, eventFd);
      DelayedInOrder(Apply(s, StepOf(Call.PostDelayedTask(task, due), own), eventFd), eventFd);
      InsertedLastOfAll(delayedTasks, Delayed(due, Posted(task)));
      delayedTasks := InsertDelayed(delayedTasks, Delayed(due, Posted(task)));
      s := Apply(s, StepOf(Call.PostDelayedTask(task, due), own), eventFd);
      wake := true;
    }

    /** Returns the callback that the watch is known by, and that the caller is to notify. */
    method AddFileDescriptorWatch(fd: nat, ghost own: bool) returns (callback: nat, wake: bool)
      requires Valid() && Enabled(s, StepOf(Call.AddFileDescriptorWatch(fd), own), eventFd)
      modifies this`watchTasks, this`watchTasksChanged, this`callbacks, this`s
      ensures Valid() && s == Apply(old(s), StepOf(Call.AddFileDescriptorWatch(fd), own), eventFd)
      ensures callback == old(s.callbacks) && wake == Owes(old(s), Call.AddFileDescriptorWatch(fd)) && wake
      ensures fd in watchTasks && watchTasks[fd].callback == callback && watchTasksChanged
      ensures watchTasks - {fd} == old(watchTasks)
      ensures forall f :: f in old(watchTasks) ==> old(watchTasks)[f].callback != callback
    {
      hide Inv;
      StepOk(s, StepOf(Call.AddFileDescriptorWatch(fd), own), eventFd);
      CallbacksBelow(s, eventFd);
      callback := callbacks;
      callbacks := callbacks + 1;
      watchTasks := watchTasks[fd := Watch(callback, None)];
      watchTasksChanged := true;
      s := Apply(s, StepOf(Call.AddFileDescriptorWatch(fd), own), eventFd);
      wake := true;
    }

    method RemoveFileDescriptorWatch(fd: nat, ghost own: bool)
      requires Valid() && Enabled(s, StepOf(Call.RemoveFileDescriptorWatch(fd), own), eventFd)
      modifies this`watchTasks, this`watchTasksChanged, this`s
      ensures Valid() && s == Apply(old(s), StepOf(Call.RemoveFileDescriptorWatch(fd), own), eventFd)
      ensures watchTasks == old(watchTasks) - {fd} && watchTasksChanged
    {
      hide Inv;
      StepOk(s, StepOf(Call.RemoveFileDescriptorWatch(fd), own), eventFd);
      watchTasks := watchTasks - {fd};
      watchTasksChanged := true;
      s := Apply(s, StepOf(Call.RemoveFileDescriptorWatch(fd), own), eventFd);
    }

    method Quit(ghost own: bool)
      requires Valid() && Enabled(s, StepOf(Call.Quit, own), eventFd)
      modifies this`quit, this`event, this`s
      ensures Valid() && s == Apply(old(s), StepOf(Call.Quit, own), eventFd) && quit && event
    {
      hide Inv;
      StepOk(s, StepOf(Call.Quit, own), eventFd);
      quit := true;
      event := true;
      s := Apply(s, StepOf(Call.Quit, own), eventFd);
    }

    // ---- The thread that runs the tasks ---------------------------------------------------------------------

    /** Entering the main loop. */
    method BeginRun()
      requires Valid() && Enabled(s, Start, eventFd)
      modifies this`quit, this`s
      ensures Valid() && s == Apply(old(s), Start, eventFd) && !quit && s.place == Looping
    {
      hide Inv;
      StepOk(s, Start, eventFd);
      quit := false;
      s := Apply(s, Start, eventFd);
    }

    /** A task has returned, or there is none left and the loop goes on. */
    ghost method FinishTask()
      requires Valid() && Enabled(s, TaskDone, eventFd)
      modifies this`s
      ensures Valid() && s == Apply(old(s), TaskDone, eventFd)
    {
      hide Inv;
      StepOk(s, TaskDone, eventFd);
      s := Apply(s, TaskDone, eventFd);
    }

    /** The part of the main loop that holds the lock: how long to poll, or nothing if it is time to leave. */
    method TakeLock(now: int) returns (timeout: Option<int>)
      requires Valid() && Enabled(s, Step.TakeLock(now), eventFd)
      modifies this`watchTasks, this`watchTasksChanged, this`pollFds, this`s
      ensures Valid() && s == Apply(old(s), Step.TakeLock(now), eventFd)
      ensures timeout == if s.place.Polling? then Some(s.place.timeout) else None
      ensures timeout.None? <==> quit
      ensures !quit ==> !watchTasksChanged && Corresponds(watchTasks, pollFds)
      ensures watchTasks.Keys == old(watchTasks).Keys
      ensures forall fd :: fd in watchTasks ==> watchTasks[fd].callback == old(watchTasks)[fd].callback
    {
      hide Inv, TimeoutFor, InOrder, Cut, Corresponds;
      StepOk(s, Step.TakeLock(now), eventFd);
      TableMade(Apply(s, Step.TakeLock(now), eventFd), eventFd);
      ghost var before := s;
      s := Apply(s, Step.TakeLock(now), eventFd);
      if quit {
        return None;
      }
      var pollTimeoutMs := GetDelayMsToNextTaskLocked(immediateTasks, delayedTasks, now);
      timeout := Some(pollTimeoutMs);
      pollFds, watchTasks := UpdateWatchTasksLocked(watchTasksChanged, pollFds, watchTasks);
      watchTasksChanged := false;
    }

    method PollReturns(ready: set<int>)
      requires Valid() && Enabled(s, Step.PollReturns(ready), eventFd)
      modifies this`pollFds, this`s
      ensures Valid() && s == Apply(old(s), Step.PollReturns(ready), eventFd)
    {
      hide Inv;
      StepOk(s, Step.PollReturns(ready), eventFd);
      pollFds := Polled(pollFds, ready, eventFd, event);
      s := Apply(s, Step.PollReturns(ready), eventFd);
    }

    /** One turn of the loop over the poll table. */
    method PostFileDescriptorWatch(i: nat) returns (wake: bool)
      requires Valid() && Enabled(s, PostNext, eventFd) && s.place.i == i && i < |pollFds|
      modifies this`pollFds, this`immediateTasks, this`event, this`s
      ensures Valid() && s == Apply(old(s), PostNext, eventFd) && wake == s.ownOwed
      ensures s.place == Posting(i + 1) && pollFds == old(pollFds)[i := SwitchedOne(old(pollFds)[i], eventFd)]
      ensures IsReady(old(pollFds)[i], eventFd) ==> (pollFds[i].fd < 0 <==> old(pollFds)[i].fd != 0)
      ensures event == (old(event) && !(old(pollFds)[i].revents && old(pollFds)[i].fd == eventFd))
      ensures immediateTasks == old(immediateTasks) + ReadyWatch(old(pollFds)[i], eventFd)
    {
      hide Inv;
      StepOk(s, PostNext, eventFd);
      ghost var before := s;
      PolledPositive(before, i, eventFd);
      s := Apply(s, PostNext, eventFd);
      wake := false;
      if !pollFds[i].revents {
        return;
      }
      if pollFds[i].fd == eventFd {
        pollFds := pollFds[i := pollFds[i].(revents := false)];
        event := false;
        return;
      }
      wake := immediateTasks == [];
      immediateTasks := immediateTasks + [RunWatch(pollFds[i].fd)];
      pollFds := pollFds[i := PollFd(-pollFds[i].fd, false)];
    }

    /** Another thread's call, if it may be made, with its notification. */
    method OtherCall(call: Call)
      requires Valid()
      modifies this
      ensures Valid() && s.place == old(s.place) && s.ownOwed == old(s.ownOwed) && pollFds == old(pollFds)
      ensures old(immediateTasks) <= immediateTasks && WatchesIn(immediateTasks) == WatchesIn(old(immediateTasks))
    {
      hide Inv, WatchesIn, Apply;
      if Allowed(s, call, eventFd) {
        OtherKeeps(s, call, eventFd);
      }
      match call {
        case PostTask(task) =>
          PostedKeeps(immediateTasks, task);
          var wake := PostTask(task, false);
          if wake {
            WakeUpAfter();
          }
        case PostDelayedTask(task, due) =>
          var wake := PostDelayedTask(task, due, false);
          WakeUpAfter();
        case AddFileDescriptorWatch(fd) =>
          if fd !in watchTasks {
            var _, wake := AddFileDescriptorWatch(fd, false);
            WakeUpAfter();
          }
        case RemoveFileDescriptorWatch(fd) =>
          if fd in watchTasks && fd != eventFd {
            RemoveFileDescriptorWatch(fd, false);
          }
        case Quit => Quit(false);
      }
    }

    /** The notification of another thread. */
    method WakeUpAfter()
      requires Valid() && s.owed > 0
      modifies this`event, this`s
      ensures Valid() && s.place == old(s.place) && s.ownOwed == old(s.ownOwed)
      ensures pollFds == old(pollFds) && immediateTasks == old(immediateTasks)
    {
      hide Inv;
      WakeUp(false);
    }

    method OtherCalls(calls: seq<Call>)
      requires Valid()
      modifies this
      ensures calls == [] ==> s == old(s)
      ensures Valid() && s.place == old(s.place) && s.ownOwed == old(s.ownOwed) && pollFds == old(pollFds)
      ensures old(immediateTasks) <= immediateTasks && WatchesIn(immediateTasks) == WatchesIn(old(immediateTasks))
    {
      hide Inv, WatchesIn;
      for n := 0 to |calls|
        invariant calls == [] ==> s == old(s)
        invariant Valid() && s.place == old(s.place) && s.ownOwed == old(s.ownOwed) && pollFds == old(pollFds)
        invariant old(immediateTasks) <= immediateTasks && WatchesIn(immediateTasks) == WatchesIn(old(immediateTasks))
      {
        OtherCall(calls[n]);
      }
    }

    /** One turn with its notification, whatever other threads do before either. */
    method PostTurn(i: nat, before: seq<Call>, between: seq<Call>)
      requires Valid() && s.place == Posting(i) && !s.ownOwed && i < |pollFds|
      modifies this
      ensures Valid() && s.place == Posting(i + 1) && !s.ownOwed
      ensures pollFds == old(pollFds)[i := SwitchedOne(old(pollFds)[i], eventFd)]
      ensures old(immediateTasks) <= immediateTasks
      ensures WatchesIn(immediateTasks) == WatchesIn(old(immediateTasks)) + ReadyWatch(old(pollFds)[i], eventFd)
      ensures before == [] && between == [] ==>
                SameCalls(old(s), s) && immediateTasks == old(immediateTasks) + ReadyWatch(old(pollFds)[i], eventFd)
    {
      hide Inv, WatchesIn, ReadyWatch, SwitchedOne;
      OtherCalls(before);
      ghost var tasks := immediateTasks;
      var wake := PostFileDescriptorWatch(i);
      PostedWatch(tasks, immediateTasks, old(pollFds), i, eventFd);
      if wake {
        OtherCalls(between);
        WakeUp(true);
      }
    }

    /** All turns, with the notifications in between, whatever other threads do before each turn and before each
        notification: each watch that polling found ready gets a task, in the order of the table, and is switched
        off, but for descriptor 0; no other descriptor in the table changes. */
    method PostFileDescriptorWatches(before: seq<seq<Call>>, between: seq<seq<Call>>)
      requires Valid() && s.place == Posting(0) && !s.ownOwed
      modifies this
      ensures Valid() && s.place == Popping && !s.ownOwed
      ensures pollFds == Switched(old(pollFds), eventFd, |old(pollFds)|)
      ensures forall k :: 0 <= k < |pollFds| ==>
                if IsReady(old(pollFds)[k], eventFd) then pollFds[k].fd < 0 <==> old(pollFds)[k].fd != 0
                else pollFds[k].fd == old(pollFds)[k].fd
      ensures old(immediateTasks) <= immediateTasks
      ensures WatchesIn(immediateTasks) == WatchesIn(old(immediateTasks)) + ReadyWatches(old(pollFds), eventFd)
      ensures before == [] && between == [] ==>
                SameCalls(old(s), s) && immediateTasks == old(immediateTasks) + ReadyWatches(old(pollFds), eventFd)
    {
      hide Inv, WatchesIn, ReadyWatches, ReadyWatch, Switched, SwitchedOne, IsReady;
      ghost var table := pollFds;
      var i := 0;
      SwitchedNone(table, eventFd);
      SwitchedOff(s, eventFd);
      NoneReady(table, eventFd);
      while i < |pollFds|
        invariant Valid() && s.place == Posting(i) && !s.ownOwed && i <= |pollFds| == |table|
        invariant pollFds == Switched(table, eventFd, i) && old(immediateTasks) <= immediateTasks
        invariant WatchesIn(immediateTasks) == WatchesIn(old(immediateTasks)) + ReadyWatches(table[..i], eventFd)
        invariant before == [] && between == [] ==>
                    SameCalls(old(s), s) && immediateTasks == old(immediateTasks) + ReadyWatches(table[..i], eventFd)
        decreases |table| - i
      {
        SwitchedNext(table, eventFd, i);
        ReadyNext(table, eventFd, i);
        PostTurn(i, if i < |before| then before[i] else [], if i < |between| then between[i] else []);
        i := i + 1;
      }
      assert table[..|table|] == table;
      StepOk(s, PostNext, eventFd);
      s := Apply(s, PostNext, eventFd);
    }

    /** Takes the first immediate task, if there is one, and after it the earliest delayed one, if one is due; and
        these are what is run. */
    method RunImmediateAndDelayedTask(now: int) returns (tasks: seq<Task>)
      requires Valid() && Enabled(s, Pop(now), eventFd)
      modifies this`immediateTasks, this`delayedTasks, this`s
      ensures Valid() && s == Apply(old(s), Pop(now), eventFd) && s.place == Running(tasks)
      ensures var a := if old(immediateTasks) == [] then 0 else 1;
              && a <= |tasks| && old(immediateTasks) == tasks[..a] + immediateTasks
              && DueTaken(old(delayedTasks), now, tasks[a..], delayedTasks)
    {
      hide Inv, Apply, DueTaken, Popped;
      StepOk(s, Pop(now), eventFd);
      DelayedInOrder(s, eventFd);
      PopEffect(s, now, eventFd);
      tasks, immediateTasks, delayedTasks := TakeTasks(immediateTasks, delayedTasks, now);
      TakenIsPopped(s, now, tasks, immediateTasks, delayedTasks);
      s := Apply(s, Pop(now), eventFd);
    }

    /** The callback to run for a descriptor, if it is still watched; it is then polled again. */
    method RunFileDescriptorWatch(fd: nat) returns (task: Option<nat>)
      requires Valid() && Enabled(s, BeginWatch, eventFd) && s.place.tasks[0] == RunWatch(fd)
      modifies this`watchTasks, this`watchTasksChanged, this`pollFds, this`s
      ensures Valid() && s == Apply(old(s), BeginWatch, eventFd)
      ensures task == Selected(old(s), BeginWatch, eventFd)
      ensures task == if fd in old(watchTasks) then Some(old(watchTasks)[fd].callback) else None
      ensures if task.Some? then !watchTasksChanged && exists k :: 0 <= k < |pollFds| && pollFds[k].fd == fd
              else pollFds == old(pollFds) && watchTasksChanged == old(watchTasksChanged)
    {
      hide Inv, InOrder, TablesOk, TableOf, Indexed, Abs;
      StepOk(s, BeginWatch, eventFd);
      ghost var before := s;
      s := Apply(s, BeginWatch, eventFd);
      if fd !in watchTasks {
        return None;
      }
      TablesOf(before, eventFd);
      BeginWatchFinds(before, eventFd);
      pollFds, watchTasks := UpdateWatchTasksLocked(watchTasksChanged, pollFds, watchTasks);
      watchTasksChanged := false;
      var index := watchTasks[fd].index.value;
      pollFds := pollFds[index := pollFds[index].(fd := fd)];
      assert pollFds[index].fd == fd;
      task := Some(watchTasks[fd].callback);
    }
  }

  /** Either no delayed task is due and none is taken, or the earliest is taken. */
  predicate DueTaken(delayed: seq<Delayed>, now: int, taken: seq<Task>, delayed': seq<Delayed>) {
    if taken == [] then delayed' == delayed && forall d :: d in delayed ==> now < d.due
    else
      && delayed != [] && delayed == [delayed[0]] + delayed' && taken == [delayed[0].task] && delayed[0].due <= now
      && forall d :: d in delayed' ==> delayed[0].due <= d.due
  }

  lemma {:induction false} EarliestTaken(delayed: seq<Delayed>, now: int)
    requires DelayedOk(delayed)
    ensures if delayed != [] && now >= delayed[0].due then DueTaken(delayed, now, [delayed[0].task], delayed[1..])
            else DueTaken(delayed, now, [], delayed)
  {
  }

  lemma {:induction false} PopEffect(s: State, now: int, eventFd: nat)
    requires Enabled(s, Pop(now), eventFd)
    ensures var s' := Apply(s, Pop(now), eventFd);
            s' == Popped(s, now) && s'.place.Running?
  {
  }

  /** The part that holds the lock. */
  method TakeTasks(immediate: seq<Task>, delayed: seq<Delayed>, now: int)
    returns (tasks: seq<Task>, immediate': seq<Task>, delayed': seq<Delayed>)
    requires DelayedOk(delayed)
    ensures var a := if immediate == [] then 0 else 1;
            && a <= |tasks| && immediate == tasks[..a] + immediate' && DueTaken(delayed, now, tasks[a..], delayed')
  {
    hide DueTaken;
    EarliestTaken(delayed, now);
    immediate', delayed' := immediate, delayed;
    var immediateTask: seq<Task>, delayedTask: seq<Task> := [], [];
    if immediate' != [] {
      immediateTask := [immediate'[0]];
      immediate' := immediate'[1..];
    }
    if delayed' != [] {
      if now >= delayed'[0].due {
        delayedTask := [delayed'[0].task];
        delayed' := delayed'[1..];
      }
    }
    tasks := immediateTask + delayedTask;
    assert tasks[..|immediateTask|] == immediateTask && tasks[|immediateTask|..] == delayedTask;
  }

  /** What is taken is what the step takes. */
  lemma {:induction false} TakenIsPopped(s: State, now: int, tasks: seq<Task>, immediate': seq<Task>,
                                         delayed': seq<Delayed>)
    requires var a := if s.immediate == [] then 0 else 1;
             && a <= |tasks| && s.immediate == tasks[..a] + immediate' && DueTaken(s.delayed, now, tasks[a..], delayed')
    ensures Popped(s, now) == s.(immediate := immediate', delayed := delayed', place := Running(tasks))
  {
    var a := if s.immediate == [] then 0 else 1;
    assert tasks == tasks[..a] + tasks[a..];
    assert tasks[..a] == if s.immediate == [] then [] else [s.immediate[0]];
    if s.immediate != [] {
      assert s.immediate[0] == tasks[0] && s.immediate[1..] == immediate';
    }
    if tasks[a..] == [] {
      assert s.delayed != [] ==> s.delayed[0] in s.delayed;
    } else {
      assert s.delayed[1..] == delayed';
    }
  }

  lemma {:induction false} DelayedInOrder(s: State, eventFd: nat)
    requires Inv(s, eventFd)
    ensures DelayedOk(s.delayed)
  {
  }

  lemma {:induction false} InsertedLastOfAll(delayed: seq<Delayed>, d: Delayed)
    requires DelayedOk(delayed)
    ensures forall due :: WaitingFor(Inserted(delayed, d), due)
              == WaitingFor(delayed, due) + if d.due == due then [d.task] else []
  {
    hide WaitingFor;
    forall due
      ensures WaitingFor(Inserted(delayed, d), due)
              == WaitingFor(delayed, due) + if d.due == due then [d.task] else []
    {
      InsertedLast(delayed, d, due);
    }
  }

  lemma {:induction false} CallbacksBelow(s: State, eventFd: nat)
    requires Inv(s, eventFd)
    ensures forall fd :: fd in s.watches ==> s.watches[fd].callback < s.callbacks
  {
  }

  lemma {:induction false} TableMade(s: State, eventFd: nat)
    requires Inv(s, eventFd)
    ensures !s.changed ==> Corresponds(s.watches, s.pollFds)
  {
  }

  lemma {:induction false} TablesOf(s: State, eventFd: nat)
    requires Inv(s, eventFd)
    ensures TablesOk(s, eventFd)
  {
  }

  lemma {:induction false} PolledPositive(s: State, i: nat, eventFd: nat)
    requires Inv(s, eventFd) && i < |s.pollFds|
    ensures s.pollFds[i].revents ==> s.pollFds[i].fd >= 0
  {
  }

  predicate InsertedAt(delayed: seq<Delayed>, d: Delayed, i: nat, r: seq<Delayed>) {
    && i <= |delayed| && r == delayed[..i] + [d] + delayed[i..]
    && (forall k :: 0 <= k < i ==> delayed[k].due <= d.due) && (i < |delayed| ==> d.due < delayed[i].due)
  }

  /** The new one comes before those that are due later, and after all others. */
  method InsertDelayed(delayed: seq<Delayed>, d: Delayed) returns (r: seq<Delayed>)
    ensures r == Inserted(delayed, d)
    ensures exists i: nat :: InsertedAt(delayed, d, i, r)
  {
    var i := 0;
    while i < |delayed| && delayed[i].due <= d.due
      invariant i <= |delayed| && forall k :: 0 <= k < i ==> delayed[k].due <= d.due
      invariant Inserted(delayed, d) == delayed[..i] + Inserted(delayed[i..], d)
    {
      assert delayed[i..][1..] == delayed[i + 1..];
      assert delayed[..i + 1] == delayed[..i] + [delayed[i]];
      i := i + 1;
    }
    r := delayed[..i] + [d] + delayed[i..];
    assert InsertedAt(delayed, d, i, r);
  }

  method GetDelayMsToNextTaskLocked(immediate: seq<Task>, delayed: seq<Delayed>, now: int) returns (timeout: int)
    ensures timeout == TimeoutFor(immediate, delayed, now)
    ensures immediate != [] ==> timeout == 0
    ensures immediate == [] && delayed == [] ==> timeout == -1
    ensures immediate == [] && delayed != [] ==>
              var diff := delayed[0].due - now;
              && (timeout == TimeLeft(delayed[0].due, now)
                  <==> diff < TWO_TO_THE_31 && (-TWO_TO_THE_31 <= diff || Cut(diff) <= 0))
              && (diff >= TWO_TO_THE_31 ==> timeout < diff)
  {
    if immediate != [] {
      return 0;
    }
    if delayed != [] {
      var diff := Cut(delayed[0].due - now);
      return if diff > 0 then diff else 0;
    }
    timeout := -1;
  }

  /** Makes the poll table anew, one entry for each watch in the order of the descriptors. */
  method UpdateWatchTasksLocked(changed: bool, pollFds: seq<PollFd>, watches: map<nat, Watch>)
    returns (pollFds': seq<PollFd>, watches': map<nat, Watch>)
    ensures if changed then pollFds' == TableOf(InOrder(watches.Keys))
            && watches' == Indexed(watches, InOrder(watches.Keys))
            else pollFds' == pollFds && watches' == watches
  {
    hide InOrder, IndexOf;
    pollFds', watches' := pollFds, watches;
    if !changed {
      return;
    }
    pollFds' := [];
    var fds := InOrder(watches.Keys);
    for i := 0 to |fds|
      invariant pollFds' == TableOf(fds[..i])
      invariant watches'.Keys == watches.Keys
      invariant forall fd :: fd in watches ==>
                  watches'[fd] == if fd in fds[..i] then watches[fd].(index := Some(IndexOf(fds, fd))) else watches[fd]
    {
      assert fds[i] in fds;
      Position(watches.Keys, i);
      watches' := watches'[fds[i] := watches'[fds[i]].(index := Some(|pollFds'|))];
      pollFds' := pollFds' + [PollFd(fds[i], false)];
      assert fds[..i + 1] == fds[..i] + [fds[i]];
    }
    assert fds[..|fds|] == fds;
  }

  lemma {:induction false} Position(s: set<nat>, i: nat)
    requires i < |InOrder(s)|
    ensures IndexOf(InOrder(s), InOrder(s)[i]) == i && InOrder(s)[i] !in InOrder(s)[..i]
  {
    InOrderSorted(s);
  }
}
