/** The task runner as the steps of the threads that share it: one runs the tasks, the others post them. Each
    step is what one thread does while it holds the lock, or one notification. */
module TaskRunner {
  import opened Powers
  import opened Options
  import opened Ordering

  /** A task is the user's, or looks after a watch, or is the callback of one. */
  datatype Task = Posted(id: nat) | RunWatch(fd: nat) | Callback(callback: nat)

  datatype Delayed = Delayed(due: int, task: Task)

  /** A watch has a callback of its own, and a place in the poll table once it has been given one. */
  datatype Watch = Watch(callback: nat, index: Option<nat>)

  datatype PollFd = PollFd(fd: int, revents: bool)

  /** Where the thread that runs the tasks is. */
  datatype Place =
    | Returned
    | Looping
    | Polling(since: int, timeout: int)
    | Posting(i: nat)
    | Popping
    | Running(tasks: seq<Task>)

  datatype State = State(
    immediate: seq<Task>,
    delayed: seq<Delayed>,
    quit: bool,
    watches: map<nat, Watch>,
    changed: bool,
    pollFds: seq<PollFd>,
    event: bool,
    place: Place,
    /** How many other threads have still to notify, and whether the running thread has. */
    owed: nat,
    ownOwed: bool,
    /** The watches added since the poll table was made, the callbacks removed, and those given out. */
    added: set<nat>,
    removed: set<nat>,
    callbacks: nat)

  /** What the threads ask for. */
  datatype Call =
    | PostTask(task: nat)
    | PostDelayedTask(task: nat, due: int)
    | AddFileDescriptorWatch(fd: nat)
    | RemoveFileDescriptorWatch(fd: nat)
    | Quit

  datatype Step =
    | Start
    | Other(call: Call)
    | OtherWakes
    | TakeLock(now: int)
    | PollReturns(ready: set<int>)
    | PostNext
    | Pop(now: int)
    | Own(call: Call)
    | OwnWakes
    | BeginWatch
    | TaskDone

  // ---- Parts of the steps ---------------------------------------------------------------------------------

  function Abs(fd: int): nat {
    if fd < 0 then -fd else fd
  }

  /** Delayed tasks are kept by time; those of one time in the order of posting. */
  function Inserted(delayed: seq<Delayed>, d: Delayed): seq<Delayed> {
    if delayed == [] || d.due < delayed[0].due then [d] + delayed
    else [delayed[0]] + Inserted(delayed[1..], d)
  }

  /** A 64-bit number of milliseconds cut down to 32 bits. */
  function Cut(n: int): (r: int)
    ensures -TWO_TO_THE_31 <= r < TWO_TO_THE_31
  {
    var m := n % TWO_TO_THE_32;
    if m < TWO_TO_THE_31 then m else m - TWO_TO_THE_32
  }

  function TimeoutFor(immediate: seq<Task>, delayed: seq<Delayed>, now: int): int {
    if immediate != [] then 0
    else if delayed != [] then
      var diff := Cut(delayed[0].due - now);
      if diff < 0 then 0 else diff
    else -1
  }

  function IndexOf(fds: seq<nat>, fd: nat): (i: nat)
    requires fd in fds
    ensures i < |fds| && fds[i] == fd
  {
    if fds[0] == fd then 0 else 1 + IndexOf(fds[1..], fd)
  }

  function TableOf(fds: seq<nat>): seq<PollFd> {
    seq(|fds|, i requires 0 <= i < |fds| => PollFd(fds[i], false))
  }

  function Indexed(watches: map<nat, Watch>, fds: seq<nat>): map<nat, Watch>
    requires forall fd :: fd in watches ==> fd in fds
  {
    map fd | fd in watches :: watches[fd].(index := Some(IndexOf(fds, fd)))
  }

  /** Makes the poll table anew if the watches have changed. */
  function Updated(s: State): State {
    if !s.changed then s
    else
      var fds := InOrder(s.watches.Keys);
      s.(changed := false, pollFds := TableOf(fds), watches := Indexed(s.watches, fds), added := {})
  }

  // ---- Calls ----------------------------------------------------------------------------------------------

  predicate Allowed(s: State, call: Call, eventFd: nat) {
    match call
    case AddFileDescriptorWatch(fd) => fd !in s.watches
    case RemoveFileDescriptorWatch(fd) => fd in s.watches && fd != eventFd
    case _ => true
  }

  /** What a call does while it holds the lock. */
  function Called(s: State, call: Call): State
    requires call.RemoveFileDescriptorWatch? ==> call.fd in s.watches
  {
    match call
    case PostTask(task) => s.(immediate := s.immediate + [Posted(task)])
    case PostDelayedTask(task, due) => s.(delayed := Inserted(s.delayed, Delayed(due, Posted(task))))
    case AddFileDescriptorWatch(fd) =>
      s.(watches := s.watches[fd := Watch(s.callbacks, None)], changed := true,
         added := s.added + {fd}, callbacks := s.callbacks + 1)
    case RemoveFileDescriptorWatch(fd) =>
      s.(watches := s.watches - {fd}, changed := true, added := s.added - {fd},
         removed := s.removed + {s.watches[fd].callback})
    case Quit => s.(quit := true, event := true)
  }

  /** Whether the caller notifies once it has let go of the lock. */
  predicate Owes(s: State, call: Call) {
    match call
    case PostTask(_) => s.immediate == []
    case PostDelayedTask(_, _) => true
    case AddFileDescriptorWatch(_) => true
    case RemoveFileDescriptorWatch(_) => false
    case Quit => false
  }

  // ---- Steps ----------------------------------------------------------------------------------------------

  predicate Enabled(s: State, step: Step, eventFd: nat) {
    match step
    case Other(call) => Allowed(s, call, eventFd)
    case OtherWakes => s.owed > 0
    case OwnWakes => s.ownOwed
    case Start => s.place.Returned? && !s.ownOwed
    case TakeLock(_) => s.place.Looping? && !s.ownOwed
    case PollReturns(_) => s.place.Polling? && !s.ownOwed
    case PostNext => s.place.Posting? && !s.ownOwed
    case Pop(_) => s.place.Popping? && !s.ownOwed
    case Own(call) => s.place.Running? && s.place.tasks != [] && !s.ownOwed && Allowed(s, call, eventFd)
    case BeginWatch => s.place.Running? && s.place.tasks != [] && s.place.tasks[0].RunWatch? && !s.ownOwed
    case TaskDone => s.place.Running? && !s.ownOwed && (s.place.tasks != [] ==> !s.place.tasks[0].RunWatch?)
  }

  function Apply(s: State, step: Step, eventFd: nat): State
    requires Enabled(s, step, eventFd)
  {
    match step
    case Start => s.(quit := false, place := Looping)
    case Other(call) => Called(s, call).(owed := s.owed + if Owes(s, call) then 1 else 0)
    case OtherWakes => s.(owed := s.owed - 1, event := true)
    case OwnWakes => s.(ownOwed := false, event := true)
    case TakeLock(now) =>
      if s.quit then s.(place := Returned)
      else Updated(s).(place := Polling(now, TimeoutFor(s.immediate, s.delayed, now)))
    case PollReturns(ready) => s.(pollFds := Polled(s.pollFds, ready, eventFd, s.event), place := Posting(0))
    case PostNext => PostedNext(s, eventFd)
    case Pop(now) => Popped(s, now)
    case Own(call) => Called(s, call).(ownOwed := Owes(s, call))
    case BeginWatch => Begun(s)
    case TaskDone => if s.place.tasks == [] then s.(place := Looping) else s.(place := Running(s.place.tasks[1..]))
  }

  /** What polling reports: the event exactly if it is signalled, and nothing for a negative descriptor. */
  function Polled(pollFds: seq<PollFd>, ready: set<int>, eventFd: nat, event: bool): seq<PollFd> {
    seq(|pollFds|, i requires 0 <= i < |pollFds| =>
      var fd := pollFds[i].fd;
      PollFd(fd, fd >= 0 && if fd == eventFd then event else fd in ready))
  }

  /** One turn of the loop over the poll table: the event is cleared; a watch gets a task, and its descriptor is
      negated so that it is not polled. (What that comes to is in WatchPolling.) */
  function PostedNext(s: State, eventFd: nat): State
    requires s.place.Posting?
  {
    var i := s.place.i;
    if i >= |s.pollFds| then s.(place := Popping)
    else if !s.pollFds[i].revents then s.(place := Posting(i + 1))
    else if s.pollFds[i].fd == eventFd then
      s.(pollFds := s.pollFds[i := PollFd(eventFd, false)], event := false, place := Posting(i + 1))
    else
      s.(immediate := s.immediate + [RunWatch(Abs(s.pollFds[i].fd))], ownOwed := s.immediate == [],
         pollFds := s.pollFds[i := PollFd(-s.pollFds[i].fd, false)], place := Posting(i + 1))
  }

  /** Takes at most one immediate task, and at most one that is due. */
  function Popped(s: State, now: int): State {
    var first := if s.immediate == [] then [] else [s.immediate[0]];
    var due := s.delayed != [] && now >= s.delayed[0].due;
    s.(immediate := if s.immediate == [] then [] else s.immediate[1..],
       delayed := if due then s.delayed[1..] else s.delayed,
       place := Running(first + if due then [s.delayed[0].task] else []))
  }

  /** A watch's task begins: nothing if the watch is gone; else it is polled again and its callback is
      run. (The place of a watch is always in the table then, see TaskRunnerSafety.BeginWatchFinds.) */
  function Begun(s: State): State
    requires s.place.Running? && s.place.tasks != [] && s.place.tasks[0].RunWatch?
  {
    var fd := s.place.tasks[0].fd;
    var rest := s.place.tasks[1..];
    if fd !in s.watches then s.(place := Running(rest))
    else
      var u := Updated(s);
      var index := u.watches[fd].index;
      u.(pollFds := if index.Some? && index.value < |u.pollFds|
        then u.pollFds[index.value := u.pollFds[index.value].(fd := fd)] else u.pollFds,
         place := Running([Callback(u.watches[fd].callback)] + rest))
  }

  /** The callback that a step selects. */
  function Selected(s: State, step: Step, eventFd: nat): Option<nat>
    requires Enabled(s, step, eventFd)
  {
    if step.BeginWatch? && s.place.tasks[0].fd in s.watches then Some(s.watches[s.place.tasks[0].fd].callback) else None
  }

  // ---- Runs -----------------------------------------------------------------------------------------------

  function Initial(eventFd: nat): State {
    State([], [], false, map[eventFd := Watch(0, None)], true, [], true, Returned, 0, false, {eventFd}, {}, 1)
  }

  predicate IsRun(states: seq<State>, steps: seq<Step>, eventFd: nat) {
    && |states| == |steps| + 1 && states[0] == Initial(eventFd)
    && forall k :: 0 <= k < |steps| ==>
         Enabled(states[k], steps[k], eventFd) && states[k + 1] == Apply(states[k], steps[k], eventFd)
  }
}
