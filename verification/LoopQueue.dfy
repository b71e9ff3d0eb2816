// Cross-thread hand-off of an event loop at the grain of its atomic actions: the locked
// push and swap of pending_tasks_, and the write and read of the eventfd.
module LoopQueue {
  import opened TcpProtocol

  const EVENTFD_MAX: nat := 0xFFFF_FFFF_FFFF_FFFE

  // What epoll_wait reports; `conn` remembers for whom the descriptor was registered then.
  datatype Ready = Wakeup | Socket(fd: int, conn: nat, events: Events)

  datatype Phase = Checking | Waiting | Dispatching | PastRead | RunningTasks | RunningTimers(now: int) | Exited

  datatype State<!T> = State(
    quit: bool,
    counter: nat,          // eventfd counter
    writers: nat,          // threads between their push (or quit store) and their write
    pending: seq<T>,       // pending_tasks_
    batch: seq<T>,         // swapped-out tasks still to run
    ready: seq<Ready>,     // reported events still to dispatch
    phase: Phase,
    // history
    pushed: seq<T>,
    executed: seq<T>
  )

  function Initial<T>(): State<T> {
    State(false, 0, 0, [], [], [], Checking, [], [])
  }

  // --- producers --------------------------------------------------------------------

  function Push<T>(s: State<T>, task: T): State<T> {
    s.(pending := s.pending + [task], pushed := s.pushed + [task], writers := s.writers + 1)
  }

  function RequestQuit<T>(s: State<T>): State<T> {
    s.(quit := true, writers := s.writers + 1)
  }

  // The write of wakeup(): a full counter answers EAGAIN, which is also a success.
  function Signal<T>(s: State<T>): State<T>
    requires s.writers > 0
  {
    s.(writers := s.writers - 1, counter := if s.counter == EVENTFD_MAX then s.counter else s.counter + 1)
  }

  // --- loop thread ------------------------------------------------------------------

  function Check<T>(s: State<T>): State<T>
    requires s.phase == Checking
  {
    s.(phase := if s.quit then Exited else Waiting)
  }

  predicate MayReport<T>(s: State<T>, ready: seq<Ready>) {
    && s.phase == Waiting
    && (Wakeup in ready ==> s.counter > 0)
    && (forall i, j :: 0 <= i < j < |ready| ==> ready[i] != ready[j])
  }

  function Report<T>(s: State<T>, ready: seq<Ready>): State<T>
    requires MayReport(s, ready)
  {
    s.(phase := Dispatching, ready := ready)
  }

  predicate AtSocket<T>(s: State<T>) {
    s.phase == Dispatching && s.ready != [] && s.ready[0].Socket?
  }

  function NextSocket<T>(s: State<T>): State<T>
    requires AtSocket(s)
  {
    s.(ready := s.ready[1..])
  }

  predicate AtWakeup<T>(s: State<T>) {
    s.phase == Dispatching && s.ready != [] && s.ready[0] == Wakeup
  }

  // The read of handleWakeup(): EAGAIN returns without running any task.
  function ReadCounter<T>(s: State<T>): State<T>
    requires AtWakeup(s)
  {
    if s.counter == 0 then s.(ready := s.ready[1..])
    else s.(ready := s.ready[1..], counter := 0, phase := PastRead)
  }

  function Swap<T>(s: State<T>): State<T>
    requires s.phase == PastRead
  {
    s.(batch := s.pending, pending := [], phase := RunningTasks)
  }

  predicate AtTask<T>(s: State<T>) {
    s.phase == RunningTasks && s.batch != []
  }

  function NextTask<T>(s: State<T>): State<T>
    requires AtTask(s)
  {
    s.(batch := s.batch[1..], executed := s.executed + [s.batch[0]])
  }

  function BatchDone<T>(s: State<T>): State<T>
    requires s.phase == RunningTasks && s.batch == []
  {
    s.(phase := Dispatching)
  }

  function StartTimers<T>(s: State<T>, now: int): State<T>
    requires s.phase == Dispatching && s.ready == []
  {
    s.(phase := RunningTimers(now))
  }

  function TimersDone<T>(s: State<T>): State<T>
    requires s.phase.RunningTimers?
  {
    s.(phase := Checking)
  }

  // --- invariant --------------------------------------------------------------------

  // No wakeup is lost, and the tasks run so far are a prefix of the push order.
  ghost predicate Inv<T>(s: State<T>) {
    && s.pushed == s.executed + s.batch + s.pending
    && (s.pending != [] ==> s.counter > 0 || s.writers > 0 || s.phase == PastRead)
    && (s.quit && s.phase == Waiting ==> s.counter > 0 || s.writers > 0)
    && (Wakeup in s.ready ==> s.counter > 0 && s.phase == Dispatching)
    && (s.batch != [] ==> s.phase == RunningTasks)
    && (s.ready != [] ==> s.phase in {Dispatching, PastRead, RunningTasks})
    && (forall i, j :: 0 <= i < j < |s.ready| ==> s.ready[i] != s.ready[j])
    && s.counter <= EVENTFD_MAX
  }

  // One atomic action: three of producers, the rest of the loop thread.
  datatype Action<!T> =
    | DoPush(task: T)
    | DoRequestQuit
    | DoSignal
    | DoCheck
    | DoReport(ready: seq<Ready>)
    | DoNextSocket
    | DoReadCounter
    | DoSwap
    | DoNextTask
    | DoBatchDone
    | DoStartTimers(now: int)
    | DoTimersDone

  predicate ByProducer<T>(a: Action<T>) {
    a.DoPush? || a.DoRequestQuit? || a.DoSignal?
  }

  predicate Enabled<T>(s: State<T>, a: Action<T>) {
    match a
    case DoPush(_) => true
    case DoRequestQuit => true
    case DoSignal => s.writers > 0
    case DoCheck => s.phase == Checking
    case DoReport(ready) => MayReport(s, ready)
    case DoNextSocket => AtSocket(s)
    case DoReadCounter => AtWakeup(s)
    case DoSwap => s.phase == PastRead
    case DoNextTask => AtTask(s)
    case DoBatchDone => s.phase == RunningTasks && s.batch == []
    case DoStartTimers(_) => s.phase == Dispatching && s.ready == []
    case DoTimersDone => s.phase.RunningTimers?
  }

  function Apply<T>(s: State<T>, a: Action<T>): State<T>
    requires Enabled(s, a)
  {
    match a
    case DoPush(task) => Push(s, task)
    case DoRequestQuit => RequestQuit(s)
    case DoSignal => Signal(s)
    case DoCheck => Check(s)
    case DoReport(ready) => Report(s, ready)
    case DoNextSocket => NextSocket(s)
    case DoReadCounter => ReadCounter(s)
    case DoSwap => Swap(s)
    case DoNextTask => NextTask(s)
    case DoBatchDone => BatchDone(s)
    case DoStartTimers(now) => StartTimers(s, now)
    case DoTimersDone => TimersDone(s)
  }

  lemma ActionKeepsOrder<T>(s: State<T>, a: Action<T>)
    requires Enabled(s, a) && s.pushed == s.executed + s.batch + s.pending
    requires s.batch != [] ==> s.phase == RunningTasks
    ensures var s' := Apply(s, a); s'.pushed == s'.executed + s'.batch + s'.pending
  {
    var s' := Apply(s, a);
    match a
    case DoPush(task) => assert s'.pushed == s'.executed + s'.batch + (s.pending + [task]);
    case DoSwap => assert s.executed + [] + s.pending == s.executed + s.pending + [];
    case DoNextTask => assert s.batch == [s.batch[0]] + s.batch[1..];
    case _ =>
  }

  lemma ActionKeepsInv<T>(s: State<T>, a: Action<T>)
    requires Inv(s) && Enabled(s, a)
    ensures Inv(Apply(s, a))
    // one read per report: the branch of handleWakeup that finds the counter empty is dead
    ensures AtWakeup(s) ==> s.counter > 0
    // nothing executed is forgotten, reordered or run twice
    ensures s.executed <= Apply(s, a).executed <= Apply(s, a).pushed
  {
    ActionKeepsOrder(s, a);
    var s' := Apply(s, a);
    assert s'.executed <= s'.executed + s'.batch + s'.pending;
  }

  // --- progress ---------------------------------------------------------------------

  // Distance of the task pushed at position p from its execution: how far the loop thread
  // is from the next swap (or inside the batch), then how much is left at that place.
  function Distance<T>(s: State<T>, p: nat): (int, int) {
    if p < |s.executed| + |s.batch| then (0, p - |s.executed|)
    else match s.phase
      case PastRead => (1, 0)
      case Dispatching => if Wakeup in s.ready then (2, |s.ready|) else (6, |s.ready|)
      case Waiting => (3, 0)
      case Checking => (4, 0)
      case RunningTimers(_) => (5, 0)
      case RunningTasks => (7, |s.batch|)
      case Exited => (8, 0)
  }

  predicate Closer(a: (int, int), b: (int, int)) {
    a.0 < b.0 || (a.0 == b.0 && 0 <= a.1 < b.1)
  }

  // epoll is level-triggered: a report made while the counter is positive contains the eventfd.
  predicate LevelTriggered<T>(s: State<T>, a: Action<T>) {
    a.DoReport? && s.counter > 0 ==> Wakeup in a.ready
  }

  // Every step of the loop thread brings every pushed task closer to its execution, unless
  // the loop waits for a producer that has yet to write or has been told to quit; no step
  // of a producer takes it away again. So each pushed task runs, and runs once.
  lemma TasksProgress<T>(s: State<T>, a: Action<T>, p: nat)
    requires Inv(s) && Enabled(s, a) && |s.executed| <= p < |s.pushed|
    ensures ByProducer(a) ==> Distance(Apply(s, a), p) == Distance(s, p)
    ensures !ByProducer(a) && LevelTriggered(s, a) && !s.quit && !(s.phase == Waiting && s.counter == 0) ==>
      var s' := Apply(s, a);
      (p < |s'.executed| && s'.executed[p] == s.pushed[p]) || Closer(Distance(s', p), Distance(s, p))
    ensures s.phase == Waiting && s.counter == 0 ==> s.writers > 0
  {
    assert |s.pushed| == |s.executed| + |s.batch| + |s.pending|;
  }
}
