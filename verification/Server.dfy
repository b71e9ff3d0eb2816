// One I/O loop with all its connections, the worker pool, any number of other threads and
// a nondeterministic kernel, as one transition system. Other loops appear only through
// what they share with this one: descriptors of the process and jobs of the pool.
module Server {
  import opened Framing
  import opened TcpProtocol
  import LoopQueue
  import WorkerPool

  // Closures become data: what a queued functor captured.
  datatype Task =
    | EstablishTask(conn: nat, fd: int)
    | FinishTask(conn: nat, id: nat, result: ResponseResult)
    | OtherTask

  // One call of a request's completion callback.
  datatype Issue = Issue(job: Job, result: ResponseResult)

  datatype Sys = Sys(
    conns: map<nat, Conn>,
    channels: map<int, Channel>,          // channels_, and the masks registered with epoll
    timers: multiset<Timer>,
    loop: LoopQueue.State<Task>,
    pool: WorkerPool.State<Job>,
    fds: map<int, Option<nat>>,           // open descriptors; None belongs to somebody else
    nextConn: nat,
    idleTimeout: int,
    clock: int,
    crashed: bool,                        // an epoll_ctl call of the loop thread has thrown
    // history
    issued: set<Issue>,
    completed: set<nat>,                  // pool positions whose run has called complete
    quietSince: map<nat, int>,            // since when a connection is idle without activity
    movedAt: map<nat, int>                // last callback that moved bytes of a connection, or its start
  )

  function Initial(workers: set<nat>, idleTimeout: int, start: int): Sys {
    Sys(map[], map[], multiset{}, LoopQueue.Initial(), WorkerPool.Initial(workers), map[], 0, idleTimeout, start, false,
        {}, {}, map[], map[])
  }

  // --- callbacks of one connection --------------------------------------------------

  function TurnOf(s: Sys, k: nat): Turn
    requires k in s.conns
  {
    Turn(s.conns[k], s.channels, s.timers, [])
  }

  // Write the result of a callback of connection k back into the system.
  function Absorb(s: Sys, k: nat, t: Turn, now: int): Sys
    requires k in s.conns && !s.pool.stopping
  {
    var (c, c') := (s.conns[k], t.conn);
    s.(conns := s.conns[k := c'],
       channels := t.channels,
       timers := t.timers,
       pool := if t.jobs == [] then s.pool else WorkerPool.Submit(s.pool, t.jobs[0]),
       fds := if c'.fd < 0 <= c.fd then s.fds - {c.fd} else s.fds,
       clock := now,
       quietSince := if Idle(c) && Idle(c') && c'.idleGeneration == c.idleGeneration then s.quietSince
                     else s.quietSince[k := now],
       movedAt := if c'.received == c.received && c'.sent == c.sent then s.movedAt else s.movedAt[k := now])
  }

  // --- labels: one atomic action each -----------------------------------------------

  datatype Label =
    | Tick(to: int)
    | Accept(fd: int)
    | ForeignOpen(fd: int)
    | ForeignClose(fd: int)
    | LoopAction(loopAction: LoopQueue.Action<Task>)
    | PoolAction(poolAction: WorkerPool.Action<Job>)
    | DispatchSocket(recvs: seq<Recv>, sends: seq<Send>, readNow: int, now: int)
    | RunTask(sends: seq<Send>, now: int)
    | PopTimer(timer: Timer, now: int)
    | Complete(position: nat, result: ResponseResult, queued: bool)
    | EndRun(worker: nat)

  // epoll reports registered descriptors, each at most once, EPOLLOUT only where it is armed.
  predicate Reported(s: Sys, ready: seq<LoopQueue.Ready>) {
    && (forall i, j :: 0 <= i < j < |ready| && ready[i].Socket? && ready[j].Socket? ==> ready[i].fd != ready[j].fd)
    && (forall e <- ready :: e.Socket? ==>
          && e.fd in s.channels && s.channels[e.fd].conn == e.conn
          && (e.events.writable ==> s.channels[e.fd].writing))
  }

  // Actions of the hand-off queue that touch nothing else; the others have labels of their own.
  predicate PlainLoopAction(s: Sys, a: LoopQueue.Action<Task>) {
    match a
    case DoPush(task) => task == OtherTask
    case DoNextSocket => false
    case DoNextTask => false
    case DoReport(ready) => Reported(s, ready)
    case DoStartTimers(now) => now == s.clock
    case DoTimersDone => s.loop.phase.RunningTimers? ==> forall t <- s.timers :: t.expires > s.loop.phase.now
    case _ => true
  }

  // The destructor of the pool does not run while the loop does.
  predicate PlainPoolAction(a: WorkerPool.Action<Job>) {
    match a
    case DoSubmit(job) => job == OtherJob
    case DoFinish(_) => false
    case DoStop => false
    case DoNotifyAll => false
    case _ => true
  }

  // A handler that has started may call complete at any time, also when its run is over, and
  // any number of times; complete() finds its connection gone only after that has closed.
  predicate MayComplete(s: Sys, position: nat, queued: bool) {
    && position < |s.pool.started| && s.pool.started[position].Serve?
    && var k := s.pool.started[position].conn;
      (k in s.conns && s.conns[k].fd >= 0 ==> queued)
  }

  // The top of the timer queue is some timer that expires no later than any other.
  predicate IsTop(timers: multiset<Timer>, timer: Timer) {
    timer in timers && forall t <- timers :: timer.expires <= t.expires
  }

  predicate Enabled(s: Sys, l: Label) {
    !s.crashed && !s.pool.stopping &&
    match l
    case Tick(to) => s.clock <= to
    case Accept(fd) => fd >= 0 && fd !in s.fds
    case ForeignOpen(fd) => fd >= 0 && fd !in s.fds
    case ForeignClose(fd) => fd in s.fds && s.fds[fd] == None
    case LoopAction(a) => LoopQueue.Enabled(s.loop, a) && PlainLoopAction(s, a)
    case PoolAction(a) => WorkerPool.Enabled(s.pool, a) && PlainPoolAction(a)
    case DispatchSocket(_, _, readNow, now) => LoopQueue.AtSocket(s.loop) && s.clock <= readNow <= now
    case RunTask(_, now) => LoopQueue.AtTask(s.loop) && s.clock <= now
    case PopTimer(timer, now) =>
      && s.loop.phase.RunningTimers? && IsTop(s.timers, timer) && timer.expires <= s.loop.phase.now
      && s.clock <= now
    case Complete(position, _, queued) => MayComplete(s, position, queued)
    case EndRun(worker) => worker in s.pool.running
  }

  // dispatch(): look the descriptor up again; a descriptor without a channel is skipped.
  function Dispatch(s: Sys, e: LoopQueue.Ready, recvs: seq<Recv>, sends: seq<Send>, readNow: int, now: int): Sys
    requires e.Socket? && !s.pool.stopping
  {
    if e.fd !in s.channels then s
    else
      var k := s.channels[e.fd].conn;
      if k !in s.conns then s.(crashed := true)
      else
        var t := TurnOf(s, k);
        if !e.events.failed && e.events.writable && !MayWrite(if e.events.readable then HandleRead(t, recvs, readNow) else t)
        then s.(crashed := true)
        else Absorb(s, k, HandleEvent(t, e.events, recvs, sends, readNow, now), now)
  }

  function EstablishConn(s: Sys, k: nat, fd: int, now: int): Sys {
    var t := Establish(Turn(FreshConn(k, fd, s.idleTimeout), s.channels, s.timers, []), now);
    s.(conns := s.conns[k := t.conn], channels := t.channels, timers := t.timers, clock := now,
       quietSince := s.quietSince[k := now],
       movedAt := s.movedAt[k := now],
       crashed := fd in s.channels)   // epoll_ctl(ADD) of a registered descriptor throws
  }

  function Run(s: Sys, task: Task, sends: seq<Send>, now: int): Sys
    requires !s.pool.stopping
  {
    match task
    case OtherTask => s
    case EstablishTask(k, fd) => EstablishConn(s, k, fd, now)
    case FinishTask(k, id, result) =>
      if k !in s.conns then s  // the weak pointer is gone
      else
        var t := TurnOf(s, k);
        if AcceptsResponse(t.conn, id) && t.conn.fd !in t.channels then s.(crashed := true)
        else Absorb(s, k, FinishRequest(t, id, result, sends, now), now)
  }

  function Fire(s: Sys, timer: Timer, now: int): Sys
    requires !s.pool.stopping
  {
    if timer.conn !in s.conns then s
    else Absorb(s, timer.conn, CloseIfIdle(TurnOf(s, timer.conn), timer.generation, now), now)
  }

  function Apply(s: Sys, l: Label): Sys
    requires Enabled(s, l)
  {
    match l
    case Tick(to) => s.(clock := to)
    case Accept(fd) =>
      s.(fds := s.fds[fd := Some(s.nextConn)], nextConn := s.nextConn + 1,
         loop := LoopQueue.Push(s.loop, EstablishTask(s.nextConn, fd)))
    case ForeignOpen(fd) => s.(fds := s.fds[fd := None])
    case ForeignClose(fd) => s.(fds := s.fds - {fd})
    case LoopAction(a) => s.(loop := LoopQueue.Apply(s.loop, a))
    case PoolAction(a) => s.(pool := WorkerPool.Apply(s.pool, a))
    case DispatchSocket(recvs, sends, readNow, now) =>
      Dispatch(s.(loop := LoopQueue.NextSocket(s.loop)), s.loop.ready[0], recvs, sends, readNow, now)
    case RunTask(sends, now) =>
      Run(s.(loop := LoopQueue.NextTask(s.loop)), s.loop.batch[0], sends, now)
    case PopTimer(timer, now) =>
      Fire(s.(timers := s.timers - multiset{timer}), timer, now)
    case Complete(position, result, queued) =>
      var job := s.pool.started[position];
      s.(issued := s.issued + {Issue(job, result)},
         completed := s.completed + {position},
         loop := if queued then LoopQueue.Push(s.loop, FinishTask(job.conn, job.id, result)) else s.loop)
    case EndRun(worker) => s.(pool := WorkerPool.Finish(s.pool, worker))
  }

  // --- invariants -------------------------------------------------------------------

  ghost predicate ConnsOk(s: Sys) {
    forall k <- s.conns ::
      && s.conns[k].id == k && k < s.nextConn
      && TurnOk(TurnOf(s, k))
  }

  // The task pushed at position i is still to run.
  predicate Outstanding(s: Sys, i: int) {
    |s.loop.executed| <= i < |s.loop.pushed|
  }

  // Every registered or waiting descriptor belongs to exactly one connection.
  ghost predicate FdsOk(s: Sys) {
    && (forall f <- s.channels :: f >= 0 && s.channels[f].conn in s.conns && s.conns[s.channels[f].conn].fd == f)
    && (forall k <- s.conns :: s.conns[k].fd >= 0 ==>
          s.conns[k].fd in s.fds && s.fds[s.conns[k].fd] == Some(k) && s.conns[k].fd in s.channels)
    && (forall i :: Outstanding(s, i) && s.loop.pushed[i].EstablishTask? ==>
          var task := s.loop.pushed[i];
          task.conn !in s.conns && task.fd >= 0 && task.fd in s.fds && s.fds[task.fd] == Some(task.conn))
    && (forall i, j :: 0 <= i < j < |s.loop.pushed| && s.loop.pushed[i].EstablishTask? && s.loop.pushed[j].EstablishTask? ==>
          s.loop.pushed[i].conn != s.loop.pushed[j].conn)
    && (forall i :: 0 <= i < |s.loop.pushed| && s.loop.pushed[i].EstablishTask? ==> s.loop.pushed[i].conn < s.nextConn)
  }

  // A reported event still to be dispatched meets the connection it was reported for, or
  // nobody, although descriptors are closed and reused while the report is worked through.
  ghost predicate EventOk(s: Sys, e: LoopQueue.Ready) {
    e.Socket? ==>
      if e.fd in s.channels then
        && s.channels[e.fd].conn == e.conn
        && (e.events.writable ==> e.conn in s.conns && s.conns[e.conn].responseReady)
      else
        && LoopQueue.Wakeup !in s.loop.ready && s.loop.phase != LoopQueue.PastRead
        && forall task <- s.loop.batch :: task.EstablishTask? ==> task.fd != e.fd
  }

  ghost predicate ReadyOk(s: Sys) {
    && (forall e <- s.loop.ready :: EventOk(s, e))
    && (forall i, j :: 0 <= i < j < |s.loop.ready| && s.loop.ready[i].Socket? && s.loop.ready[j].Socket? ==>
          s.loop.ready[i].fd != s.loop.ready[j].fd)
  }

  // Request number id of a connection is the id-th one it dispatched.
  ghost predicate IsRequest(s: Sys, job: Job) {
    job.Serve? ==>
      && job.conn in s.conns
      && 1 <= job.id <= |s.conns[job.conn].dispatched|
      && job.request == s.conns[job.conn].dispatched[job.id - 1]
  }

  // Some run of request number id of connection k has completed with this result.
  ghost predicate Issued(issued: set<Issue>, k: nat, id: nat, result: ResponseResult) {
    exists issue <- issued :: IsJobOf(issue.job, k, id) && issue.result == result
  }

  // Responses travel with the identity of their request and nothing else answers it.
  ghost predicate TicketsOk(s: Sys) {
    && (forall p :: 0 <= p < |s.pool.submitted| ==> IsRequest(s, s.pool.submitted[p]))
    && (forall p, q :: 0 <= p < q < |s.pool.submitted| && s.pool.submitted[p].Serve? ==> s.pool.submitted[p] != s.pool.submitted[q])
    && (forall issue <- s.issued :: issue.job.Serve? && issue.job in s.pool.started)
    && (forall i :: 0 <= i < |s.loop.pushed| && s.loop.pushed[i].FinishTask? ==>
          Issued(s.issued, s.loop.pushed[i].conn, s.loop.pushed[i].id, s.loop.pushed[i].result))
    && (forall k <- s.conns, i {:trigger s.conns[k].answered[i]} :: 0 <= i < |s.conns[k].answered| ==>
          Issued(s.issued, k, i + 1, s.conns[k].answered[i]))
    && (forall p <- s.completed :: p < |s.pool.started|)
  }

  // The request a connection waits for: its run has not completed yet, or its response is
  // on the way back through the task queue.
  ghost predicate Awaited(s: Sys, k: nat, id: nat) {
    || (exists p :: 0 <= p < |s.pool.submitted| && p !in s.completed && IsJobOf(s.pool.submitted[p], k, id))
    || (exists i :: Outstanding(s, i) && IsResponseTo(s.loop.pushed[i], k, id))
  }

  predicate IsJobOf(job: Job, k: nat, id: nat) {
    job.Serve? && job.conn == k && job.id == id
  }

  predicate IsResponseTo(task: Task, k: nat, id: nat) {
    task.FinishTask? && task.conn == k && task.id == id
  }

  ghost predicate LiveOk(s: Sys) {
    forall k <- s.conns :: s.conns[k].fd >= 0 && s.conns[k].processing ==> Awaited(s, k, s.conns[k].requestGeneration)
  }

  // The latest moment at which a connection's timer may be due.
  function IdleBound(s: Sys, k: nat): int
    requires k in s.conns && k in s.quietSince
  {
    (if Idle(s.conns[k]) then s.quietSince[k] else s.clock) + s.idleTimeout
  }

  ghost predicate OnePerConn(timers: multiset<Timer>) {
    && (forall t <- timers :: timers[t] == 1)
    && (forall t, u :: t in timers && u in timers && t.conn == u.conn ==> t == u)
  }

  ghost predicate HasTimer(timers: multiset<Timer>, k: nat) {
    exists t <- timers :: t.conn == k
  }

  // Every open connection has exactly one timer, due early enough to close it in time and
  // never able to close it too early.
  ghost predicate TimersOk(s: Sys) {
    && OnePerConn(s.timers)
    && (forall k <- s.conns :: s.conns[k].fd >= 0 ==> HasTimer(s.timers, k))
    && (forall t <- s.timers :: TimerOk(s, t))
  }

  ghost predicate TimerOk(s: Sys, t: Timer) {
    && t.conn in s.conns
    && var c := s.conns[t.conn];
      && t.generation <= c.idleGeneration
      && (t.generation == c.idleGeneration ==> c.lastActivity + s.idleTimeout <= t.expires)
      && t.conn in s.quietSince && t.expires <= IdleBound(s, t.conn)
  }

  ghost predicate ClocksOk(s: Sys) {
    && (forall k <- s.conns ::
          && k in s.quietSince && s.conns[k].lastActivity <= s.quietSince[k] <= s.clock
          && s.conns[k].idleTimeout == s.idleTimeout)
    && (s.loop.phase.RunningTimers? ==> s.loop.phase.now <= s.clock)
  }

  ghost predicate CoreInv(s: Sys) {
    && !s.crashed && !s.pool.stopping
    && LoopQueue.Inv(s.loop) && WorkerPool.Inv(s.pool)
    && ConnsOk(s) && FdsOk(s) && ReadyOk(s) && TicketsOk(s) && ClocksOk(s)
  }

  ghost predicate Inv(s: Sys) {
    CoreInv(s) && LiveOk(s) && TimersOk(s)
  }
}
