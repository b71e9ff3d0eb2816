// The answer a connection waits for comes nearer: a measure that no step of any thread
// raises, and that somebody can always lower.
module ServerProgress {
  import opened Framing
  import opened TcpProtocol
  import LoopQueue
  import WorkerPool
  import opened Server
  import opened ServerProof
  import opened ServerTheorems

  // Where the answer is: a job of the pool that has not completed, or a task of the loop.
  datatype Place = InPool(job: nat) | InLoop(task: nat)

  predicate Waits(s: Sys, k: nat) {
    k in s.conns && s.conns[k].fd >= 0 && s.conns[k].processing
  }

  ghost predicate IsAt(s: Sys, k: nat, place: Place) {
    && Waits(s, k)
    && match place
       case InPool(p) =>
         p < |s.pool.submitted| && p !in s.completed && IsJobOf(s.pool.submitted[p], k, s.conns[k].requestGeneration)
       case InLoop(i) => Outstanding(s, i) && IsResponseTo(s.loop.pushed[i], k, s.conns[k].requestGeneration)
  }

  lemma IsSomewhere(s: Sys, k: nat)
    requires Reachable(s) && Waits(s, k)
    ensures exists place :: IsAt(s, k, place)
  {
    assert LiveOk(s) by { ReachableInv(s); }
    var id := s.conns[k].requestGeneration;
    assert Awaited(s, k, id);
    hide Reachable, LiveOk;
    if i :| Outstanding(s, i) && IsResponseTo(s.loop.pushed[i], k, id) {
      assert IsAt(s, k, InLoop(i));
    } else {
      var p :| 0 <= p < |s.pool.submitted| && p !in s.completed && IsJobOf(s.pool.submitted[p], k, id);
      assert IsAt(s, k, InPool(p));
    }
  }

  // --- the measure ----------------------------------------------------------------------

  datatype Rank = Rank(stage: nat, a: nat, b: nat, c: nat)

  predicate Below(r: Rank, q: Rank) {
    || r.stage < q.stage
    || (r.stage == q.stage && r.a < q.a)
    || (r.stage == q.stage && r.a == q.a && r.b < q.b)
    || (r.stage == q.stage && r.a == q.a && r.b == q.b && r.c < q.c)
  }

  // The task waits in the queue and the write that announces it is still to come.
  predicate Unsignalled(q: LoopQueue.State<Task>, i: nat) {
    |q.executed| + |q.batch| <= i && q.counter == 0 && q.phase != LoopQueue.PastRead
  }

  // The last two of four stages, queued in the pool and started. In the queue count the jobs
  // in front and the workers that are not looking for one.
  function PoolRank(s: WorkerPool.State<Job>, p: nat): Rank {
    if p < |s.started| then Rank(2, 0, 0, 0) else Rank(3, p - |s.started|, |s.running.Keys| + |s.blocked|, 0)
  }

  // The first two, pushed to the loop and announced there. Once announced, what counts is the
  // distance of the task from its execution, and the timers still to be drained.
  function LoopRank(q: LoopQueue.State<Task>, i: nat, work: nat): Rank {
    if Unsignalled(q, i) then Rank(1, 0, 0, 0)
    else
      var d := LoopQueue.Distance(q, i);
      Rank(0, Natural(d.0), Natural(d.1), work)
  }

  ghost function WorkLeft(s: Sys): nat {
    if s.loop.phase.RunningTimers? then Work(s.timers, s.conns, s.loop.phase.now) else 0
  }

  ghost function RankOf(s: Sys, place: Place): Rank {
    match place
    case InPool(p) => PoolRank(s.pool, p)
    case InLoop(i) => LoopRank(s.loop, i, WorkLeft(s))
  }

  function Natural(n: int): nat {
    if n < 0 then 0 else n
  }

  predicate IsLoopStep(l: Label) {
    l.DispatchSocket? || l.RunTask? || l.PopTimer? || (l.LoopAction? && !LoopQueue.ByProducer(l.loopAction))
  }

  // A worker takes a job; or, while none is looking for one, one is woken or finishes its job.
  predicate PoolHelps(s: WorkerPool.State<Job>, a: WorkerPool.Action<Job>) {
    a.DoTake? || (s.awake == {} && if s.blocked != {} then a.DoNotifyOne? else a.DoFinish?)
  }

  // The steps that bring the answer nearer, by stage: such a step of the pool, the handler
  // completes, the producer writes its wakeup, the loop thread does anything.
  predicate Helps(s: Sys, place: Place, l: Label) {
    match place
    case InPool(p) =>
      if p < |s.pool.started| then l.Complete? && l.position == p
      else (l.PoolAction? && PoolHelps(s.pool, l.poolAction)) || (l.EndRun? && PoolHelps(s.pool, WorkerPool.DoFinish(l.worker)))
    case InLoop(i) => if Unsignalled(s.loop, i) then l == LoopAction(LoopQueue.DoSignal) else IsLoopStep(l)
  }

  // epoll reports the eventfd whenever its counter is positive.
  predicate LevelTriggered(s: Sys, l: Label) {
    l.LoopAction? ==> LoopQueue.LevelTriggered(s.loop, l.loopAction)
  }

  // Connection k still waits for the same answer.
  predicate StillWaits(s: Sys, s': Sys, k: nat)
    requires k in s.conns
  {
    Waits(s', k) && s'.conns[k].requestGeneration == s.conns[k].requestGeneration
  }

  ghost predicate Nearer(s: Sys, s': Sys, k: nat, place: Place, place': Place, helps: bool) {
    && IsAt(s', k, place')
    && (Below(RankOf(s', place'), RankOf(s, place)) || (!helps && RankOf(s', place') == RankOf(s, place)))
  }

  // --- in the pool ------------------------------------------------------------------------

  // What one step does to the pool: nothing, an action of the pool, or one more job.
  lemma PoolStep(s: Sys, l: Label) returns (a: Option<WorkerPool.Action<Job>>)
    requires Enabled(s, l)
    ensures a == None ==> Apply(s, l).pool == s.pool
    ensures a.Some? ==> WorkerPool.Enabled(s.pool, a.value) && Apply(s, l).pool == WorkerPool.Apply(s.pool, a.value)
    ensures a.Some? && !l.PoolAction? && !l.EndRun? ==> a.value.DoSubmit?
    ensures l.PoolAction? ==> a == Some(l.poolAction) && PlainPoolAction(l.poolAction)
    ensures l.EndRun? ==> a == Some(WorkerPool.DoFinish(l.worker))
  {
    hide HandleEvent, FinishRequest, CloseIfIdle, HandleRead, MayWrite, Idle;
    var s' := Apply(s, l);
    if l.PoolAction? {
      a := Some(l.poolAction);
    } else if l.EndRun? {
      a := Some(WorkerPool.DoFinish(l.worker));
    } else if IsCallback(l) && |s'.pool.submitted| > |s.pool.submitted| {
      a := Some(WorkerPool.DoSubmit(s'.pool.submitted[|s'.pool.submitted| - 1]));
    } else {
      a := None;
    }
  }

  predicate PoolCloser(s: WorkerPool.State<Job>, s': WorkerPool.State<Job>, p: nat) {
    Below(PoolRank(s', p), PoolRank(s, p)) || (p < |s.started| && PoolRank(s', p) == PoolRank(s, p))
  }

  lemma WakeIsCloser(s: WorkerPool.State<Job>, w: nat, p: nat)
    requires w in s.blocked
    ensures PoolCloser(s, WorkerPool.SpuriousWake(s, w), p)
    ensures s.notifies > 0 ==> PoolCloser(s, WorkerPool.NotifyOne(s, w), p)
  {
    Fewer(s.blocked, w);
  }

  lemma FinishIsCloser(s: WorkerPool.State<Job>, w: nat, p: nat)
    requires w in s.running
    ensures PoolCloser(s, WorkerPool.Finish(s, w), p)
  {
    Fewer(s.running.Keys, w);
    assert WorkerPool.Finish(s, w).running.Keys == s.running.Keys - {w};
  }

  lemma TakeIsCloser(s: WorkerPool.State<Job>, w: nat, p: nat)
    requires w in s.awake && s.queue != []
    ensures PoolCloser(s, WorkerPool.Take(s, w), p)
  {
  }

  lemma OtherIsNoFurther(s: WorkerPool.State<Job>, a: WorkerPool.Action<Job>, p: nat)
    requires WorkerPool.Enabled(s, a) && (p >= |s.started| ==> s.queue != [])
    requires a.DoSubmit? || a.DoBlock? || a.DoExit? || (a.DoNotifyOne? && s.blocked == {})
    ensures PoolRank(WorkerPool.Apply(s, a), p) == PoolRank(s, p)
  {
  }

  lemma PoolNearer(s: WorkerPool.State<Job>, a: WorkerPool.Action<Job>, p: nat)
    requires WorkerPool.Inv(s) && WorkerPool.Enabled(s, a) && p < |s.submitted|
    requires !a.DoStop? && !a.DoNotifyAll? && !s.stopping
    ensures var s' := WorkerPool.Apply(s, a);
      PoolCloser(s, s', p) || (PoolRank(s', p) == PoolRank(s, p) && !PoolHelps(s, a))
  {
    assert p >= |s.started| ==> s.queue != [] by { assert s.submitted == s.started + s.queue; }
    hide WorkerPool.Inv, PoolCloser, PoolRank;
    match a
    case DoNotifyOne(w) => if s.blocked != {} { WakeIsCloser(s, w, p); } else { OtherIsNoFurther(s, a, p); }
    case DoSpuriousWake(w) => WakeIsCloser(s, w, p);
    case DoFinish(w) => FinishIsCloser(s, w, p);
    case DoTake(w) => TakeIsCloser(s, w, p);
    case _ => OtherIsNoFurther(s, a, p);
  }

  lemma Fewer(workers: set<nat>, w: nat)
    requires w in workers
    ensures |workers - {w}| == |workers| - 1
  {
  }

  lemma PoolGrows(s: Sys, l: Label)
    requires Enabled(s, l)
    ensures s.pool.submitted <= Apply(s, l).pool.submitted
  {
    var a := PoolStep(s, l);
    hide Apply, Enabled;
    if a.Some? { WorkerPool.ActionKeepsWorkers(s.pool, a.value); }
  }

  lemma PlainAction(l: Label, a: WorkerPool.Action<Job>)
    requires (l.PoolAction? && a == l.poolAction && PlainPoolAction(a)) || (l.EndRun? && a == WorkerPool.DoFinish(l.worker)) || a.DoSubmit?
    ensures !a.DoStop? && !a.DoNotifyAll?
  {
  }

  lemma SubmitHelpsNobody(s: WorkerPool.State<Job>, a: WorkerPool.Action<Job>)
    requires a.DoSubmit?
    ensures !PoolHelps(s, a)
  {
  }

  lemma StillInPool(s: Sys, s': Sys, k: nat, p: nat)
    requires IsAt(s, k, InPool(p)) && StillWaits(s, s', k)
    requires s.pool.submitted <= s'.pool.submitted && p !in s'.completed
    ensures IsAt(s', k, InPool(p))
  {
  }

  lemma PoolPlace(s: Sys, k: nat, p: nat)
    requires IsAt(s, k, InPool(p))
    ensures p < |s.pool.submitted| && p !in s.completed
  {
  }

  lemma NearerInPool(s: Sys, s': Sys, l: Label, k: nat, p: nat)
    requires IsAt(s', k, InPool(p)) && !(l.Complete? && l.position == p)
    requires PoolCloser(s.pool, s'.pool, p)
      || (PoolRank(s'.pool, p) == PoolRank(s.pool, p)
          && (p < |s.pool.started| || !((l.PoolAction? && PoolHelps(s.pool, l.poolAction))
                                        || (l.EndRun? && PoolHelps(s.pool, WorkerPool.DoFinish(l.worker))))))
    ensures Nearer(s, s', k, InPool(p), InPool(p), Helps(s, InPool(p), l))
  {
    hide IsAt, PoolRank, PoolHelps, Below;
  }

  lemma InPoolNearer(s: Sys, l: Label, k: nat, p: nat)
    requires Inv(s) && Enabled(s, l) && IsAt(s, k, InPool(p)) && StillWaits(s, Apply(s, l), k)
    requires !(l.Complete? && l.position == p)
    ensures Nearer(s, Apply(s, l), k, InPool(p), InPool(p), Helps(s, InPool(p), l))
  {
    var s' := Apply(s, l);
    var a := PoolStep(s, l);
    CompletedBy(s, l);
    Parts(s);
    PoolPlace(s, k, p);
    PoolGrows(s, l);
    hide *;
    if a.Some? {
      PlainAction(l, a.value);
      PoolNearer(s.pool, a.value, p);
      if a.value.DoSubmit? { SubmitHelpsNobody(s.pool, a.value); }
    }
    StillInPool(s, s', k, p);
    NearerInPool(s, s', l, k, p);
  }

  // Only a completion completes, and only a job that has started.
  lemma CompletedBy(s: Sys, l: Label)
    requires Enabled(s, l)
    ensures Apply(s, l).completed == s.completed + if l.Complete? then {l.position} else {}
    ensures l.Complete? ==> l.position < |s.pool.started|
  {
    hide HandleEvent, FinishRequest, CloseIfIdle, HandleRead, MayWrite, Idle;
  }

  lemma CompletionPushes(s: Sys, l: Label)
    requires Enabled(s, l) && l.Complete?
    ensures var (s', job) := (Apply(s, l), s.pool.started[l.position]);
      && s'.conns == s.conns && s'.loop.executed == s.loop.executed && s'.loop.batch == s.loop.batch
      && (job.conn in s.conns && s.conns[job.conn].fd >= 0 ==>
            && s'.loop.counter == s.loop.counter && s'.loop.phase == s.loop.phase
            && s'.loop.pushed == s.loop.pushed + [FinishTask(job.conn, job.id, l.result)])
  {
  }

  lemma PushedPlace(s: Sys, s': Sys, k: nat, task: Task)
    requires Waits(s, k) && s'.conns == s.conns && IsResponseTo(task, k, s.conns[k].requestGeneration)
    requires s'.loop.pushed == s.loop.pushed + [task] && |s'.loop.executed| <= |s.loop.pushed|
    ensures IsAt(s', k, InLoop(|s.loop.pushed|))
  {
  }

  lemma LoopStages(s: Sys, i: nat)
    ensures RankOf(s, InLoop(i)).stage <= 1
  {
    hide LoopQueue.Distance, Work, Unsignalled;
  }

  // Completing pushes the response.
  lemma CompletedNearer(s: Sys, l: Label, k: nat, p: nat)
    requires Inv(s) && Enabled(s, l) && IsAt(s, k, InPool(p)) && l.Complete? && l.position == p
    ensures Nearer(s, Apply(s, l), k, InPool(p), InLoop(|s.loop.pushed|), true)
  {
    Parts(s);
    CompletedBy(s, l);
    CompletionPushes(s, l);
    CompletedJob(s, k, p);
    var (s', task) := (Apply(s, l), FinishTask(s.pool.started[p].conn, s.pool.started[p].id, l.result));
    LoopStages(s', |s.loop.pushed|);
    hide *;
    LoopOrder(s.loop);
    PushedPlace(s, s', k, task);
    StageIsBelow(s, s', k, InPool(p), InLoop(|s.loop.pushed|));
  }

  lemma CompletedJob(s: Sys, k: nat, p: nat)
    requires WorkerPool.Inv(s.pool) && IsAt(s, k, InPool(p)) && p < |s.pool.started|
    ensures Waits(s, k) && IsJobOf(s.pool.started[p], k, s.conns[k].requestGeneration)
    ensures s.conns[k].fd >= 0 && s.pool.started[p].conn == k && s.pool.started[p].id == s.conns[k].requestGeneration
    ensures forall result :: IsResponseTo(FinishTask(k, s.conns[k].requestGeneration, result), k, s.conns[k].requestGeneration)
    ensures RankOf(s, InPool(p)).stage == 2
  {
    StartedFirst(s.pool, p);
  }

  lemma StageIsBelow(s: Sys, s': Sys, k: nat, place: Place, place': Place)
    requires IsAt(s', k, place') && RankOf(s', place').stage < RankOf(s, place).stage
    ensures Nearer(s, s', k, place, place', true)
  {
    hide IsAt, RankOf;
  }

  lemma StartedFirst(s: WorkerPool.State<Job>, p: nat)
    requires WorkerPool.Inv(s) && p < |s.started|
    ensures p < |s.submitted| && s.submitted[p] == s.started[p]
  {
  }

  // --- in the loop ------------------------------------------------------------------------

  // What one step does to the hand-off queue.
  lemma LoopStep(s: Sys, l: Label) returns (a: Option<LoopQueue.Action<Task>>)
    requires Enabled(s, l)
    ensures a == None ==> Apply(s, l).loop == s.loop && (IsLoopStep(l) ==> l.PopTimer?)
    ensures a.Some? ==> LoopQueue.Enabled(s.loop, a.value) && Apply(s, l).loop == LoopQueue.Apply(s.loop, a.value)
    ensures a.Some? ==> LoopQueue.ByProducer(a.value) == !IsLoopStep(l)
    ensures a.Some? && a.value.DoNextTask? ==> l.RunTask?
    ensures a.Some? && (a.value.DoReport? || a.value.DoSignal?) ==> l == LoopAction(a.value)
    ensures l.LoopAction? ==> a == Some(l.loopAction)
  {
    hide HandleEvent, FinishRequest, CloseIfIdle, HandleRead, MayWrite, Idle;
    match l
    case LoopAction(x) => a := Some(x);
    case Accept(fd) => a := Some(LoopQueue.DoPush(EstablishTask(s.nextConn, fd)));
    case DispatchSocket(_, _, _, _) => a := Some(LoopQueue.DoNextSocket);
    case RunTask(_, _) => a := Some(LoopQueue.DoNextTask);
    case Complete(p, result, queued) =>
      var job := s.pool.started[p];
      a := if queued then Some(LoopQueue.DoPush(FinishTask(job.conn, job.id, result))) else None;
    case _ => a := None;
  }

  // An announced task stays announced until it runs.
  lemma AnnouncedStays(q: LoopQueue.State<Task>, a: LoopQueue.Action<Task>, i: nat)
    requires LoopQueue.Inv(q) && LoopQueue.Enabled(q, a) && !Unsignalled(q, i) && |q.executed| <= i < |q.pushed|
    ensures !Unsignalled(LoopQueue.Apply(q, a), i)
  {
    assert |q.pushed| == |q.executed| + |q.batch| + |q.pending|;
  }

  // One that is not can only be announced.
  lemma UnsignalledStays(q: LoopQueue.State<Task>, a: LoopQueue.Action<Task>, i: nat)
    requires LoopQueue.Inv(q) && LoopQueue.Enabled(q, a) && Unsignalled(q, i) && i < |q.pushed|
    ensures Unsignalled(LoopQueue.Apply(q, a), i) == !a.DoSignal?
    ensures |LoopQueue.Apply(q, a).executed| <= i
  {
  }

  lemma StillInLoop(s: Sys, s': Sys, k: nat, i: nat)
    requires IsAt(s, k, InLoop(i)) && StillWaits(s, s', k)
    requires s.loop.pushed <= s'.loop.pushed && |s'.loop.executed| <= i
    ensures IsAt(s', k, InLoop(i))
  {
  }

  lemma LoopPlace(s: Sys, k: nat, i: nat)
    requires IsAt(s, k, InLoop(i))
    ensures |s.loop.executed| <= i < |s.loop.pushed|
  {
  }

  lemma PushedGrows(q: LoopQueue.State<Task>, a: LoopQueue.Action<Task>)
    requires LoopQueue.Enabled(q, a)
    ensures q.pushed <= LoopQueue.Apply(q, a).pushed
  {
  }

  lemma SameIsNearer(s: Sys, s': Sys, k: nat, place: Place)
    requires IsAt(s', k, place) && RankOf(s', place) == RankOf(s, place)
    ensures Nearer(s, s', k, place, place, false)
  {
  }

  lemma UnsignalledNearer(s: Sys, l: Label, k: nat, i: nat)
    requires Inv(s) && Enabled(s, l) && IsAt(s, k, InLoop(i)) && StillWaits(s, Apply(s, l), k) && Unsignalled(s.loop, i)
    ensures Nearer(s, Apply(s, l), k, InLoop(i), InLoop(i), Helps(s, InLoop(i), l))
  {
    var s' := Apply(s, l);
    var a := LoopStep(s, l);
    Parts(s);
    LoopPlace(s, k, i);
    hide Apply, Enabled, Inv, CoreInv, IsAt, StillWaits, LoopQueue.Inv, LoopQueue.Apply, LoopQueue.Enabled, LoopQueue.Distance, Work,
      Unsignalled;
    if a.Some? {
      UnsignalledStays(s.loop, a.value, i);
      PushedGrows(s.loop, a.value);
    }
    StillInLoop(s, s', k, i);
  }

  lemma CloserIsBelow(q: LoopQueue.State<Task>, q': LoopQueue.State<Task>, i: nat, work: nat, work': nat)
    requires LoopQueue.Closer(LoopQueue.Distance(q', i), LoopQueue.Distance(q, i))
    requires !Unsignalled(q, i) && !Unsignalled(q', i) && |q'.executed| <= i
    ensures Below(LoopRank(q', i, work'), LoopRank(q, i, work))
  {
    DistanceIsNatural(q', i);
    hide LoopQueue.Distance;
  }

  lemma DistanceIsNatural(q: LoopQueue.State<Task>, i: nat)
    requires |q.executed| <= i
    ensures LoopQueue.Distance(q, i).0 >= 0 && LoopQueue.Distance(q, i).1 >= 0
  {
  }

  // A task whose turn it is answers the connection that waits for it.
  lemma AnsweredNow(s: Sys, l: Label, k: nat, i: nat)
    requires Inv(s) && Enabled(s, l) && l.RunTask? && IsAt(s, k, InLoop(i)) && i == |s.loop.executed|
    ensures !StillWaits(s, Apply(s, l), k)
  {
    Parts(s);
    var task := s.loop.batch[0];
    assert s.loop.pushed[i] == task && task.FinishTask? && task.conn == k && task.id == s.conns[k].requestGeneration;
    assert TurnOk(TurnOf(s, k));
    var s1 := s.(loop := LoopQueue.NextTask(s.loop));
    var t := TurnOf(s1, k);
    assert t == TurnOf(s, k) && AcceptsResponse(t.conn, task.id) && t.conn.fd in t.channels;
    FinishRequestKeeps(t, task.id, task.result, l.sends, l.now);
    hide Inv, CoreInv, FinishRequest, TurnOk, CallbackStep, ConnsOk, LoopQueue.Inv, FdsOk, ReadyOk, TicketsOk, TimersOk, LiveOk, ClocksOk;
    assert Apply(s, l).conns[k] == FinishRequest(t, task.id, task.result, l.sends, l.now).conn;
  }

  lemma OthersKeepTimers(s: Sys, l: Label)
    requires Enabled(s, l) && !IsCallback(l)
    ensures Apply(s, l).timers == s.timers && Apply(s, l).conns == s.conns
  {
  }

  lemma SameDistance(s: Sys, l: Label, i: nat, a: LoopQueue.Action<Task>)
    requires LoopQueue.Inv(s.loop) && LoopQueue.Enabled(s.loop, a) && LoopQueue.ByProducer(a)
    requires |s.loop.executed| <= i < |s.loop.pushed|
    ensures LoopQueue.Distance(LoopQueue.Apply(s.loop, a), i) == LoopQueue.Distance(s.loop, i)
    ensures LoopQueue.Apply(s.loop, a).executed == s.loop.executed && LoopQueue.Apply(s.loop, a).phase == s.loop.phase
  {
    LoopQueue.TasksProgress(s.loop, a, i);
  }

  // No loop step of another kind: a producer acts, or nobody acts on the loop.
  lemma OthersNoFurther(s: Sys, l: Label, k: nat, i: nat)
    requires Inv(s) && Enabled(s, l) && !IsLoopStep(l)
    requires IsAt(s, k, InLoop(i)) && StillWaits(s, Apply(s, l), k) && !Unsignalled(s.loop, i)
    ensures Nearer(s, Apply(s, l), k, InLoop(i), InLoop(i), false)
  {
    var s' := Apply(s, l);
    var a := LoopStep(s, l);
    OthersKeepTimers(s, l);
    Parts(s);
    LoopPlace(s, k, i);
    hide Apply, Enabled, Inv, CoreInv, IsAt, StillWaits, LoopQueue.Inv, LoopQueue.Apply, LoopQueue.Enabled, LoopQueue.Distance, Work,
      Unsignalled;
    if a.Some? {
      AnnouncedStays(s.loop, a.value, i);
      PushedGrows(s.loop, a.value);
      SameDistance(s, l, i, a.value);
    }
    StillInLoop(s, s', k, i);
    SameIsNearer(s, s', k, InLoop(i));
  }

  // Draining a timer leaves less to drain.
  lemma TimerNearer(s: Sys, l: Label, k: nat, i: nat)
    requires Reachable(s) && Enabled(s, l) && l.PopTimer? && s.idleTimeout > 0
    requires IsAt(s, k, InLoop(i)) && StillWaits(s, Apply(s, l), k) && !Unsignalled(s.loop, i)
    ensures Nearer(s, Apply(s, l), k, InLoop(i), InLoop(i), true)
  {
    var s' := Apply(s, l);
    var a := LoopStep(s, l);
    TimersTerminate(s, l.timer, l.now);
    assert s.loop.phase.RunningTimers?;
    LoopPlace(s, k, i);
    hide Apply, Enabled, Reachable, IsAt, StillWaits, LoopQueue.Distance, Work, Unsignalled;
    StillInLoop(s, s', k, i);
  }

  // Any other step of the loop thread brings the task closer to its execution.
  lemma LoopStepNearer(s: Sys, l: Label, k: nat, i: nat)
    requires Inv(s) && Enabled(s, l) && IsLoopStep(l) && !l.PopTimer? && !s.loop.quit && LevelTriggered(s, l)
    requires IsAt(s, k, InLoop(i)) && StillWaits(s, Apply(s, l), k) && !Unsignalled(s.loop, i)
    ensures Nearer(s, Apply(s, l), k, InLoop(i), InLoop(i), true)
  {
    var s' := Apply(s, l);
    var step := LoopStep(s, l);
    var a := step.value;
    Parts(s);
    LoopPlace(s, k, i);
    AnnouncedAwake(s.loop, i);
    if |s'.loop.executed| > i {
      ExecutedOne(s.loop, a, i);
      AnsweredNow(s, l, k, i);
    }
    hide Apply, Enabled, Inv, CoreInv, IsAt, StillWaits, LoopQueue.Inv, LoopQueue.Apply, LoopQueue.Enabled, LoopQueue.Distance, Work,
      Unsignalled;
    AnnouncedStays(s.loop, a, i);
    PushedGrows(s.loop, a);
    LoopQueue.TasksProgress(s.loop, a, i);
    StillInLoop(s, s', k, i);
    CloserIsBelow(s.loop, s'.loop, i, WorkLeft(s), WorkLeft(s'));
  }

  lemma AnnouncedAwake(q: LoopQueue.State<Task>, i: nat)
    requires LoopQueue.Inv(q) && !Unsignalled(q, i) && i < |q.pushed|
    ensures |q.executed| <= i ==> !(q.phase == LoopQueue.Waiting && q.counter == 0)
  {
  }

  lemma ExecutedOne(q: LoopQueue.State<Task>, a: LoopQueue.Action<Task>, i: nat)
    requires LoopQueue.Enabled(q, a) && |q.executed| <= i < |LoopQueue.Apply(q, a).executed|
    ensures i == |q.executed| && a.DoNextTask?
  {
  }

  // --- both -------------------------------------------------------------------------------

  lemma HelpsOrNot(s: Sys, s': Sys, k: nat, place: Place, place': Place, helps: bool)
    requires Nearer(s, s', k, place, place', true)
    ensures Nearer(s, s', k, place, place', helps)
  {
    hide IsAt, RankOf, Below;
  }

  lemma LoopHelps(s: Sys, i: nat, l: Label)
    ensures !Unsignalled(s.loop, i) ==> Helps(s, InLoop(i), l) == IsLoopStep(l)
    ensures l.PopTimer? ==> IsLoopStep(l)
  {
  }

  lemma InLoopNearer(s: Sys, l: Label, k: nat, i: nat)
    requires Reachable(s) && Enabled(s, l) && IsAt(s, k, InLoop(i)) && StillWaits(s, Apply(s, l), k)
    requires s.idleTimeout > 0 && !s.loop.quit && LevelTriggered(s, l)
    ensures Nearer(s, Apply(s, l), k, InLoop(i), InLoop(i), Helps(s, InLoop(i), l))
  {
    hide *;
    ReachableInv(s);
    LoopHelps(s, i, l);
    if Unsignalled(s.loop, i) {
      UnsignalledNearer(s, l, k, i);
    } else if l.PopTimer? {
      TimerNearer(s, l, k, i);
    } else if IsLoopStep(l) {
      LoopStepNearer(s, l, k, i);
    } else {
      OthersNoFurther(s, l, k, i);
    }
  }

  // Whatever any thread, the kernel or another client does, the answer a connection waits for
  // gets no further away, and a step that helps brings it strictly nearer, until it has
  // arrived or the connection has closed.
  lemma AnswerComesNearer(s: Sys, l: Label, k: nat, place: Place) returns (place': Place)
    requires Reachable(s) && Enabled(s, l) && IsAt(s, k, place)
    requires s.idleTimeout > 0 && !s.loop.quit && LevelTriggered(s, l)
    ensures k in s.conns
    ensures StillWaits(s, Apply(s, l), k) ==> Nearer(s, Apply(s, l), k, place, place', Helps(s, place, l))
  {
    assert k in s.conns;
    hide *;
    place' := place;
    ReachableInv(s);
    if StillWaits(s, Apply(s, l), k) {
      match place
      case InPool(p) =>
        if l.Complete? && l.position == p {
          CompletedNearer(s, l, k, p);
          place' := InLoop(|s.loop.pushed|);
          HelpsOrNot(s, Apply(s, l), k, place, place', Helps(s, place, l));
        } else {
          InPoolNearer(s, l, k, p);
        }
      case InLoop(i) => InLoopNearer(s, l, k, i);
    }
  }

  // --- somebody can help --------------------------------------------------------------------

  predicate CanHelp(s: Sys, place: Place, l: Label) {
    Helps(s, place, l) && Enabled(s, l) && LevelTriggered(s, l)
  }

  lemma WorkersCanHelp(s: Sys, p: nat, w: nat)
    requires !s.crashed && !s.pool.stopping && |s.pool.started| <= p && s.pool.queue != []
    ensures w in s.pool.awake ==> CanHelp(s, InPool(p), PoolAction(WorkerPool.DoTake(w)))
    ensures s.pool.awake == {} && w in s.pool.blocked && s.pool.notifies > 0 ==>
      CanHelp(s, InPool(p), PoolAction(WorkerPool.DoNotifyOne(w)))
    ensures s.pool.awake == {} && s.pool.blocked == {} && w in s.pool.running ==> CanHelp(s, InPool(p), EndRun(w))
  {
  }

  lemma SomeWorker(s: WorkerPool.State<Job>, p: nat) returns (w: nat)
    requires WorkerPool.Inv(s) && WorkerPool.Workers(s) != {} && |s.started| <= p < |s.submitted|
    ensures s.queue != []
    ensures w in s.awake || (s.awake == {} && w in s.blocked && s.notifies > 0)
      || (s.awake == {} && s.blocked == {} && w in s.running)
  {
    assert s.submitted == s.started + s.queue;
    hide WorkerPool.Conserved, WorkerPool.RunOnce;
    if s.awake != {} {
      w :| w in s.awake;
    } else if s.blocked != {} {
      w :| w in s.blocked;
    } else {
      assert s.running.Keys == WorkerPool.Workers(s) by { assert s.exited == {}; }
      w :| w in s.running;
    }
  }

  lemma HandlerCanHelp(s: Sys, k: nat, p: nat)
    requires WorkerPool.Inv(s.pool) && !s.crashed && !s.pool.stopping && IsAt(s, k, InPool(p)) && p < |s.pool.started|
    ensures CanHelp(s, InPool(p), Complete(p, ResponseResult("", false), true))
  {
    StartedFirst(s.pool, p);
    hide WorkerPool.Inv;
  }

  lemma SignalCanHelp(s: Sys, i: nat)
    requires LoopQueue.Inv(s.loop) && !s.crashed && !s.pool.stopping && Unsignalled(s.loop, i) && i < |s.loop.pushed|
    ensures CanHelp(s, InLoop(i), LoopAction(LoopQueue.DoSignal))
  {
    assert |s.loop.pushed| == |s.loop.executed| + |s.loop.batch| + |s.loop.pending|;
  }

  // The next step of the loop thread while it dispatches or runs tasks.
  function NextEvent(s: Sys): Label
    requires s.loop.phase == LoopQueue.Dispatching
  {
    if s.loop.ready == [] then LoopAction(LoopQueue.DoStartTimers(s.clock))
    else if s.loop.ready[0] == LoopQueue.Wakeup then LoopAction(LoopQueue.DoReadCounter)
    else DispatchSocket([], [], s.clock, s.clock)
  }

  lemma EventCanHelp(s: Sys, i: nat)
    requires s.loop.phase == LoopQueue.Dispatching && !s.crashed && !s.pool.stopping && !Unsignalled(s.loop, i)
    ensures CanHelp(s, InLoop(i), NextEvent(s))
  {
  }

  lemma TaskCanHelp(s: Sys, i: nat)
    requires s.loop.phase == LoopQueue.RunningTasks && !s.crashed && !s.pool.stopping && !Unsignalled(s.loop, i)
    ensures CanHelp(s, InLoop(i), if s.loop.batch == [] then LoopAction(LoopQueue.DoBatchDone) else RunTask([], s.clock))
  {
  }

  lemma TimerCanHelp(s: Sys, i: nat)
    requires s.loop.phase.RunningTimers? && !s.crashed && !s.pool.stopping && !Unsignalled(s.loop, i)
    ensures exists l :: CanHelp(s, InLoop(i), l)
  {
    var now := s.loop.phase.now;
    if t :| t in s.timers && t.expires <= now {
      var top := TopExists(s.timers);
      assert CanHelp(s, InLoop(i), PopTimer(top, s.clock));
    } else {
      assert CanHelp(s, InLoop(i), LoopAction(LoopQueue.DoTimersDone));
    }
  }

  lemma WaitingCanHelp(s: Sys, i: nat)
    requires !s.crashed && !s.pool.stopping && !Unsignalled(s.loop, i)
    ensures s.loop.phase == LoopQueue.Checking ==> CanHelp(s, InLoop(i), LoopAction(LoopQueue.DoCheck))
    ensures s.loop.phase == LoopQueue.PastRead ==> CanHelp(s, InLoop(i), LoopAction(LoopQueue.DoSwap))
    ensures s.loop.phase == LoopQueue.Waiting && s.loop.counter > 0 ==>
      CanHelp(s, InLoop(i), LoopAction(LoopQueue.DoReport([LoopQueue.Wakeup])))
  {
  }

  lemma LoopCanHelp(s: Sys, i: nat)
    requires LoopQueue.Inv(s.loop) && !s.crashed && !s.pool.stopping
    requires s.loop.phase != LoopQueue.Exited && !Unsignalled(s.loop, i) && |s.loop.executed| <= i < |s.loop.pushed|
    ensures exists l :: CanHelp(s, InLoop(i), l)
  {
    hide CanHelp, Unsignalled, LoopQueue.Inv, NextEvent;
    AnnouncedAwake(s.loop, i);
    WaitingCanHelp(s, i);
    if s.loop.phase == LoopQueue.Dispatching {
      EventCanHelp(s, i);
    } else if s.loop.phase == LoopQueue.RunningTasks {
      TaskCanHelp(s, i);
    } else if s.loop.phase.RunningTimers? {
      TimerCanHelp(s, i);
    }
  }

  // While a connection waits and the loop has not been told to quit there is always a step
  // that brings its answer nearer: by a worker, a notifier, the handler, the producer of an
  // announced task or the loop thread. So the program is never deadlocked, and only a thread
  // that is never scheduled, or a handler that never completes, can withhold an answer.
  lemma SomebodyHelps(s: Sys, k: nat, place: Place)
    requires Reachable(s) && IsAt(s, k, place) && s.loop.phase != LoopQueue.Exited
    ensures exists l :: CanHelp(s, place, l)
  {
    ReachableInv(s);
    ReachableHasWorkers(s);
    Parts(s);
    assert WorkerPool.Inv(s.pool) && LoopQueue.Inv(s.loop);
    match place
    case InPool(p) =>
      PoolPlace(s, k, p);
      hide *;
      if p < |s.pool.started| {
        HandlerCanHelp(s, k, p);
      } else {
        var w := SomeWorker(s.pool, p);
        WorkersCanHelp(s, p, w);
      }
    case InLoop(i) =>
      LoopPlace(s, k, i);
      hide *;
      if Unsignalled(s.loop, i) {
        SignalCanHelp(s, i);
      } else {
        LoopCanHelp(s, i);
      }
  }
}
