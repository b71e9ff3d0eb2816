// Every atomic action keeps the invariant of Server.dfy, whatever the interleaving.
module ServerProof {
  import opened Framing
  import opened TcpProtocol
  import LoopQueue
  import WorkerPool
  import opened Server

  // Taking the invariant apart and putting it together again, for proofs that hide it.
  lemma Parts(s: Sys)
    requires Inv(s)
    ensures CoreInv(s) && LiveOk(s) && TimersOk(s)
    ensures !s.crashed && !s.pool.stopping && LoopQueue.Inv(s.loop) && WorkerPool.Inv(s.pool)
    ensures ConnsOk(s) && FdsOk(s) && ReadyOk(s) && TicketsOk(s) && ClocksOk(s)
  {
  }

  lemma Assemble(s: Sys)
    requires !s.crashed && !s.pool.stopping && LoopQueue.Inv(s.loop) && WorkerPool.Inv(s.pool)
    requires ConnsOk(s) && FdsOk(s) && ReadyOk(s) && TicketsOk(s) && ClocksOk(s) && LiveOk(s) && TimersOk(s)
    ensures Inv(s)
  {
  }

  // --- one callback of connection k, whatever it was -------------------------------

  ghost predicate GoodCallback(s: Sys, k: nat, t: Turn, now: int) {
    && k in s.conns && s.clock <= now && !s.pool.stopping
    && TurnOk(t) && CallbackStep(TurnOf(s, k), t, now)
  }

  lemma AbsorbConns(s: Sys, k: nat, t: Turn, now: int)
    requires ConnsOk(s) && GoodCallback(s, k, t, now)
    ensures ConnsOk(Absorb(s, k, t, now))
  {
    hide ConnOk;
    var s' := Absorb(s, k, t, now);
    forall j | j in s'.conns ensures s'.conns[j].id == j && j < s'.nextConn && TurnOk(TurnOf(s', j)) {
      if j != k {
        assert TurnOk(TurnOf(s, j)) && TurnOk(TurnOf(s, k));
      }
    }
  }

  lemma AbsorbFds(s: Sys, k: nat, t: Turn, now: int)
    requires ConnsOk(s) && FdsOk(s) && GoodCallback(s, k, t, now)
    ensures FdsOk(Absorb(s, k, t, now))
  {
    hide ConnOk;
    var s' := Absorb(s, k, t, now);
    assert TurnOk(TurnOf(s, k));
    forall j | j in s'.conns && s'.conns[j].fd >= 0
      ensures s'.conns[j].fd in s'.fds && s'.fds[s'.conns[j].fd] == Some(j) && s'.conns[j].fd in s'.channels
    {
      assert TurnOk(TurnOf(s, j));
    }
    forall f | f in s'.channels
      ensures f >= 0 && s'.channels[f].conn in s'.conns && s'.conns[s'.channels[f].conn].fd == f
    {
      assert f == s.conns[k].fd || s'.channels[f] == s.channels[f];
    }
    forall i | Outstanding(s', i) && s'.loop.pushed[i].EstablishTask?
      ensures var task := s'.loop.pushed[i];
        task.conn !in s'.conns && task.fd >= 0 && task.fd in s'.fds && s'.fds[task.fd] == Some(task.conn)
    {
      assert Outstanding(s, i);
    }
  }

  // A callback may close a connection with a reported event only while tasks are run.
  lemma AbsorbReady(s: Sys, k: nat, t: Turn, now: int)
    requires LoopQueue.Inv(s.loop) && ConnsOk(s) && FdsOk(s) && ReadyOk(s) && GoodCallback(s, k, t, now)
    requires EventsSurvive(s, k, t)
    ensures ReadyOk(Absorb(s, k, t, now))
  {
    hide ConnOk;
    var s' := Absorb(s, k, t, now);
    assert TurnOk(TurnOf(s, k));
    forall e | e in s'.loop.ready ensures EventOk(s', e) {
      assert EventOk(s, e);
      if e.Socket? && e.fd in s.channels && e.fd !in s'.channels {
        forall task | task in s.loop.batch && task.EstablishTask? ensures task.fd != e.fd {
          var i :| 0 <= i < |s.loop.batch| && s.loop.batch[i] == task;
          assert s.loop.pushed[|s.loop.executed| + i] == task;
          assert Outstanding(s, |s.loop.executed| + i);
        }
      }
    }
  }

  lemma AbsorbRequests(s: Sys, k: nat, t: Turn, now: int, p: nat)
    requires GoodCallback(s, k, t, now) && Accounted(t.conn) && s.conns[k].id == k
    requires forall q :: 0 <= q < |s.pool.submitted| ==> IsRequest(s, s.pool.submitted[q])
    ensures var s' := Absorb(s, k, t, now);
      p < |s'.pool.submitted| ==> IsRequest(s', s'.pool.submitted[p])
  {
    hide IsFrame, TurnOk;
    if p < |s.pool.submitted| {
      assert IsRequest(s, s.pool.submitted[p]);
    }
  }

  lemma AbsorbNewRequest(s: Sys, k: nat, t: Turn, now: int, p: nat, q: nat)
    requires GoodCallback(s, k, t, now) && s.conns[k].id == k && |s.conns[k].dispatched| == s.conns[k].requestGeneration
    requires forall r :: 0 <= r < |s.pool.submitted| ==> IsRequest(s, s.pool.submitted[r])
    requires forall v, w :: 0 <= v < w < |s.pool.submitted| && s.pool.submitted[v].Serve? ==> s.pool.submitted[v] != s.pool.submitted[w]
    ensures var s' := Absorb(s, k, t, now);
      p < q < |s'.pool.submitted| && s'.pool.submitted[p].Serve? ==> s'.pool.submitted[p] != s'.pool.submitted[q]
  {
    hide TurnOk;
    if p < |s.pool.submitted| {
      assert IsRequest(s, s.pool.submitted[p]);
    }
  }

  lemma AbsorbTickets(s: Sys, k: nat, t: Turn, now: int)
    requires ConnsOk(s) && TicketsOk(s) && GoodCallback(s, k, t, now)
    requires AllIssued(s, k, t.conn.answered)
    ensures TicketsOk(Absorb(s, k, t, now))
  {
    var s' := Absorb(s, k, t, now);
    assert TurnOk(TurnOf(s, k)) && TurnOk(t);
    hide Issued, NothingStranded, ClosedCleanly, IsFrame, IsRequest, CallbackStep, GoodCallback;
    forall p: nat | p < |s'.pool.submitted| ensures IsRequest(s', s'.pool.submitted[p]) {
      AbsorbRequests(s, k, t, now, p);
    }
    forall p: nat, q: nat | p < q < |s'.pool.submitted| && s'.pool.submitted[p].Serve?
      ensures s'.pool.submitted[p] != s'.pool.submitted[q]
    {
      AbsorbNewRequest(s, k, t, now, p, q);
    }
  }

  lemma AwaitedStays(s: Sys, s': Sys, k: nat, id: nat)
    requires Awaited(s, k, id)
    requires s.pool.submitted <= s'.pool.submitted && s.loop.pushed <= s'.loop.pushed
    requires s'.completed == s.completed && s'.loop.executed == s.loop.executed
    ensures Awaited(s', k, id)
  {
    if p :| 0 <= p < |s.pool.submitted| && p !in s.completed && IsJobOf(s.pool.submitted[p], k, id) {
      assert IsJobOf(s'.pool.submitted[p], k, id);
    } else {
      var i :| Outstanding(s, i) && IsResponseTo(s.loop.pushed[i], k, id);
      assert Outstanding(s', i) && IsResponseTo(s'.loop.pushed[i], k, id);
    }
  }

  lemma AbsorbLive(s: Sys, k: nat, t: Turn, now: int)
    requires TicketsOk(s) && WorkerPool.Inv(s.pool) && GoodCallback(s, k, t, now) && s.conns[k].id == k
    requires OthersLive(s, k)
    requires t.conn.fd >= 0 && t.conn.processing && t.conn.requestGeneration == s.conns[k].requestGeneration ==>
      Awaited(s, k, t.conn.requestGeneration)
    ensures LiveOk(Absorb(s, k, t, now))
  {
    hide TurnOk, Awaited;
    var s' := Absorb(s, k, t, now);
    forall j | j in s'.conns && s'.conns[j].fd >= 0 && s'.conns[j].processing
      ensures Awaited(s', j, s'.conns[j].requestGeneration)
    {
      if j != k || t.conn.requestGeneration == s.conns[k].requestGeneration {
        AwaitedStays(s, s', j, s'.conns[j].requestGeneration);
      } else {
        NewJobAwaited(s', j, t.conn.requestGeneration, |s.pool.submitted|);
      }
    }
  }

  lemma NewJobAwaited(s: Sys, k: nat, id: nat, p: nat)
    requires p < |s.pool.submitted| && p !in s.completed && IsJobOf(s.pool.submitted[p], k, id)
    ensures Awaited(s, k, id)
  {
  }

  lemma AbsorbTimers(s: Sys, k: nat, t: Turn, now: int)
    requires TimersOk(s) && ClocksOk(s) && GoodCallback(s, k, t, now) && t.timers == s.timers
    ensures TimersOk(Absorb(s, k, t, now))
  {
    hide TurnOk;
    var s' := Absorb(s, k, t, now);
    forall timer | timer in s'.timers ensures TimerOk(s', timer) {
      assert TimerOk(s, timer);
    }
  }

  lemma AbsorbClocks(s: Sys, k: nat, t: Turn, now: int)
    requires ClocksOk(s) && GoodCallback(s, k, t, now)
    ensures ClocksOk(Absorb(s, k, t, now))
  {
    hide TurnOk;
  }

  lemma AbsorbPool(s: Sys, k: nat, t: Turn, now: int)
    requires WorkerPool.Inv(s.pool) && GoodCallback(s, k, t, now)
    ensures WorkerPool.Inv(Absorb(s, k, t, now).pool)
  {
    hide WorkerPool.Inv, TurnOk;
    if t.jobs != [] {
      WorkerPool.ActionKeepsInv(s.pool, WorkerPool.DoSubmit(t.jobs[0]));
    }
  }

  // Reported events of the connection survive the callback.
  ghost predicate EventsSurvive(s: Sys, k: nat, t: Turn)
    requires k in s.conns
  {
    forall e <- s.loop.ready :: e.Socket? && e.fd == s.conns[k].fd ==>
      && (e.events.writable ==> t.conn == s.conns[k])
      && (t.conn.fd < 0 ==> s.loop.phase == LoopQueue.RunningTasks)
  }

  ghost predicate AllIssued(s: Sys, k: nat, answered: seq<ResponseResult>) {
    forall i :: 0 <= i < |answered| ==> Issued(s.issued, k, i + 1, answered[i])
  }

  ghost predicate OthersLive(s: Sys, k: nat) {
    forall j <- s.conns :: j != k && s.conns[j].fd >= 0 && s.conns[j].processing ==>
      Awaited(s, j, s.conns[j].requestGeneration)
  }

  lemma AbsorbAll(s: Sys, k: nat, t: Turn, now: int)
    requires CoreInv(s) && GoodCallback(s, k, t, now)
    requires EventsSurvive(s, k, t) && AllIssued(s, k, t.conn.answered) && OthersLive(s, k)
    requires t.conn.fd >= 0 && t.conn.processing && t.conn.requestGeneration == s.conns[k].requestGeneration ==>
      Awaited(s, k, t.conn.requestGeneration)
    ensures CoreInv(Absorb(s, k, t, now)) && LiveOk(Absorb(s, k, t, now))
  {
    assert s.conns[k].id == k;
    hide GoodCallback, TurnOk, FdsOk, ReadyOk, TicketsOk, ClocksOk, LoopQueue.Inv, WorkerPool.Inv, Issued, Awaited;
    AbsorbConns(s, k, t, now);
    AbsorbFds(s, k, t, now);
    AbsorbReady(s, k, t, now);
    AbsorbTickets(s, k, t, now);
    AbsorbLive(s, k, t, now);
    AbsorbClocks(s, k, t, now);
    AbsorbPool(s, k, t, now);
  }

  // --- dispatching a reported event -------------------------------------------------

  lemma HandleReadFrame(t: Turn, recvs: seq<Recv>, now: int)
    ensures HandleRead(t, recvs, now).timers == t.timers
    ensures HandleRead(t, recvs, now).conn.answered == t.conn.answered
  {
    hide RecvBytes, RecvOutcome, FrameEnd;
  }

  lemma HandleWriteFrame(t: Turn, sends: seq<Send>, now: int)
    requires MayWrite(t)
    ensures HandleWrite(t, sends, now).timers == t.timers
    ensures HandleWrite(t, sends, now).conn.answered == t.conn.answered
  {
    hide SentCount, SendOutcome, FrameEnd;
  }

  lemma HandleEventFrame(t: Turn, events: Events, recvs: seq<Recv>, sends: seq<Send>, readNow: int, writeNow: int)
    requires !events.failed && events.writable ==>
      MayWrite(if events.readable then HandleRead(t, recvs, readNow) else t)
    ensures HandleEvent(t, events, recvs, sends, readNow, writeNow).timers == t.timers
    ensures HandleEvent(t, events, recvs, sends, readNow, writeNow).conn.answered == t.conn.answered
  {
    hide HandleRead, HandleWrite;
    HandleReadFrame(t, recvs, readNow);
    if !events.failed && events.writable {
      HandleWriteFrame(if events.readable then HandleRead(t, recvs, readNow) else t, sends, writeNow);
    }
  }

  // Invariants that see of the hand-off queue only what was pushed and what has run.
  lemma LoopChanged(s: Sys, s': Sys)
    requires s' == s.(loop := s'.loop) && s'.loop.pushed == s.loop.pushed && |s'.loop.executed| >= |s.loop.executed|
    requires s'.loop.phase.RunningTimers? ==> s'.loop.phase == s.loop.phase || s'.loop.phase.now <= s.clock
    requires ConnsOk(s) && FdsOk(s) && ClocksOk(s)
    ensures ConnsOk(s') && FdsOk(s') && ClocksOk(s')
  {
    hide TurnOk;
    forall k | k in s'.conns ensures TurnOk(TurnOf(s', k)) {
      assert TurnOf(s', k) == TurnOf(s, k);
    }
    forall i | Outstanding(s', i) ensures Outstanding(s, i) {
    }
  }

  lemma LoopChangedTickets(s: Sys, s': Sys)
    requires s' == s.(loop := s'.loop) && s'.loop.pushed == s.loop.pushed
    requires TicketsOk(s)
    ensures TicketsOk(s')
  {
    hide Issued;
    forall p | 0 <= p < |s'.pool.submitted| ensures IsRequest(s', s'.pool.submitted[p]) {
      assert IsRequest(s, s.pool.submitted[p]);
    }
  }

  lemma LoopChangedTimers(s: Sys, s': Sys)
    requires s' == s.(loop := s'.loop)
    requires TimersOk(s)
    ensures TimersOk(s')
  {
    forall t | t in s'.timers ensures TimerOk(s', t) {
      assert TimerOk(s, t);
    }
  }

  lemma LoopChangedLive(s: Sys, s': Sys)
    requires s' == s.(loop := s'.loop) && s.loop.pushed <= s'.loop.pushed && s'.loop.executed == s.loop.executed
    requires LiveOk(s)
    ensures LiveOk(s')
  {
    hide Awaited;
    forall k | k in s'.conns && s'.conns[k].fd >= 0 && s'.conns[k].processing
      ensures Awaited(s', k, s'.conns[k].requestGeneration)
    {
      AwaitedStays(s, s', k, s.conns[k].requestGeneration);
    }
  }

  lemma SocketTaken(s: Sys)
    requires Inv(s) && LoopQueue.AtSocket(s.loop)
    ensures Inv(s.(loop := LoopQueue.NextSocket(s.loop)))
    ensures forall e <- LoopQueue.NextSocket(s.loop).ready :: e.Socket? ==> e.fd != s.loop.ready[0].fd
  {
    var s1 := s.(loop := LoopQueue.NextSocket(s.loop));
    LoopQueue.ActionKeepsInv(s.loop, LoopQueue.DoNextSocket);
    assert ReadyOk(s1) by {
      forall e | e in s1.loop.ready ensures EventOk(s1, e) {
        assert EventOk(s, e);
      }
    }
    hide ConnsOk, FdsOk, EventOk, TicketsOk, TimersOk, ClocksOk, LiveOk, LoopQueue.Inv, WorkerPool.Inv;
    LoopChanged(s, s1);
    LoopChangedTickets(s, s1);
    LoopChangedTimers(s, s1);
    LoopChangedLive(s, s1);
  }

  lemma DispatchKeeps(s: Sys, recvs: seq<Recv>, sends: seq<Send>, readNow: int, now: int)
    requires Inv(s) && Enabled(s, DispatchSocket(recvs, sends, readNow, now))
    ensures Inv(Apply(s, DispatchSocket(recvs, sends, readNow, now)))
  {
    hide TurnOk, CallbackStep, FdsOk, TicketsOk, TimersOk, ClocksOk, LoopQueue.Inv, WorkerPool.Inv;
    var e := s.loop.ready[0];
    var s1 := s.(loop := LoopQueue.NextSocket(s.loop));
    assert EventOk(s, e);
    SocketTaken(s);
    if e.fd in s1.channels {
      var k := s1.channels[e.fd].conn;
      ChannelOwner(s1, e.fd);
      var t := TurnOf(s1, k);
      HandleEventKeeps(t, e.events, recvs, sends, readNow, now);
      HandleEventFrame(t, e.events, recvs, sends, readNow, now);
      var t' := HandleEvent(t, e.events, recvs, sends, readNow, now);
      StillAwaited(s1, k, t', now);
      AnsweredBefore(s1, k);
      AbsorbAll(s1, k, t', now);
      AbsorbTimers(s1, k, t', now);
    }
  }

  lemma ChannelOwner(s: Sys, fd: int)
    requires FdsOk(s) && fd in s.channels
    ensures fd >= 0 && s.channels[fd].conn in s.conns && s.conns[s.channels[fd].conn].fd == fd
  {
  }

  lemma AnsweredBefore(s: Sys, k: nat)
    requires TicketsOk(s) && k in s.conns
    ensures AllIssued(s, k, s.conns[k].answered)
  {
    hide Issued;
  }

  lemma StillAwaited(s: Sys, k: nat, t: Turn, now: int)
    requires LiveOk(s) && k in s.conns && CallbackStep(TurnOf(s, k), t, now) && s.conns[k].fd >= 0
    ensures t.conn.fd >= 0 && t.conn.processing && t.conn.requestGeneration == s.conns[k].requestGeneration ==>
      Awaited(s, k, t.conn.requestGeneration)
  {
  }

  // --- running a task ---------------------------------------------------------------

  // What taking a task off the batch leaves intact.
  lemma TaskTaken(s: Sys)
    requires Inv(s) && LoopQueue.AtTask(s.loop)
    ensures CoreInv(s.(loop := LoopQueue.NextTask(s.loop))) && TimersOk(s.(loop := LoopQueue.NextTask(s.loop)))
    ensures s.loop.pushed[|s.loop.executed|] == s.loop.batch[0]
  {
    var s1 := s.(loop := LoopQueue.NextTask(s.loop));
    LoopQueue.ActionKeepsInv(s.loop, LoopQueue.DoNextTask);
    assert ReadyOk(s1) by {
      forall e | e in s1.loop.ready ensures EventOk(s1, e) {
        assert EventOk(s, e);
      }
    }
    assert s.loop.pushed[|s.loop.executed|] == s.loop.batch[0];
    hide ConnsOk, FdsOk, ReadyOk, TicketsOk, TimersOk, ClocksOk, LoopQueue.Inv, WorkerPool.Inv;
    LoopChanged(s, s1);
    LoopChangedTickets(s, s1);
    LoopChangedTimers(s, s1);
  }

  lemma AwaitedPastTask(s: Sys, k: nat, id: nat)
    requires Inv(s) && LoopQueue.AtTask(s.loop) && Awaited(s, k, id)
    requires !IsResponseTo(s.loop.batch[0], k, id)
    ensures Awaited(s.(loop := LoopQueue.NextTask(s.loop)), k, id)
  {
    hide ConnsOk, FdsOk, ReadyOk, TicketsOk, TimersOk, ClocksOk, LiveOk, WorkerPool.Inv;
    var s1 := s.(loop := LoopQueue.NextTask(s.loop));
    if p :| 0 <= p < |s.pool.submitted| && p !in s.completed && IsJobOf(s.pool.submitted[p], k, id) {
      NewJobAwaited(s1, k, id, p);
    } else {
      var i :| Outstanding(s, i) && IsResponseTo(s.loop.pushed[i], k, id);
      assert s.loop.pushed[|s.loop.executed|] == s.loop.batch[0];
      assert Outstanding(s1, i) && IsResponseTo(s1.loop.pushed[i], k, id);
    }
  }

  lemma FinishRequestFrame(t: Turn, id: nat, result: ResponseResult, sends: seq<Send>, now: int)
    requires AcceptsResponse(t.conn, id) ==> t.conn.fd in t.channels
    ensures FinishRequest(t, id, result, sends, now).timers == t.timers
    ensures FinishRequest(t, id, result, sends, now).conn.answered ==
      if AcceptsResponse(t.conn, id) then t.conn.answered + [result] else t.conn.answered
  {
    hide HandleWrite;
    if AcceptsResponse(t.conn, id) {
      HandleWriteFrame(t.(conn := TakeResponse(t.conn, result)), sends, now);
    }
  }

  lemma EventsOf(s: Sys, k: nat)
    requires ConnsOk(s) && FdsOk(s) && ReadyOk(s) && k in s.conns
    ensures forall e <- s.loop.ready :: e.Socket? && e.fd == s.conns[k].fd && e.events.writable && e.fd >= 0 ==>
      s.conns[k].responseReady
  {
    assert TurnOk(TurnOf(s, k));
    forall e | e in s.loop.ready && e.Socket? && e.fd == s.conns[k].fd && e.events.writable && e.fd >= 0
      ensures s.conns[k].responseReady
    {
      assert EventOk(s, e);
    }
  }

  // A finishing task's response reaches its own request or nobody.
  ghost predicate FinishOutcome(c: Conn, task: Task, c': Conn)
    requires task.FinishTask?
  {
    if AcceptsResponse(c, task.id) then
      && c'.answered == c.answered + [task.result]
      && (c'.processing ==> c'.requestGeneration == c.requestGeneration + 1)
    else c' == c
  }

  lemma FinishOutcomeOf(t: Turn, task: Task, sends: seq<Send>, now: int)
    requires TurnOk(t) && task.FinishTask?
    ensures var t' := FinishRequest(t, task.id, task.result, sends, now);
      && TurnOk(t') && CallbackStep(t, t', now) && t'.timers == t.timers && FinishOutcome(t.conn, task, t'.conn)
  {
    FinishRequestKeeps(t, task.id, task.result, sends, now);
    hide ConnOk, CallbackStep, HandleWrite;
    FinishRequestFrame(t, task.id, task.result, sends, now);
  }

  lemma AnswersAfterFinish(s: Sys, t: Turn)
    requires Inv(s) && LoopQueue.AtTask(s.loop) && s.loop.batch[0].FinishTask? && s.loop.batch[0].conn in s.conns
    requires FinishOutcome(s.conns[s.loop.batch[0].conn], s.loop.batch[0], t.conn)
    ensures AllIssued(s, s.loop.batch[0].conn, t.conn.answered)
  {
    hide Issued, FdsOk, ReadyOk, LiveOk, TimersOk, ClocksOk, WorkerPool.Inv;
    var k := s.loop.batch[0].conn;
    assert TurnOk(TurnOf(s, k));
    assert s.loop.pushed[|s.loop.executed|] == s.loop.batch[0];
    AnsweredBefore(s, k);
  }

  lemma AwaitedAfterFinish(s: Sys, t: Turn)
    requires Inv(s) && LoopQueue.AtTask(s.loop) && s.loop.batch[0].FinishTask? && s.loop.batch[0].conn in s.conns
    requires FinishOutcome(s.conns[s.loop.batch[0].conn], s.loop.batch[0], t.conn)
    ensures var k := s.loop.batch[0].conn;
      var s1 := s.(loop := LoopQueue.NextTask(s.loop));
      && OthersLive(s1, k)
      && (t.conn.fd >= 0 && t.conn.processing && t.conn.requestGeneration == s.conns[k].requestGeneration ==>
            Awaited(s1, k, t.conn.requestGeneration))
  {
    var k, id := s.loop.batch[0].conn, s.loop.batch[0].id;
    var s1 := s.(loop := LoopQueue.NextTask(s.loop));
    hide Awaited, ConnsOk, FdsOk, ReadyOk, TicketsOk, TimersOk, ClocksOk, WorkerPool.Inv, LoopQueue.Inv;
    forall j | j in s1.conns && j != k && s1.conns[j].fd >= 0 && s1.conns[j].processing
      ensures Awaited(s1, j, s1.conns[j].requestGeneration)
    {
      AwaitedPastTask(s, j, s.conns[j].requestGeneration);
    }
    var c := s.conns[k];
    if c.fd >= 0 && c.processing && id != c.requestGeneration {
      AwaitedPastTask(s, k, c.requestGeneration);
    }
  }

  lemma EventsAtFinish(s: Sys, t: Turn)
    requires Inv(s) && LoopQueue.AtTask(s.loop) && s.loop.batch[0].FinishTask? && s.loop.batch[0].conn in s.conns
    requires FinishOutcome(s.conns[s.loop.batch[0].conn], s.loop.batch[0], t.conn)
    ensures EventsSurvive(s.(loop := LoopQueue.NextTask(s.loop)), s.loop.batch[0].conn, t)
  {
    var k := s.loop.batch[0].conn;
    assert TurnOk(TurnOf(s, k));
    hide ConnsOk, FdsOk, TicketsOk, LiveOk, TimersOk, ClocksOk, WorkerPool.Inv;
    EventsOf(s, k);
  }

  lemma FinishTaskKeeps(s: Sys, sends: seq<Send>, now: int)
    requires Inv(s) && LoopQueue.AtTask(s.loop) && s.loop.batch[0].FinishTask? && s.loop.batch[0].conn in s.conns
    requires s.clock <= now
    ensures Inv(Run(s.(loop := LoopQueue.NextTask(s.loop)), s.loop.batch[0], sends, now))
  {
    var task := s.loop.batch[0];
    var s1 := s.(loop := LoopQueue.NextTask(s.loop));
    var t := TurnOf(s1, task.conn);
    assert TurnOk(TurnOf(s, task.conn)) && t == TurnOf(s, task.conn);
    assert AcceptsResponse(t.conn, task.id) ==> t.conn.fd in t.channels;
    var t' := FinishRequest(t, task.id, task.result, sends, now);
    assert Run(s1, task, sends, now) == Absorb(s1, task.conn, t', now);
    hide *;
    FinishOutcomeOf(t, task, sends, now);
    TaskTaken(s);
    AnswersAfterFinish(s, t');
    AwaitedAfterFinish(s, t');
    EventsAtFinish(s, t');
    FinishAbsorbed(s, s1, task.conn, t, t', now);
  }

  lemma FinishAbsorbed(s: Sys, s1: Sys, k: nat, t: Turn, t': Turn, now: int)
    requires Inv(s) && LoopQueue.AtTask(s.loop) && s1 == s.(loop := LoopQueue.NextTask(s.loop))
    requires CoreInv(s1) && TimersOk(s1)
    requires k in s1.conns && t == TurnOf(s1, k) && s.clock <= now
    requires TurnOk(t') && CallbackStep(t, t', now) && t'.timers == t.timers
    requires EventsSurvive(s1, k, t') && AllIssued(s, k, t'.conn.answered) && OthersLive(s1, k)
    requires t'.conn.fd >= 0 && t'.conn.processing && t'.conn.requestGeneration == s.conns[k].requestGeneration ==>
      Awaited(s1, k, t'.conn.requestGeneration)
    ensures Inv(Absorb(s1, k, t', now))
  {
    hide TurnOk, CallbackStep, EventsSurvive, OthersLive, Awaited, ConnsOk, FdsOk, ReadyOk, TicketsOk, TimersOk, ClocksOk, LiveOk;
    hide WorkerPool.Inv, LoopQueue.Inv, Issued;
    AbsorbAll(s1, k, t', now);
    AbsorbTimers(s1, k, t', now);
  }

  lemma EstablishFree(s: Sys, k: nat, fd: int)
    requires Inv(s) && LoopQueue.AtTask(s.loop) && s.loop.batch[0] == EstablishTask(k, fd)
    ensures k !in s.conns && k < s.nextConn && fd >= 0 && fd in s.fds && s.fds[fd] == Some(k) && fd !in s.channels
    ensures forall e <- s.loop.ready :: e.Socket? ==> e.fd != fd
    ensures forall i :: |s.loop.executed| < i < |s.loop.pushed| && s.loop.pushed[i].EstablishTask? ==> s.loop.pushed[i].conn != k
  {
    hide TurnOk, TicketsOk, TimersOk, LiveOk, WorkerPool.Inv;
    assert Outstanding(s, |s.loop.executed|) && s.loop.pushed[|s.loop.executed|] == EstablishTask(k, fd);
    forall e | e in s.loop.ready && e.Socket? ensures e.fd != fd {
      assert EventOk(s, e);
      assert s.loop.batch[0] in s.loop.batch;
    }
  }

  lemma EstablishTurn(k: nat, fd: int, idleTimeout: int, channels: map<int, Channel>, timers: multiset<Timer>, now: int)
    requires fd >= 0
    ensures TurnOk(Establish(Turn(FreshConn(k, fd, idleTimeout), channels, timers, []), now))
  {
    assert "" + "" == Concat([]);
  }

  lemma EstablishKeepsConns(s: Sys, k: nat, fd: int, now: int)
    requires ConnsOk(s) && FdsOk(s) && k !in s.conns && k < s.nextConn && fd >= 0 && fd !in s.channels
    ensures ConnsOk(EstablishConn(s, k, fd, now))
  {
    hide ConnOk;
    var s' := EstablishConn(s, k, fd, now);
    EstablishTurn(k, fd, s.idleTimeout, s.channels, s.timers, now);
    forall j | j in s'.conns ensures s'.conns[j].id == j && j < s'.nextConn && TurnOk(TurnOf(s', j)) {
      if j != k {
        assert TurnOk(TurnOf(s, j));
      }
    }
  }

  lemma EstablishKeepsFds(s: Sys, k: nat, fd: int, now: int)
    requires FdsOk(s) && k !in s.conns && fd >= 0 && fd in s.fds && s.fds[fd] == Some(k) && fd !in s.channels
    requires forall i :: Outstanding(s, i) && s.loop.pushed[i].EstablishTask? ==> s.loop.pushed[i].conn != k
    ensures FdsOk(EstablishConn(s, k, fd, now))
  {
    var s' := EstablishConn(s, k, fd, now);
    forall i | Outstanding(s', i) && s'.loop.pushed[i].EstablishTask?
      ensures var task := s'.loop.pushed[i];
        task.conn !in s'.conns && task.fd >= 0 && task.fd in s'.fds && s'.fds[task.fd] == Some(task.conn)
    {
      assert Outstanding(s, i);
    }
  }

  lemma EstablishKeepsReady(s: Sys, k: nat, fd: int, now: int)
    requires ReadyOk(s) && k !in s.conns && (forall e <- s.loop.ready :: e.Socket? ==> e.fd != fd)
    requires FdsOk(s)
    ensures ReadyOk(EstablishConn(s, k, fd, now))
  {
    var s' := EstablishConn(s, k, fd, now);
    forall e | e in s'.loop.ready ensures EventOk(s', e) {
      assert EventOk(s, e);
    }
  }

  lemma EstablishKeepsTickets(s: Sys, k: nat, fd: int, now: int)
    requires TicketsOk(s) && k !in s.conns
    ensures TicketsOk(EstablishConn(s, k, fd, now))
  {
    hide Issued;
    var s' := EstablishConn(s, k, fd, now);
    forall p | 0 <= p < |s'.pool.submitted| ensures IsRequest(s', s'.pool.submitted[p]) {
      assert IsRequest(s, s.pool.submitted[p]);
    }
  }

  lemma EstablishKeepsLive(s: Sys, k: nat, fd: int, now: int)
    requires OthersLive(s, k)
    ensures LiveOk(EstablishConn(s, k, fd, now))
  {
    hide Awaited;
    var s' := EstablishConn(s, k, fd, now);
    forall j | j in s'.conns && s'.conns[j].fd >= 0 && s'.conns[j].processing
      ensures Awaited(s', j, s'.conns[j].requestGeneration)
    {
      AwaitedStays(s, s', j, s.conns[j].requestGeneration);
    }
  }

  lemma AddTimer(timers: multiset<Timer>, t: Timer)
    requires OnePerConn(timers) && !HasTimer(timers, t.conn)
    ensures OnePerConn(timers + multiset{t})
    ensures forall k :: HasTimer(timers + multiset{t}, k) <==> HasTimer(timers, k) || k == t.conn
  {
    forall k ensures HasTimer(timers + multiset{t}, k) <==> HasTimer(timers, k) || k == t.conn {
      if HasTimer(timers, k) {
        var u :| u in timers && u.conn == k;
        assert u in timers + multiset{t};
      } else if k == t.conn {
        assert t in timers + multiset{t};
      }
    }
  }

  lemma RemoveTimer(timers: multiset<Timer>, t: Timer)
    requires OnePerConn(timers) && t in timers
    ensures OnePerConn(timers - multiset{t})
    ensures forall u <- timers - multiset{t} :: u in timers && u.conn != t.conn
    ensures forall k :: HasTimer(timers - multiset{t}, k) <==> HasTimer(timers, k) && k != t.conn
  {
    forall k ensures HasTimer(timers - multiset{t}, k) <==> HasTimer(timers, k) && k != t.conn {
      if HasTimer(timers, k) && k != t.conn {
        var u :| u in timers && u.conn == k;
        assert u in timers - multiset{t};
      }
    }
  }

  lemma EstablishKeepsClocks(s: Sys, k: nat, fd: int, now: int)
    requires ClocksOk(s) && k !in s.conns && s.clock <= now
    ensures ClocksOk(EstablishConn(s, k, fd, now))
  {
  }

  lemma EstablishKeepsTimer(s: Sys, k: nat, fd: int, now: int, t: Timer)
    requires TimerOk(s, t) && k !in s.conns && s.clock <= now
    ensures TimerOk(EstablishConn(s, k, fd, now), t)
  {
  }

  lemma EstablishAddsTimer(s: Sys, k: nat, fd: int, now: int)
    ensures EstablishConn(s, k, fd, now).timers == s.timers + multiset{Timer(now + s.idleTimeout, k, 1)}
    ensures TimerOk(EstablishConn(s, k, fd, now), Timer(now + s.idleTimeout, k, 1))
    ensures EstablishConn(s, k, fd, now).conns.Keys == s.conns.Keys + {k}
    ensures forall j <- s.conns :: j != k ==> EstablishConn(s, k, fd, now).conns[j] == s.conns[j]
  {
  }

  // One more connection with one timer of its own.
  lemma TimerJoins(s: Sys, s': Sys, added: Timer)
    requires OnePerConn(s.timers) && !HasTimer(s.timers, added.conn) && s'.timers == s.timers + multiset{added}
    requires s'.conns.Keys == s.conns.Keys + {added.conn}
    requires forall j <- s.conns :: j != added.conn ==> s'.conns[j] == s.conns[j]
    requires forall j <- s.conns :: s.conns[j].fd >= 0 ==> HasTimer(s.timers, j)
    requires TimerOk(s', added) && forall t <- s.timers :: TimerOk(s', t)
    ensures TimersOk(s')
  {
    AddTimer(s.timers, added);
    hide OnePerConn, HasTimer, TimerOk;
  }

  lemma EstablishKeepsTimers(s: Sys, k: nat, fd: int, now: int)
    requires TimersOk(s) && ClocksOk(s) && k !in s.conns && s.clock <= now
    ensures TimersOk(EstablishConn(s, k, fd, now)) && ClocksOk(EstablishConn(s, k, fd, now))
  {
    var s' := EstablishConn(s, k, fd, now);
    assert !HasTimer(s.timers, k) by {
      assert forall t <- s.timers :: TimerOk(s, t);
    }
    EstablishKeepsClocks(s, k, fd, now);
    EstablishAddsTimer(s, k, fd, now);
    hide EstablishConn, TimerOk, ClocksOk, OnePerConn, HasTimer;
    forall t | t in s.timers ensures TimerOk(s', t) {
      EstablishKeepsTimer(s, k, fd, now, t);
    }
    TimerJoins(s, s', Timer(now + s.idleTimeout, k, 1));
  }

  lemma EstablishTaskKeeps(s: Sys, k: nat, fd: int, sends: seq<Send>, now: int)
    requires Inv(s) && LoopQueue.AtTask(s.loop) && s.loop.batch[0] == EstablishTask(k, fd) && s.clock <= now
    ensures Inv(Run(s.(loop := LoopQueue.NextTask(s.loop)), s.loop.batch[0], sends, now))
  {
    var s1 := s.(loop := LoopQueue.NextTask(s.loop));
    hide TurnOk, ConnsOk, FdsOk, ReadyOk, TicketsOk, TimersOk, ClocksOk, LoopQueue.Inv, WorkerPool.Inv, Awaited;
    TaskTaken(s);
    EstablishFree(s, k, fd);
    forall j | j in s1.conns && j != k && s1.conns[j].fd >= 0 && s1.conns[j].processing
      ensures Awaited(s1, j, s1.conns[j].requestGeneration)
    {
      AwaitedPastTask(s, j, s.conns[j].requestGeneration);
    }
    EstablishKeepsConns(s1, k, fd, now);
    EstablishKeepsFds(s1, k, fd, now);
    EstablishKeepsReady(s1, k, fd, now);
    EstablishKeepsTickets(s1, k, fd, now);
    EstablishKeepsLive(s1, k, fd, now);
    EstablishKeepsTimers(s1, k, fd, now);
  }

  lemma RunTaskKeeps(s: Sys, sends: seq<Send>, now: int)
    requires Inv(s) && Enabled(s, RunTask(sends, now))
    ensures Inv(Apply(s, RunTask(sends, now)))
  {
    hide ConnsOk, FdsOk, ReadyOk, TicketsOk, TimersOk, ClocksOk, LoopQueue.Inv, WorkerPool.Inv, Awaited;
    var s1 := s.(loop := LoopQueue.NextTask(s.loop));
    var task := s.loop.batch[0];
    if task.EstablishTask? {
      EstablishTaskKeeps(s, task.conn, task.fd, sends, now);
    } else if task.FinishTask? && task.conn in s.conns {
      FinishTaskKeeps(s, sends, now);
    } else {
      TaskTaken(s);
      forall j | j in s1.conns && s1.conns[j].fd >= 0 && s1.conns[j].processing
        ensures Awaited(s1, j, s1.conns[j].requestGeneration)
      {
        AwaitedPastTask(s, j, s.conns[j].requestGeneration);
      }
    }
  }

  // --- idle timers ------------------------------------------------------------------

  lemma OthersTimers(s: Sys, s1: Sys, k: nat, t: Turn, now: int, timer: Timer)
    requires k in s.conns && s1 == s.(timers := s1.timers) && s.clock <= now && !s.pool.stopping && ClocksOk(s)
    requires TimerOk(s, timer) && timer.conn != k
    ensures TimerOk(Absorb(s1, k, t, now), timer)
  {
  }

  // The timer closeIfIdle leaves behind, when it does not close.
  function Rearmed(c: Conn, generation: nat, now: int): Timer {
    Timer((if generation != c.idleGeneration then c.lastActivity else now) + c.idleTimeout, c.id, c.idleGeneration)
  }

  predicate Rearms(c: Conn, generation: nat) {
    c.fd >= 0 && !(generation == c.idleGeneration && Idle(c))
  }

  lemma CloseIfIdleTimers(t: Turn, generation: nat, now: int)
    ensures var t' := CloseIfIdle(t, generation, now);
      && t'.timers == (if Rearms(t.conn, generation) then t.timers + multiset{Rearmed(t.conn, generation, now)} else t.timers)
      && (t'.conn.fd >= 0 ==> Rearms(t.conn, generation))
      && (Rearms(t.conn, generation) ==> t'.conn == t.conn)
  {
  }

  lemma RearmedOk(s: Sys, k: nat, t: Turn, generation: nat, now: int)
    requires k in s.conns && s.clock <= now && !s.pool.stopping && ClocksOk(s)
    requires s.conns[k].id == k && t.conn == s.conns[k] && Rearms(s.conns[k], generation)
    ensures TimerOk(Absorb(s, k, t, now), Rearmed(s.conns[k], generation, now))
  {
  }

  lemma OthersStayOk(s: Sys, s1: Sys, k: nat, t: Turn, now: int)
    requires k in s.conns && s1 == s.(timers := s1.timers) && s.clock <= now && !s.pool.stopping && ClocksOk(s)
    requires forall u <- s1.timers :: TimerOk(s, u) && u.conn != k
    ensures forall u <- s1.timers :: TimerOk(Absorb(s1, k, t, now), u)
  {
    forall u | u in s1.timers ensures TimerOk(Absorb(s1, k, t, now), u) {
      OthersTimers(s, s1, k, t, now, u);
    }
  }

  lemma FiredFacts(s: Sys, timer: Timer)
    requires ConnsOk(s) && TimersOk(s) && timer in s.timers && timer.conn in s.conns
    ensures s.conns[timer.conn].id == timer.conn && OnePerConn(s.timers) && forall u <- s.timers :: TimerOk(s, u)
  {
    hide TurnOk, OnePerConn, TimerOk;
  }

  lemma FiredTimersOk(s: Sys, timer: Timer, t: Turn, now: int)
    requires ConnsOk(s) && TimersOk(s) && ClocksOk(s) && timer in s.timers && timer.conn in s.conns
    requires s.clock <= now && !s.pool.stopping
    requires var (c, base) := (s.conns[timer.conn], s.timers - multiset{timer});
      if Rearms(c, timer.generation) then
        t.conn == c && t.timers == base + multiset{Rearmed(c, timer.generation, now)}
      else t.timers == base
    ensures forall u <- t.timers :: TimerOk(Absorb(s.(timers := s.timers - multiset{timer}), timer.conn, t, now), u)
  {
    var k := timer.conn;
    var s1 := s.(timers := s.timers - multiset{timer});
    hide *;
    FiredFacts(s, timer);
    RemoveTimer(s.timers, timer);
    FdClocks(s, s1);
    if Rearms(s.conns[k], timer.generation) {
      RearmedOk(s1, k, t, timer.generation, now);
    }
    OthersStayOk(s, s1, k, t, now);
  }

  lemma FiredOnePerConn(s: Sys, timer: Timer, t: Turn, now: int)
    requires ConnsOk(s) && TimersOk(s) && timer in s.timers && timer.conn in s.conns
    requires t.conn.fd >= 0 ==> Rearms(s.conns[timer.conn], timer.generation)
    requires var (c, base) := (s.conns[timer.conn], s.timers - multiset{timer});
      if Rearms(c, timer.generation) then t.timers == base + multiset{Rearmed(c, timer.generation, now)}
      else t.timers == base
    ensures OnePerConn(t.timers)
    ensures forall k <- s.conns :: (if k == timer.conn then t.conn else s.conns[k]).fd >= 0 ==> HasTimer(t.timers, k)
  {
    var c := s.conns[timer.conn];
    assert c.id == timer.conn;
    RemoveTimer(s.timers, timer);
    if Rearms(c, timer.generation) {
      AddTimer(s.timers - multiset{timer}, Rearmed(c, timer.generation, now));
    }
  }

  lemma TimersOkAfter(s: Sys, k: nat, t: Turn, now: int)
    requires k in s.conns && !s.pool.stopping && OnePerConn(t.timers)
    requires forall j <- s.conns :: (if j == k then t.conn else s.conns[j]).fd >= 0 ==> HasTimer(t.timers, j)
    requires forall u <- t.timers :: TimerOk(Absorb(s, k, t, now), u)
    ensures TimersOk(Absorb(s, k, t, now))
  {
    hide OnePerConn, HasTimer, TimerOk;
  }

  lemma FireKeepsTimers(s: Sys, timer: Timer, now: int)
    requires ConnsOk(s) && TimersOk(s) && ClocksOk(s) && timer in s.timers && timer.conn in s.conns
    requires s.clock <= now && !s.pool.stopping
    ensures var s1 := s.(timers := s.timers - multiset{timer});
      TimersOk(Absorb(s1, timer.conn, CloseIfIdle(TurnOf(s1, timer.conn), timer.generation, now), now))
  {
    var k := timer.conn;
    var s1 := s.(timers := s.timers - multiset{timer});
    var t := TurnOf(s1, k);
    assert t.conn == s.conns[k] && t.timers == s1.timers;
    hide *;
    var t' := CloseIfIdle(t, timer.generation, now);
    CloseIfIdleTimers(t, timer.generation, now);
    FiredTimersOk(s, timer, t', now);
    FiredOnePerConn(s, timer, t', now);
    TimersOkAfter(s1, k, t', now);
  }

  lemma FireFacts(t: Turn, generation: nat, now: int)
    requires TurnOk(t)
    ensures var t' := CloseIfIdle(t, generation, now);
      && TurnOk(t') && CallbackStep(t, t', now) && t'.conn.answered == t.conn.answered
      && t'.conn.processing == t.conn.processing && (t'.conn.fd >= 0 ==> t.conn.fd >= 0)
  {
    hide ConnOk;
    CloseIfIdleKeeps(t, generation, now);
  }

  lemma FireKeeps(s: Sys, timer: Timer, now: int)
    requires Inv(s) && timer in s.timers && timer.conn in s.conns && s.loop.ready == [] && s.clock <= now
    ensures var s1 := s.(timers := s.timers - multiset{timer});
      Inv(Absorb(s1, timer.conn, CloseIfIdle(TurnOf(s1, timer.conn), timer.generation, now), now))
  {
    var k := timer.conn;
    var s1 := s.(timers := s.timers - multiset{timer});
    var t := TurnOf(s1, k);
    var t' := CloseIfIdle(t, timer.generation, now);
    TimersChanged(s, s1);
    assert TurnOk(t);
    assert t.conn.fd >= 0 && t.conn.processing ==> Awaited(s1, k, t.conn.requestGeneration);
    assert OthersLive(s1, k);
    hide TurnOk, CallbackStep, CloseIfIdle, Awaited, AllIssued, OthersLive, TimersOk, LiveOk;
    hide ConnsOk, ClocksOk, FdsOk, ReadyOk, TicketsOk, LoopQueue.Inv, WorkerPool.Inv;
    FireKeepsTimers(s, timer, now);
    AnsweredBefore(s1, k);
    FireFacts(t, timer.generation, now);
    AbsorbAll(s1, k, t', now);
  }

  lemma PopTimerKeeps(s: Sys, timer: Timer, now: int)
    requires Inv(s) && Enabled(s, PopTimer(timer, now))
    ensures Inv(Apply(s, PopTimer(timer, now)))
  {
    assert timer.conn in s.conns && s.loop.ready == [] by { Parts(s); assert TimerOk(s, timer); }
    hide Inv;
    FireKeeps(s, timer, now);
  }

  lemma TimersChanged(s: Sys, s': Sys)
    requires s' == s.(timers := s'.timers)
    requires CoreInv(s) && LiveOk(s)
    ensures CoreInv(s') && LiveOk(s')
  {
    hide TurnOk, Issued, LoopQueue.Inv, WorkerPool.Inv, Awaited, ReadyOk, TicketsOk;
    forall k | k in s'.conns ensures TurnOk(TurnOf(s', k)) {
      assert TurnOk(TurnOf(s, k));
      TimersIrrelevant(TurnOf(s, k), s'.timers);
    }
    forall i | Outstanding(s', i) ensures Outstanding(s, i) {
    }
    forall k | k in s'.conns && s'.conns[k].fd >= 0 && s'.conns[k].processing
      ensures Awaited(s', k, s'.conns[k].requestGeneration)
    {
      AwaitedStays(s, s', k, s.conns[k].requestGeneration);
    }
    TimersChangedTickets(s, s');
  }

  lemma TimersIrrelevant(t: Turn, timers: multiset<Timer>)
    requires TurnOk(t)
    ensures TurnOk(t.(timers := timers))
  {
  }

  lemma TimersChangedTickets(s: Sys, s': Sys)
    requires s' == s.(timers := s'.timers)
    ensures TicketsOk(s) ==> TicketsOk(s')
    ensures ReadyOk(s) ==> ReadyOk(s')
  {
    hide Issued;
    if TicketsOk(s) {
      forall p | 0 <= p < |s'.pool.submitted| ensures IsRequest(s', s'.pool.submitted[p]) {
        assert IsRequest(s, s.pool.submitted[p]);
      }
    }
    if ReadyOk(s) {
      forall e | e in s'.loop.ready ensures EventOk(s', e) {
        assert EventOk(s, e);
      }
    }
  }

  // --- other threads, the clock and the rest of the loop -----------------------------

  lemma TickKeeps(s: Sys, to: int)
    requires Inv(s) && s.clock <= to
    ensures Inv(s.(clock := to))
  {
    hide OnePerConn, HasTimer, Issued, Awaited, LoopQueue.Inv, WorkerPool.Inv, ConnOk;
    var s' := s.(clock := to);
    assert ConnsOk(s') by { TurnsSame(s, s'); }
    assert FdsOk(s') by { OutstandingSame(s, s'); }
    LiveSame(s, s');
    ReadySame(s, s');
    TicketsSame(s, s');
    assert TimersOk(s') by {
      forall t | t in s'.timers ensures TimerOk(s', t) {
        assert TimerOk(s, t);
      }
    }
  }

  lemma TurnsSame(s: Sys, s': Sys)
    requires s'.conns == s.conns && s'.channels == s.channels && s'.timers == s.timers && s'.nextConn >= s.nextConn
    requires ConnsOk(s)
    ensures ConnsOk(s')
  {
    hide TurnOk;
    forall k | k in s'.conns ensures TurnOk(TurnOf(s', k)) {
      assert TurnOf(s', k) == TurnOf(s, k);
    }
  }

  lemma OutstandingSame(s: Sys, s': Sys)
    requires s'.loop.pushed == s.loop.pushed && s'.loop.executed == s.loop.executed
    ensures forall i :: Outstanding(s', i) <==> Outstanding(s, i)
  {
  }

  lemma ReadySame(s: Sys, s': Sys)
    requires s'.conns == s.conns && s'.channels == s.channels
    requires s'.loop.ready == s.loop.ready && s'.loop.batch == s.loop.batch && s'.loop.phase == s.loop.phase
    requires ReadyOk(s)
    ensures ReadyOk(s')
  {
    forall e | e in s'.loop.ready ensures EventOk(s', e) {
      assert EventOk(s, e);
    }
  }

  // New tasks and jobs that are not of a connection keep every ticket in place.
  lemma TicketsSame(s: Sys, s': Sys)
    requires s'.conns == s.conns && s'.issued == s.issued && s'.completed == s.completed
    requires s.pool.started <= s'.pool.started && s.pool.submitted <= s'.pool.submitted && s.loop.pushed <= s'.loop.pushed
    requires forall p :: |s.pool.submitted| <= p < |s'.pool.submitted| ==> s'.pool.submitted[p] == OtherJob
    requires forall i :: |s.loop.pushed| <= i < |s'.loop.pushed| ==> !s'.loop.pushed[i].FinishTask?
    requires TicketsOk(s)
    ensures TicketsOk(s')
  {
    hide Issued;
    forall p | 0 <= p < |s'.pool.submitted| ensures IsRequest(s', s'.pool.submitted[p]) {
      if p < |s.pool.submitted| {
        assert IsRequest(s, s.pool.submitted[p]);
      }
    }
  }

  lemma LiveSame(s: Sys, s': Sys)
    requires s'.conns == s.conns && s'.completed == s.completed && s'.loop.executed == s.loop.executed
    requires s.pool.submitted <= s'.pool.submitted && s.loop.pushed <= s'.loop.pushed
    requires LiveOk(s)
    ensures LiveOk(s')
  {
    hide Awaited;
    forall k | k in s'.conns && s'.conns[k].fd >= 0 && s'.conns[k].processing
      ensures Awaited(s', k, s'.conns[k].requestGeneration)
    {
      AwaitedStays(s, s', k, s.conns[k].requestGeneration);
    }
  }

  lemma TimersSame(s: Sys, s': Sys)
    requires s'.conns == s.conns && s'.timers == s.timers && s'.quietSince == s.quietSince
    requires s'.clock == s.clock && s'.idleTimeout == s.idleTimeout
    requires TimersOk(s)
    ensures TimersOk(s')
  {
    forall t | t in s'.timers ensures TimerOk(s', t) {
      assert TimerOk(s, t);
    }
  }

  lemma AcceptKeeps(s: Sys, fd: int)
    requires Inv(s) && Enabled(s, Accept(fd))
    ensures Inv(Apply(s, Accept(fd)))
  {
    Parts(s);
    var s' := Apply(s, Accept(fd));
    LoopQueue.ActionKeepsInv(s.loop, LoopQueue.DoPush(EstablishTask(s.nextConn, fd)));
    AcceptKeepsFds(s, fd);
    assert LoopQueue.Inv(s'.loop) && s'.loop.pushed == s.loop.pushed + [EstablishTask(s.nextConn, fd)];
    hide *;
    FdClocks(s, s');
    TurnsSame(s, s');
    LiveSame(s, s');
    ReadySame(s, s');
    TicketsSame(s, s');
    TimersSame(s, s');
    Assemble(s');
  }

  lemma AcceptKeepsFds(s: Sys, fd: int)
    requires ConnsOk(s) && FdsOk(s) && Enabled(s, Accept(fd))
    ensures FdsOk(Apply(s, Accept(fd)))
  {
    hide TurnOk;
    var s' := Apply(s, Accept(fd));
    forall i | Outstanding(s', i) && s'.loop.pushed[i].EstablishTask?
      ensures var task := s'.loop.pushed[i];
        task.conn !in s'.conns && task.fd >= 0 && task.fd in s'.fds && s'.fds[task.fd] == Some(task.conn)
    {
      if i < |s.loop.pushed| {
        assert Outstanding(s, i);
      } else {
        assert s.nextConn !in s.conns;
      }
    }
  }

  lemma ForeignFdKeepsFds(s: Sys, l: Label)
    requires FdsOk(s) && Enabled(s, l) && (l.ForeignOpen? || l.ForeignClose?)
    ensures FdsOk(Apply(s, l))
  {
    OutstandingSame(s, Apply(s, l));
  }

  // Descriptors of other loops come and go.
  lemma ForeignFdKeeps(s: Sys, l: Label)
    requires Inv(s) && Enabled(s, l) && (l.ForeignOpen? || l.ForeignClose?)
    ensures Inv(Apply(s, l))
  {
    Parts(s);
    var s' := Apply(s, l);
    assert s' == s.(fds := s'.fds);
    ForeignFdKeepsFds(s, l);
    hide *;
    FdClocks(s, s');
    TurnsSame(s, s');
    LiveSame(s, s');
    ReadySame(s, s');
    TicketsSame(s, s');
    TimersSame(s, s');
    Assemble(s');
  }

  lemma FdClocks(s: Sys, s': Sys)
    requires ClocksOk(s) && s'.conns == s.conns && s'.quietSince == s.quietSince && s'.clock == s.clock
    requires s'.idleTimeout == s.idleTimeout && s'.loop.phase == s.loop.phase
    ensures ClocksOk(s')
  {
  }

  lemma LoopActionReady(s: Sys, a: LoopQueue.Action<Task>)
    requires Inv(s) && Enabled(s, LoopAction(a))
    ensures ReadyOk(Apply(s, LoopAction(a)))
  {
    var s' := Apply(s, LoopAction(a));
    hide TicketsOk, TimersOk, ClocksOk, LiveOk, WorkerPool.Inv, ConnOk;
    forall e | e in s'.loop.ready ensures EventOk(s', e) {
      if a.DoReport? {
        if e.Socket? {
          var k := s.channels[e.fd].conn;
          assert TurnOk(TurnOf(s, k));
        }
      } else {
        assert EventOk(s, e);
      }
    }
  }

  lemma LoopActionFds(s: Sys, a: LoopQueue.Action<Task>)
    requires FdsOk(s) && Enabled(s, LoopAction(a))
    ensures FdsOk(Apply(s, LoopAction(a)))
  {
    var s' := Apply(s, LoopAction(a));
    forall i | Outstanding(s', i) && s'.loop.pushed[i].EstablishTask? ensures Outstanding(s, i) {
    }
  }

  lemma LoopActionFrame(s: Sys, a: LoopQueue.Action<Task>)
    requires Enabled(s, LoopAction(a))
    ensures LoopQueue.Enabled(s.loop, a)
    ensures var loop := LoopQueue.Apply(s.loop, a);
      && Apply(s, LoopAction(a)) == s.(loop := loop)
      && loop.executed == s.loop.executed && s.loop.pushed <= loop.pushed
      && (forall i :: |s.loop.pushed| <= i < |loop.pushed| ==> loop.pushed[i] == OtherTask)
      && (loop.phase.RunningTimers? ==> loop.phase == s.loop.phase || loop.phase.now == s.clock)
  {
  }

  lemma LoopClocks(s: Sys, s': Sys)
    requires ClocksOk(s) && s' == s.(loop := s'.loop)
    requires s'.loop.phase.RunningTimers? ==> s'.loop.phase == s.loop.phase || s'.loop.phase.now == s.clock
    ensures ClocksOk(s')
  {
  }

  lemma LoopActionKeeps(s: Sys, a: LoopQueue.Action<Task>)
    requires Inv(s) && Enabled(s, LoopAction(a))
    ensures Inv(Apply(s, LoopAction(a)))
  {
    hide *;
    Parts(s);
    LoopActionFrame(s, a);
    LoopQueue.ActionKeepsInv(s.loop, a);
    LoopActionReady(s, a);
    LoopActionFds(s, a);
    var s' := Apply(s, LoopAction(a));
    TurnsSame(s, s');
    LiveSame(s, s');
    TicketsSame(s, s');
    TimersSame(s, s');
    LoopClocks(s, s');
    Assemble(s');
  }

  // --- workers ----------------------------------------------------------------------

  lemma PoolActionFrame(s: WorkerPool.State<Job>, a: WorkerPool.Action<Job>)
    requires WorkerPool.Enabled(s, a) && (PlainPoolAction(a) || a.DoFinish?)
    ensures var s' := WorkerPool.Apply(s, a);
      && s'.stopping == s.stopping
      && s.started <= s'.started && s.submitted <= s'.submitted
      && forall p :: |s.submitted| <= p < |s'.submitted| ==> s'.submitted[p] == OtherJob
  {
  }

  lemma PoolActionKeeps(s: Sys, a: WorkerPool.Action<Job>)
    requires Inv(s) && WorkerPool.Enabled(s.pool, a) && (PlainPoolAction(a) || a.DoFinish?)
    ensures Inv(s.(pool := WorkerPool.Apply(s.pool, a)))
  {
    hide *;
    Parts(s);
    var s' := s.(pool := WorkerPool.Apply(s.pool, a));
    WorkerPool.ActionKeepsInv(s.pool, a);
    PoolActionFrame(s.pool, a);
    FdClocks(s, s');
    SameFds(s, s');
    TurnsSame(s, s');
    LiveSame(s, s');
    ReadySame(s, s');
    TicketsSame(s, s');
    TimersSame(s, s');
    Assemble(s');
  }

  lemma SameFds(s: Sys, s': Sys)
    requires FdsOk(s) && s'.channels == s.channels && s'.conns == s.conns && s'.fds == s.fds && s'.nextConn == s.nextConn
    requires s'.loop.pushed == s.loop.pushed && s'.loop.executed == s.loop.executed
    ensures FdsOk(s')
  {
    OutstandingSame(s, s');
  }

  lemma IssuedStays(s: Sys, issue: Issue, k: nat, id: nat, result: ResponseResult)
    requires Issued(s.issued, k, id, result)
    ensures Issued(s.issued + {issue}, k, id, result)
  {
  }

  lemma CompleteTickets(s: Sys, l: Label)
    requires Inv(s) && Enabled(s, l) && l.Complete?
    ensures TicketsOk(Apply(s, l))
  {
    hide FdsOk, ReadyOk, TimersOk, LiveOk, ClocksOk, LoopQueue.Inv, TurnOk, WorkerPool.NoLostNotify;
    var s' := Apply(s, l);
    var job := s.pool.started[l.position];
    var issue := Issue(job, l.result);
    forall p | 0 <= p < |s'.pool.submitted| ensures IsRequest(s', s'.pool.submitted[p]) {
      assert IsRequest(s, s.pool.submitted[p]);
    }
    assert Issued(s'.issued, job.conn, job.id, l.result) by { assert issue in s'.issued; }
    hide Issued;
    forall i | 0 <= i < |s'.loop.pushed| && s'.loop.pushed[i].FinishTask?
      ensures Issued(s'.issued, s'.loop.pushed[i].conn, s'.loop.pushed[i].id, s'.loop.pushed[i].result)
    {
      if i < |s.loop.pushed| {
        IssuedStays(s, issue, s.loop.pushed[i].conn, s.loop.pushed[i].id, s.loop.pushed[i].result);
      }
    }
    forall k, i | k in s'.conns && 0 <= i < |s'.conns[k].answered|
      ensures Issued(s'.issued, k, i + 1, s'.conns[k].answered[i])
    {
      IssuedStays(s, issue, k, i + 1, s.conns[k].answered[i]);
    }
  }

  // A completed run hands its place in Awaited over to the response it queued.
  lemma CompleteLive(s: Sys, l: Label)
    requires Inv(s) && Enabled(s, l) && l.Complete?
    ensures LiveOk(Apply(s, l))
  {
    hide ConnsOk, FdsOk, ReadyOk, TimersOk, ClocksOk, TicketsOk, LoopQueue.Inv, WorkerPool.NoLostNotify;
    var s' := Apply(s, l);
    var job := s.pool.started[l.position];
    var pos := l.position;
    forall k | k in s'.conns && s'.conns[k].fd >= 0 && s'.conns[k].processing
      ensures Awaited(s', k, s'.conns[k].requestGeneration)
    {
      var id := s.conns[k].requestGeneration;
      assert Awaited(s, k, id);
      if i :| Outstanding(s, i) && IsResponseTo(s.loop.pushed[i], k, id) {
        assert Outstanding(s', i) && IsResponseTo(s'.loop.pushed[i], k, id);
      } else {
        var p :| 0 <= p < |s.pool.submitted| && p !in s.completed && IsJobOf(s.pool.submitted[p], k, id);
        if p == pos {
          var last := |s.loop.pushed|;
          assert s.pool.submitted[pos] == job;
          assert s.loop.executed <= s.loop.pushed by { LoopOrder(s.loop); }
          assert Outstanding(s', last) && IsResponseTo(s'.loop.pushed[last], k, id);
        } else {
          NewJobAwaited(s', k, id, p);
        }
      }
    }
  }

  lemma LoopOrder(s: LoopQueue.State<Task>)
    requires LoopQueue.Inv(s)
    ensures s.executed <= s.pushed
  {
    assert s.executed <= s.executed + (s.batch + s.pending);
    assert s.executed + s.batch + s.pending == s.executed + (s.batch + s.pending);
  }

  lemma CompleteFds(s: Sys, l: Label)
    requires FdsOk(s) && Enabled(s, l) && l.Complete?
    ensures FdsOk(Apply(s, l))
  {
    var s' := Apply(s, l);
    forall i | Outstanding(s', i) && s'.loop.pushed[i].EstablishTask? ensures Outstanding(s, i) {
    }
  }

  lemma CompleteKeeps(s: Sys, l: Label)
    requires Inv(s) && Enabled(s, l) && l.Complete?
    ensures Inv(Apply(s, l))
  {
    var s' := Apply(s, l);
    var job := s.pool.started[l.position];
    LoopQueue.ActionKeepsInv(s.loop, LoopQueue.DoPush(FinishTask(job.conn, job.id, l.result)));
    CompleteTickets(s, l);
    CompleteLive(s, l);
    CompleteFds(s, l);
    hide ConnsOk, FdsOk, ReadyOk, TicketsOk, TimersOk, LiveOk, LoopQueue.Inv, WorkerPool.Inv;
    TurnsSame(s, s');
    ReadySame(s, s');
    TimersSame(s, s');
  }

  // --- every step, every run ---------------------------------------------------------

  lemma StepKeepsInv(s: Sys, l: Label)
    requires Inv(s) && Enabled(s, l)
    ensures Inv(Apply(s, l))
  {
    hide Inv;
    match l
    case Tick(to) => TickKeeps(s, to);
    case Accept(fd) => AcceptKeeps(s, fd);
    case ForeignOpen(_) => ForeignFdKeeps(s, l);
    case ForeignClose(_) => ForeignFdKeeps(s, l);
    case LoopAction(a) => LoopActionKeeps(s, a);
    case PoolAction(a) => PoolActionKeeps(s, a);
    case DispatchSocket(recvs, sends, readNow, now) => DispatchKeeps(s, recvs, sends, readNow, now);
    case RunTask(sends, now) => RunTaskKeeps(s, sends, now);
    case PopTimer(timer, now) => PopTimerKeeps(s, timer, now);
    case Complete(_, _, _) => CompleteKeeps(s, l);
    case EndRun(worker) => PoolActionKeeps(s, WorkerPool.DoFinish(worker));
  }

  // A run is a list of labels, each enabled where it is taken.
  ghost predicate IsRun(s: Sys, labels: seq<Label>)
    decreases |labels|
  {
    labels == [] || (Enabled(s, labels[0]) && IsRun(Apply(s, labels[0]), labels[1..]))
  }

  ghost function After(s: Sys, labels: seq<Label>): Sys
    requires IsRun(s, labels)
    decreases |labels|
  {
    if labels == [] then s else After(Apply(s, labels[0]), labels[1..])
  }

  lemma InitialInv(workers: set<nat>, idleTimeout: int, start: int)
    ensures Inv(Initial(workers, idleTimeout, start))
  {
    var s := Initial(workers, idleTimeout, start);
    WorkerPool.InitialInv<Job>(workers);
    hide WorkerPool.Inv, TurnOk, TimerOk, IsRequest, Issued, EventOk, Awaited, HasTimer;
    assert LoopQueue.Inv(s.loop);
    hide LoopQueue.Inv;
  }

  lemma {:induction false} RunKeepsInv(s: Sys, labels: seq<Label>)
    requires Inv(s) && IsRun(s, labels)
    ensures Inv(After(s, labels))
    decreases |labels|
  {
    if labels != [] {
      StepKeepsInv(s, labels[0]);
      RunKeepsInv(Apply(s, labels[0]), labels[1..]);
    }
  }
}
