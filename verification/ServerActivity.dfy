// Idle timers against the bytes that really moved: the activity a connection remembers, which
// its timers go by, is the last callback that received or sent anything.
module ServerActivity {
  import opened Framing
  import opened TcpProtocol
  import LoopQueue
  import WorkerPool
  import opened Server
  import opened ServerProof
  import opened ServerTheorems
  import opened SocketEffects
  import opened ServerEffects

  // The last response, if there was one, was not empty.
  predicate LastHadBytes(c: Conn) {
    c.answered == [] || c.answered[|c.answered| - 1].response != ""
  }

  predicate Moved(c: Conn, c': Conn) {
    c'.received != c.received || c'.sent != c.sent
  }

  // A callback at `now` that leaves the connection idle has marked the activity exactly when
  // it has moved bytes.
  ghost predicate ActivityStep(c: Conn, c': Conn, now: int) {
    c'.fd >= 0 && Idle(c') && LastHadBytes(c') ==>
      if Moved(c, c') then c'.lastActivity == now && !Idle(c)
      else Idle(c) && LastHadBytes(c) && c'.lastActivity == c.lastActivity && c'.idleGeneration == c.idleGeneration
  }

  // --- callbacks ------------------------------------------------------------------------

  lemma AfterReceiveActivity(t: Turn, receivedData: bool, now: int)
    ensures var c := AfterReceive(t, receivedData, now).conn;
      && c.received == t.conn.received && c.sent == t.conn.sent && c.answered == t.conn.answered
      && (c.fd >= 0 && c.input == "" && !c.processing ==>
            && t.conn.input == "" && !t.conn.processing
            && c.output == t.conn.output && c.responseReady == t.conn.responseReady
            && (!receivedData ==> c.lastActivity == t.conn.lastActivity && c.idleGeneration == t.conn.idleGeneration))
  {
    hide FrameEnd;
  }

  // A read that received bytes does not leave the connection idle.
  lemma ReadActivity(t: Turn, recvs: seq<Recv>, now: int)
    requires t.conn.fd >= 0
    ensures var c := HandleRead(t, recvs, now).conn;
      && c.sent == t.conn.sent && c.answered == t.conn.answered
      && (c.fd >= 0 && c.input == "" && !c.processing ==>
            && c.received == t.conn.received && t.conn.input == "" && !t.conn.processing
            && c.output == t.conn.output && c.responseReady == t.conn.responseReady
            && c.lastActivity == t.conn.lastActivity && c.idleGeneration == t.conn.idleGeneration)
  {
    hide RecvBytes, RecvOutcome, AfterReceive;
    var bytes := RecvBytes(recvs);
    var c := t.conn.(input := t.conn.input + bytes,
                     received := t.conn.received + bytes,
                     peerClosed := t.conn.peerClosed || RecvOutcome(recvs) == PeerFinished);
    AfterReceiveActivity(t.(conn := c), bytes != "", now);
    assert t.conn.input + bytes == "" ==> t.conn.input == "" && bytes == "";
  }

  // A write that leaves the connection idle has sent all that waited, and marked it.
  lemma WriteActivity(t: Turn, sends: seq<Send>, now: int)
    requires AboutToWrite(t) && t.conn.output != ""
    ensures var c := HandleWrite(t, sends, now).conn;
      && c.answered == t.conn.answered
      && (c.fd >= 0 && Idle(c) ==> t.conn.input == "" && c.lastActivity == now && |c.sent| > |t.conn.sent|)
  {
    hide IsFrame, Concat, FrameEnd, SentCount, SendOutcome, Accounted;
  }

  lemma EventActivity(t: Turn, events: Events, recvs: seq<Recv>, sends: seq<Send>, readNow: int, writeNow: int)
    requires TurnOk(t) && t.conn.fd >= 0 && readNow <= writeNow
    requires events.writable ==> t.conn.responseReady
    requires !events.failed && events.writable ==>
      MayWrite(if events.readable then HandleRead(t, recvs, readNow) else t)
    ensures ActivityStep(t.conn, HandleEvent(t, events, recvs, sends, readNow, writeNow).conn, writeNow)
  {
    if !events.failed {
      if events.readable {
        ReadActivity(t, recvs, readNow);
        HandleReadKeeps(t, recvs, readNow);
      }
      var u := if events.readable then HandleRead(t, recvs, readNow) else t;
      if events.writable {
        HasOutput(t);
        if events.readable { HandleReadWhileReady(t, recvs, readNow); }
        if u.conn.fd >= 0 {
          ReadyToWrite(u);
          WriteActivity(u, sends, writeNow);
        } else {
          WriteAfterClose(u, sends, writeNow);
        }
      }
      hide HandleRead, HandleWrite, TurnOk, AboutToWrite, MayWrite;
    }
  }

  lemma HasOutput(t: Turn)
    requires TurnOk(t) && t.conn.fd >= 0 && t.conn.responseReady
    ensures t.conn.output != "" && !Idle(t.conn) && !t.conn.processing
  {
  }

  lemma ResponseActivity(t: Turn, id: nat, result: ResponseResult, sends: seq<Send>, now: int)
    requires TurnOk(t) && (AcceptsResponse(t.conn, id) ==> t.conn.fd in t.channels)
    ensures ActivityStep(t.conn, FinishRequest(t, id, result, sends, now).conn, now)
  {
    if AcceptsResponse(t.conn, id) {
      var taken := t.(conn := TakeResponse(t.conn, result));
      TakeResponseKeeps(t, id, result);
      ServingHasNoOutput(t);
      var t' := HandleWrite(taken, sends, now);
      if result.response != "" {
        WriteActivity(taken, sends, now);
      } else {
        HandleWriteFrame(taken, sends, now);
      }
      hide HandleWrite, TurnOk, AboutToWrite;
    }
  }

  lemma TimerActivity(t: Turn, generation: nat, now: int)
    ensures ActivityStep(t.conn, CloseIfIdle(t, generation, now).conn, now)
  {
  }

  // A response of no bytes is no activity: the connection is idle again, and its timers go by
  // what moved before.
  lemma EmptyResponseIsNoActivity(t: Turn, id: nat, sends: seq<Send>, now: int)
    requires TurnOk(t) && AcceptsResponse(t.conn, id) && t.conn.input == "" && !t.conn.peerClosed
    ensures var c := FinishRequest(t, id, ResponseResult("", false), sends, now).conn;
      c.fd >= 0 && Idle(c) && c.lastActivity == t.conn.lastActivity && c.idleGeneration == t.conn.idleGeneration
  {
    ServingHasNoOutput(t);
    SendLoop("", sends);
    hide IsFrame, Concat, Accounted;
  }

  // --- every run --------------------------------------------------------------------------

  ghost predicate Remembers(s: Sys, k: nat)
    requires k in s.conns
  {
    && k in s.movedAt && s.movedAt[k] <= s.clock
    && (s.conns[k].fd >= 0 && Idle(s.conns[k]) && LastHadBytes(s.conns[k]) ==>
          && s.conns[k].lastActivity == s.movedAt[k]
          && k in s.quietSince && s.quietSince[k] == s.movedAt[k])
  }

  ghost predicate MovesOk(s: Sys) {
    forall k <- s.conns :: Remembers(s, k)
  }

  lemma AbsorbMoves(s: Sys, k: nat, t: Turn, now: int)
    requires MovesOk(s) && k in s.conns && s.clock <= now && !s.pool.stopping
    requires ActivityStep(s.conns[k], t.conn, now) && (s.conns[k].fd < 0 ==> t.conn == s.conns[k])
    ensures MovesOk(Absorb(s, k, t, now))
  {
    var s' := Absorb(s, k, t, now);
    forall j | j in s'.conns ensures Remembers(s', j) {
      assert Remembers(s, j);
    }
  }

  lemma SameMoves(s: Sys, s': Sys)
    requires MovesOk(s) && s'.conns == s.conns && s'.movedAt == s.movedAt && s'.quietSince == s.quietSince && s.clock <= s'.clock
    ensures MovesOk(s')
  {
    forall j | j in s'.conns ensures Remembers(s', j) {
      assert Remembers(s, j);
    }
  }

  lemma OtherMoves(s: Sys, l: Label)
    requires Enabled(s, l) && !IsCallback(l)
    ensures Apply(s, l).conns == s.conns && Apply(s, l).movedAt == s.movedAt && s.clock <= Apply(s, l).clock
    ensures Apply(s, l).quietSince == s.quietSince
  {
  }

  lemma DispatchMoves(s: Sys, e: LoopQueue.Ready, recvs: seq<Recv>, sends: seq<Send>, readNow: int, now: int)
    requires MovesOk(s) && Inv(s) && e.Socket? && s.clock <= readNow <= now
    requires e.fd in s.channels ==> EventOk(s, e)
    ensures MovesOk(Dispatch(s, e, recvs, sends, readNow, now))
  {
    if e.fd in s.channels {
      ChannelOf(s, e);
      var k := s.channels[e.fd].conn;
      var t := TurnOf(s, k);
      hide Inv, HandleEvent, HandleRead, MayWrite, TurnOk, Absorb, MovesOk, ActivityStep;
      HandleEventKeeps(t, e.events, recvs, sends, readNow, now);
      EventActivity(t, e.events, recvs, sends, readNow, now);
      AbsorbMoves(s, k, HandleEvent(t, e.events, recvs, sends, readNow, now), now);
    }
  }

  lemma ChannelOf(s: Sys, e: LoopQueue.Ready)
    requires Inv(s) && e.Socket? && e.fd in s.channels && EventOk(s, e)
    ensures var k := s.channels[e.fd].conn;
      && k in s.conns && s.conns[k].fd >= 0 && TurnOk(TurnOf(s, k)) && !s.pool.stopping
      && (e.events.writable ==> s.conns[k].responseReady)
  {
    hide TurnOk, LoopQueue.Inv, WorkerPool.Inv, TicketsOk, TimersOk, ClocksOk, LiveOk;
    ChannelOwner(s, e.fd);
  }

  lemma EstablishMoves(s: Sys, k: nat, fd: int, now: int)
    requires MovesOk(s) && k !in s.conns && s.clock <= now
    ensures MovesOk(EstablishConn(s, k, fd, now))
  {
    var s' := EstablishConn(s, k, fd, now);
    forall j | j in s'.conns ensures Remembers(s', j) {
      assert j != k ==> Remembers(s, j);
    }
  }

  lemma TaskMoves(s: Sys, task: Task, sends: seq<Send>, now: int)
    requires MovesOk(s) && s.clock <= now && !s.pool.stopping
    requires task.EstablishTask? ==> task.conn !in s.conns
    requires task.FinishTask? && task.conn in s.conns ==> TurnOk(TurnOf(s, task.conn))
    ensures MovesOk(Run(s, task, sends, now))
  {
    hide TurnOk, Absorb, MovesOk, ActivityStep, HandleWrite, EstablishConn;
    if task.EstablishTask? {
      EstablishMoves(s, task.conn, task.fd, now);
    } else if task.FinishTask? && task.conn in s.conns {
      var t := TurnOf(s, task.conn);
      if AcceptsResponse(t.conn, task.id) ==> t.conn.fd in t.channels {
        ResponseActivity(t, task.id, task.result, sends, now);
        AbsorbMoves(s, task.conn, FinishRequest(t, task.id, task.result, sends, now), now);
      } else {
        assert MovesOk(s.(crashed := true)) by { SameMoves(s, s.(crashed := true)); }
      }
    }
  }

  lemma FireMoves(s: Sys, timer: Timer, now: int)
    requires MovesOk(s) && s.clock <= now && !s.pool.stopping
    ensures MovesOk(Fire(s, timer, now))
  {
    hide Absorb, MovesOk, ActivityStep;
    if timer.conn in s.conns {
      var t := TurnOf(s, timer.conn);
      TimerActivity(t, timer.generation, now);
      AbsorbMoves(s, timer.conn, CloseIfIdle(t, timer.generation, now), now);
    }
  }

  lemma RunTaskMoves(s: Sys, sends: seq<Send>, now: int)
    requires MovesOk(s) && Inv(s) && Enabled(s, RunTask(sends, now))
    ensures MovesOk(Apply(s, RunTask(sends, now)))
  {
    RunApplied(s, sends, now);
    var (s1, task) := (s.(loop := LoopQueue.NextTask(s.loop)), s.loop.batch[0]);
    assert s.clock <= now;
    hide MovesOk, Enabled, Apply, Run, Inv;
    SameMovesAfter(s, s1);
    if task.EstablishTask? {
      EstablishFree(s, task.conn, task.fd);
    } else if task.FinishTask? && task.conn in s.conns {
      OpenTurn(s, task.conn);
    }
    TaskMoves(s1, task, sends, now);
  }

  lemma SameMovesAfter(s: Sys, s1: Sys)
    requires MovesOk(s) && s1 == s.(loop := s1.loop, timers := s1.timers)
    ensures MovesOk(s1)
  {
    SameMoves(s, s1);
  }

  lemma SocketMoves(s: Sys, recvs: seq<Recv>, sends: seq<Send>, readNow: int, now: int)
    requires MovesOk(s) && Inv(s) && Enabled(s, DispatchSocket(recvs, sends, readNow, now))
    ensures MovesOk(Apply(s, DispatchSocket(recvs, sends, readNow, now)))
  {
    SocketApplied(s, recvs, sends, readNow, now);
    var e := s.loop.ready[0];
    var s1 := s.(loop := LoopQueue.NextSocket(s.loop));
    assert s.clock <= readNow;
    hide MovesOk, Enabled, Apply, Dispatch, Inv;
    SocketTaken(s);
    SameMovesAfter(s, s1);
    if e.fd in s1.channels { ReportedOk(s, s1); }
    DispatchMoves(s1, e, recvs, sends, readNow, now);
  }

  lemma ReportedOk(s: Sys, s1: Sys)
    requires Inv(s) && LoopQueue.AtSocket(s.loop) && s1 == s.(loop := s1.loop) && s.loop.ready[0].fd in s.channels
    ensures EventOk(s1, s.loop.ready[0])
  {
    hide TurnOk, LoopQueue.Inv, WorkerPool.Inv, TicketsOk, TimersOk, ClocksOk, LiveOk, ConnsOk, FdsOk;
    assert EventOk(s, s.loop.ready[0]);
  }

  lemma StepMoves(s: Sys, l: Label)
    requires MovesOk(s) && Inv(s) && Enabled(s, l)
    ensures MovesOk(Apply(s, l))
  {
    hide MovesOk, Inv, Fire, Dispatch, Run;
    match l
    case DispatchSocket(recvs, sends, readNow, now) => SocketMoves(s, recvs, sends, readNow, now);
    case RunTask(sends, now) => RunTaskMoves(s, sends, now);
    case PopTimer(timer, now) =>
      SameMovesAfter(s, s.(timers := s.timers - multiset{timer}));
      FireMoves(s.(timers := s.timers - multiset{timer}), timer, now);
    case _ =>
      OtherMoves(s, l);
      SameMoves(s, Apply(s, l));
  }

  lemma {:induction false} RunMoves(s: Sys, labels: seq<Label>)
    requires MovesOk(s) && Inv(s) && IsRun(s, labels)
    ensures MovesOk(After(s, labels))
    decreases |labels|
  {
    hide MovesOk, Inv, Enabled, Apply;
    if labels != [] {
      StepMoves(s, labels[0]);
      StepKeepsInv(s, labels[0]);
      RunMoves(Apply(s, labels[0]), labels[1..]);
    }
  }

  lemma ReachableMoves(s: Sys)
    requires Reachable(s)
    ensures MovesOk(s)
  {
    var workers: set<nat>, idleTimeout, start, labels :|
      workers != {} && IsRun(Initial(workers, idleTimeout, start), labels)
      && s == After(Initial(workers, idleTimeout, start), labels);
    var initial := Initial(workers, idleTimeout, start);
    assert MovesOk(initial);
    InitialInv(workers, idleTimeout, start);
    RunMoves(initial, labels);
  }

  lemma MovedSometime(s: Sys, k: nat)
    requires Reachable(s) && k in s.conns
    ensures k in s.movedAt && s.movedAt[k] <= s.clock
  {
    ReachableMoves(s);
    hide Reachable, Idle;
    assert Remembers(s, k);
  }

  // A timer closes a connection only if it is idle, and then only once the timeout has passed
  // since bytes of it were last received or sent, or since it was established; only the
  // timer's own connection is ever closed. The last response must not have been empty.
  lemma NeverClosedTooEarly(s: Sys, timer: Timer, now: int, k: nat)
    requires Reachable(s) && Enabled(s, PopTimer(timer, now)) && k in s.conns && s.conns[k].fd >= 0
    requires LastHadBytes(s.conns[k])
    ensures k in s.movedAt
    ensures Apply(s, PopTimer(timer, now)).conns[k].fd < 0 ==>
      && k == timer.conn && s.movedAt[k] + s.idleTimeout <= s.loop.phase.now <= now
      && s.conns[k].input == "" && s.conns[k].output == "" && !s.conns[k].responseReady && !s.conns[k].processing
  {
    TimerClosesItsOwn(s, timer, now, k);
    ReachableMoves(s);
    hide Reachable, Enabled, Apply;
    assert Remembers(s, k);
  }

  // When runExpiredTimers(now) returns, every open connection that is idle has received or
  // sent bytes, or has been established, less than the timeout before now.
  lemma NeverClosedTooLate(s: Sys, k: nat)
    requires Reachable(s) && Enabled(s, LoopAction(LoopQueue.DoTimersDone))
    requires k in s.conns && s.conns[k].fd >= 0 && Idle(s.conns[k]) && LastHadBytes(s.conns[k])
    ensures k in s.movedAt && s.movedAt[k] + s.idleTimeout > s.loop.phase.now
  {
    TimersLeaveNoneQuiet(s, k);
    ReachableMoves(s);
    hide Reachable, Enabled, Idle, LastHadBytes;
    assert Remembers(s, k);
  }
}
