// What each step of the loop does to the connections, over every run: the bytes that move,
// and exactly when a connection is closed.
module ServerEffects {
  import opened Framing
  import opened TcpProtocol
  import LoopQueue
  import WorkerPool
  import opened Server
  import opened ServerProof
  import opened ServerTheorems
  import opened SocketEffects

  // The step leaves every connection but k as it was.
  ghost predicate OnlyTouches(s: Sys, s': Sys, k: nat) {
    s'.conns.Keys == s.conns.Keys && forall j <- s.conns :: j != k ==> s'.conns[j] == s.conns[j]
  }

  // The connection the next reported event belongs to.
  predicate EventMeets(s: Sys, k: nat) {
    && s.loop.ready != [] && s.loop.ready[0].Socket?
    && s.loop.ready[0].fd in s.channels && s.channels[s.loop.ready[0].fd].conn == k
  }

  // The response that the next task carries answers the current request of connection k.
  predicate ResponseMeets(s: Sys, k: nat) {
    && s.loop.batch != [] && s.loop.batch[0].FinishTask? && s.loop.batch[0].conn == k
    && k in s.conns && s.conns[k].fd >= 0 && s.conns[k].processing && s.loop.batch[0].id == s.conns[k].requestGeneration
  }

  lemma MeetsOwner(s: Sys, k: nat)
    requires Inv(s) && LoopQueue.AtSocket(s.loop) && EventMeets(s, k)
    ensures k in s.conns && s.conns[k].fd >= 0 && TurnOk(TurnOf(s, k))
    ensures s.loop.ready[0].events.writable ==> s.conns[k].responseReady
  {
    hide TurnOk, LoopQueue.Inv, WorkerPool.Inv, TicketsOk, TimersOk, ClocksOk, LiveOk;
    assert EventOk(s, s.loop.ready[0]);
    ChannelOwner(s, s.loop.ready[0].fd);
  }

  lemma DispatchMeets(s: Sys, k: nat, recvs: seq<Recv>, sends: seq<Send>, readNow: int, now: int)
    requires !s.pool.stopping && EventMeets(s, k) && k in s.conns
    requires var e := s.loop.ready[0];
      !e.events.failed && e.events.writable ==>
        MayWrite(if e.events.readable then HandleRead(TurnOf(s, k), recvs, readNow) else TurnOf(s, k))
    ensures var (e, s') := (s.loop.ready[0], Dispatch(s, s.loop.ready[0], recvs, sends, readNow, now));
      OnlyTouches(s, s', k)
      && s'.conns[k] == HandleEvent(TurnOf(s, k), e.events, recvs, sends, readNow, now).conn
  {
    hide HandleEvent, HandleRead, MayWrite;
  }

  lemma DispatchNobody(s: Sys, e: LoopQueue.Ready, recvs: seq<Recv>, sends: seq<Send>, readNow: int, now: int)
    requires !s.pool.stopping && e.Socket? && e.fd !in s.channels
    ensures Dispatch(s, e, recvs, sends, readNow, now) == s
  {
  }

  lemma SocketApplied(s: Sys, recvs: seq<Recv>, sends: seq<Send>, readNow: int, now: int)
    requires Enabled(s, DispatchSocket(recvs, sends, readNow, now))
    ensures LoopQueue.AtSocket(s.loop) && s.loop.ready != [] && s.loop.ready[0].Socket? && !s.pool.stopping && readNow <= now
    ensures var s1 := s.(loop := LoopQueue.NextSocket(s.loop));
      Apply(s, DispatchSocket(recvs, sends, readNow, now)) == Dispatch(s1, s.loop.ready[0], recvs, sends, readNow, now)
  {
    hide Dispatch;
  }

  // Dispatch looks at the queue only for the event it is given.
  lemma DispatchSame(s: Sys, s1: Sys, e: LoopQueue.Ready, recvs: seq<Recv>, sends: seq<Send>, readNow: int, now: int)
    requires s1 == s.(loop := s1.loop) && !s.pool.stopping && e.Socket?
    ensures Dispatch(s1, e, recvs, sends, readNow, now).conns == Dispatch(s, e, recvs, sends, readNow, now).conns
  {
    hide HandleEvent, HandleRead, MayWrite;
  }

  // What becomes of connection k in the callbacks of the next event.
  lemma EventApplied(s: Sys, recvs: seq<Recv>, sends: seq<Send>, readNow: int, now: int, k: nat)
    requires Reachable(s) && Enabled(s, DispatchSocket(recvs, sends, readNow, now)) && k in s.conns
    ensures var (s', e, t) := (Apply(s, DispatchSocket(recvs, sends, readNow, now)), s.loop.ready[0], TurnOf(s, k));
      && k in s'.conns
      && if EventMeets(s, k) then
           && TurnOk(t) && s.conns[k].fd >= 0 && readNow <= now && (e.events.writable ==> s.conns[k].responseReady)
           && (!e.events.failed && e.events.writable ==>
                 MayWrite(if e.events.readable then HandleRead(t, recvs, readNow) else t))
           && s'.conns[k] == HandleEvent(t, e.events, recvs, sends, readNow, now).conn
         else s'.conns[k] == s.conns[k]
  {
    ReachableInv(s);
    hide Reachable, Inv, Dispatch, HandleEvent, HandleRead, MayWrite, TurnOk, Enabled, Apply;
    SocketApplied(s, recvs, sends, readNow, now);
    var e := s.loop.ready[0];
    DispatchSame(s, s.(loop := LoopQueue.NextSocket(s.loop)), e, recvs, sends, readNow, now);
    if e.fd !in s.channels {
      DispatchNobody(s, e, recvs, sends, readNow, now);
    } else {
      var j := s.channels[e.fd].conn;
      MeetsOwner(s, j);
      HandleEventKeeps(TurnOf(s, j), e.events, recvs, sends, readNow, now);
      DispatchMeets(s, j, recvs, sends, readNow, now);
    }
  }

  // A reported event reaches the connection whose descriptor it names, if that still has a
  // channel, and does exactly what the kernel's answers call for.
  lemma EventStep(s: Sys, recvs: seq<Recv>, sends: seq<Send>, readNow: int, now: int, k: nat)
    requires Reachable(s) && Enabled(s, DispatchSocket(recvs, sends, readNow, now)) && k in s.conns
    ensures var s' := Apply(s, DispatchSocket(recvs, sends, readNow, now));
      && k in s'.conns
      && if EventMeets(s, k) then
           && s.conns[k].fd >= 0
           && EventEffect(s.conns[k], s.loop.ready[0].events, recvs, sends, s'.conns[k])
           && EventMarks(s.conns[k], s.loop.ready[0].events, recvs, sends, readNow, now, s'.conns[k])
         else s'.conns[k] == s.conns[k]
  {
    EventApplied(s, recvs, sends, readNow, now, k);
    hide Reachable, EventEffect, EventMarks, HandleEvent, HandleRead, MayWrite, TurnOk, Enabled, Apply;
    if EventMeets(s, k) {
      EventDoes(TurnOf(s, k), s.loop.ready[0].events, recvs, sends, readNow, now);
      EventMarked(TurnOf(s, k), s.loop.ready[0].events, recvs, sends, readNow, now);
    }
  }

  lemma RunApplied(s: Sys, sends: seq<Send>, now: int)
    requires Enabled(s, RunTask(sends, now))
    ensures LoopQueue.AtTask(s.loop) && s.loop.batch != [] && !s.pool.stopping
    ensures Apply(s, RunTask(sends, now)) == Run(s.(loop := LoopQueue.NextTask(s.loop)), s.loop.batch[0], sends, now)
  {
    hide Run;
  }

  lemma RunTouches(s: Sys, task: Task, sends: seq<Send>, now: int, k: nat)
    requires !s.pool.stopping && k in s.conns && (task.EstablishTask? ==> task.conn != k)
    requires task.FinishTask? && task.conn == k && AcceptsResponse(s.conns[k], task.id) ==> s.conns[k].fd in s.channels
    ensures var s' := Run(s, task, sends, now);
      && k in s'.conns
      && s'.conns[k] == if task.FinishTask? && task.conn == k && AcceptsResponse(s.conns[k], task.id) then
                          FinishRequest(TurnOf(s, k), task.id, task.result, sends, now).conn
                        else s.conns[k]
  {
    hide HandleWrite;
  }

  lemma OpenTurn(s: Sys, k: nat)
    requires Inv(s) && k in s.conns
    ensures TurnOk(TurnOf(s, k)) && (s.conns[k].fd >= 0 ==> s.conns[k].fd in s.channels)
  {
  }

  // A finished request's response reaches the connection that waits for it, and goes out as
  // far as the kernel takes it; any other task leaves the connections there are alone.
  lemma ResponseStep(s: Sys, sends: seq<Send>, now: int, k: nat)
    requires Reachable(s) && Enabled(s, RunTask(sends, now)) && k in s.conns
    ensures var s' := Apply(s, RunTask(sends, now));
      && k in s'.conns
      && if ResponseMeets(s, k) then
           && ResponseEffect(s.conns[k], s.loop.batch[0].result, sends, s'.conns[k])
           && ResponseMarks(s.conns[k], s.loop.batch[0].result, sends, now, s'.conns[k])
         else s'.conns[k] == s.conns[k]
  {
    ReachableInv(s);
    NotEstablishedAgain(s, RunTask(sends, now), k);
    OpenTurn(s, k);
    hide Reachable, Inv, Run, ResponseEffect, ResponseMarks, FinishRequest, TurnOk, Enabled, Apply;
    RunApplied(s, sends, now);
    var (s1, task) := (s.(loop := LoopQueue.NextTask(s.loop)), s.loop.batch[0]);
    RunTouches(s1, task, sends, now, k);
    if ResponseMeets(s, k) {
      ResponseDoes(TurnOf(s, k), task.id, task.result, sends, now);
      ResponseMarked(TurnOf(s, k), task.id, task.result, sends, now);
      assert TurnOf(s1, k) == TurnOf(s, k);
    }
  }

  // An idle connection without a past, registered for reading, to be checked for idleness when
  // the timeout has passed; the others are as they were.
  ghost predicate IsEstablished(s: Sys, s': Sys, k: nat, fd: int, now: int) {
    && k in s'.conns && s'.conns[k].fd == fd && Idle(s'.conns[k]) && s'.conns[k].lastActivity == now
    && s'.conns[k].received == s'.conns[k].sent == "" && s'.conns[k].dispatched == [] && s'.conns[k].answered == []
    && s'.channels == s.channels[fd := Channel(k, false)]
    && s'.timers == s.timers + multiset{Timer(now + s.idleTimeout, k, s'.conns[k].idleGeneration)}
    && (forall j <- s.conns :: j != k ==> j in s'.conns && s'.conns[j] == s.conns[j])
  }

  lemma Established(s: Sys, k: nat, fd: int, now: int)
    ensures IsEstablished(s, EstablishConn(s, k, fd, now), k, fd, now)
  {
  }

  lemma EstablishRun(s: Sys, sends: seq<Send>, now: int)
    requires !s.pool.stopping && s.loop.batch != [] && s.loop.batch[0].EstablishTask?
    ensures var s1 := s.(loop := s.loop.(batch := s.loop.batch[1..], executed := s.loop.executed + [s.loop.batch[0]]));
      Run(s1, s.loop.batch[0], sends, now) == EstablishConn(s1, s.loop.batch[0].conn, s.loop.batch[0].fd, now)
  {
    hide EstablishConn;
  }

  // An accepted descriptor becomes such a connection.
  lemma EstablishStep(s: Sys, sends: seq<Send>, now: int)
    requires Reachable(s) && Enabled(s, RunTask(sends, now)) && s.loop.batch[0].EstablishTask?
    ensures s.loop.batch[0].conn !in s.conns && s.loop.batch[0].fd >= 0 && s.loop.batch[0].fd !in s.channels
    ensures IsEstablished(s, Apply(s, RunTask(sends, now)), s.loop.batch[0].conn, s.loop.batch[0].fd, now)
  {
    ReachableInv(s);
    hide Reachable, Inv, Enabled, Apply, EstablishConn, Run;
    RunApplied(s, sends, now);
    var (k, fd, s1) := (s.loop.batch[0].conn, s.loop.batch[0].fd, s.(loop := LoopQueue.NextTask(s.loop)));
    EstablishFree(s, k, fd);
    EstablishRun(s, sends, now);
    Established(s1, k, fd, now);
  }

  // --- why a connection closes ----------------------------------------------------------

  // The step meets a broken socket: epoll reports an error, recv fails behind data and
  // interruptions only, or send fails before it has taken all there is.
  predicate MeetsFailure(s: Sys, l: Label, k: nat)
    requires k in s.conns
  {
    match l
    case DispatchSocket(recvs, sends, _, _) =>
      EventMeets(s, k) &&
      var events := s.loop.ready[0].events;
      || events.failed
      || (events.readable && RecvFails(recvs))
      || (events.writable && SendFails(sends, |s.conns[k].output|))
    case RunTask(sends, _) => ResponseMeets(s, k) && SendFails(sends, |s.loop.batch[0].result.response|)
    case _ => false
  }

  lemma TimerCause(s: Sys, timer: Timer, now: int, k: nat)
    requires Reachable(s) && Enabled(s, PopTimer(timer, now)) && k in s.conns && s.conns[k].fd >= 0
    ensures var s' := Apply(s, PopTimer(timer, now));
      k in s'.conns && (s'.conns[k].fd >= 0 || s'.conns[k].cause == Some(IdleTimeout))
  {
    PopTimerFacts(s, timer, now);
    hide Reachable, Enabled, Apply;
  }

  lemma EventFails(c: Conn, events: Events, recvs: seq<Recv>, sends: seq<Send>, c': Conn)
    requires EventEffect(c, events, recvs, sends, c')
    ensures c'.fd < 0 && c'.cause == Some(SocketError) <==>
      events.failed || (events.readable && RecvFails(recvs)) || (events.writable && SendFails(sends, |c.output|))
  {
    hide Delivered, RecvFails, SendFails, PeerEnds, Room;
  }

  lemma ResponseFails(c: Conn, result: ResponseResult, sends: seq<Send>, c': Conn)
    requires ResponseEffect(c, result, sends, c')
    ensures c'.fd < 0 && c'.cause == Some(SocketError) <==> SendFails(sends, |result.response|)
  {
    hide SendFails, Room;
  }

  // An open connection is closed for a socket error in exactly the steps that meet one.
  lemma BrokenSocketIsClosed(s: Sys, l: Label, k: nat)
    requires Reachable(s) && Enabled(s, l) && k in s.conns && s.conns[k].fd >= 0
    ensures k in Apply(s, l).conns
    ensures var c' := Apply(s, l).conns[k];
      c'.fd < 0 && c'.cause == Some(SocketError) <==> MeetsFailure(s, l, k)
  {
    hide Reachable, Enabled, Apply, RecvFails, SendFails, EventEffect, ResponseEffect, EventMarks, ResponseMarks;
    match l
    case DispatchSocket(recvs, sends, readNow, now) =>
      EventStep(s, recvs, sends, readNow, now, k);
      if EventMeets(s, k) {
        EventFails(s.conns[k], s.loop.ready[0].events, recvs, sends, Apply(s, l).conns[k]);
      }
    case RunTask(sends, now) =>
      ResponseStep(s, sends, now, k);
      if ResponseMeets(s, k) {
        ResponseFails(s.conns[k], s.loop.batch[0].result, sends, Apply(s, l).conns[k]);
      }
    case PopTimer(timer, now) => TimerCause(s, timer, now, k);
    case _ => OthersTouchNothing(s, l);
  }
}
