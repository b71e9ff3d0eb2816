// What the server promises, for every run from its initial state: any number of
// connections, workers and foreign threads, any fragmentation of input and output.
module ServerTheorems {
  import opened Framing
  import opened TcpProtocol
  import LoopQueue
  import WorkerPool
  import opened Server
  import opened ServerProof

  ghost predicate Reachable(s: Sys) {
    exists workers: set<nat>, idleTimeout, start, labels ::
      workers != {} && IsRun(Initial(workers, idleTimeout, start), labels)
      && s == After(Initial(workers, idleTimeout, start), labels)
  }

  lemma ReachableInv(s: Sys)
    requires Reachable(s)
    ensures Inv(s)
  {
    var workers: set<nat>, idleTimeout, start, labels :|
      workers != {} && IsRun(Initial(workers, idleTimeout, start), labels)
      && s == After(Initial(workers, idleTimeout, start), labels);
    InitialInv(workers, idleTimeout, start);
    RunKeepsInv(Initial(workers, idleTimeout, start), labels);
  }

  lemma {:induction false} RunKeepsWorkers(s: Sys, labels: seq<Label>)
    requires IsRun(s, labels)
    ensures WorkerPool.Workers(After(s, labels).pool) == WorkerPool.Workers(s.pool)
    decreases |labels|
  {
    if labels != [] {
      StepKeepsWorkers(s, labels[0]);
      RunKeepsWorkers(Apply(s, labels[0]), labels[1..]);
    }
  }

  lemma StepKeepsWorkers(s: Sys, l: Label)
    requires Enabled(s, l)
    ensures WorkerPool.Workers(Apply(s, l).pool) == WorkerPool.Workers(s.pool)
  {
    hide HandleEvent, FinishRequest, CloseIfIdle;
    if l.PoolAction? {
      WorkerPool.ActionKeepsWorkers(s.pool, l.poolAction);
    } else if l.EndRun? {
      WorkerPool.ActionKeepsWorkers(s.pool, WorkerPool.DoFinish(l.worker));
    }
  }

  lemma ReachableHasWorkers(s: Sys)
    requires Reachable(s)
    ensures WorkerPool.Workers(s.pool) != {}
  {
    var workers: set<nat>, idleTimeout, start, labels :|
      workers != {} && IsRun(Initial(workers, idleTimeout, start), labels)
      && s == After(Initial(workers, idleTimeout, start), labels);
    RunKeepsWorkers(Initial(workers, idleTimeout, start), labels);
  }

  // --- responses: in order, complete, nobody else's ----------------------------------

  // On every connection the bytes accepted by send, followed by those still buffered, are
  // the responses to its own first requests in the order it dispatched them, one for each
  // finished request.
  lemma ResponsesInOrder(s: Sys, k: nat)
    requires Reachable(s) && k in s.conns
    ensures var c := s.conns[k];
      && c.sent + c.output == Concat(Responses(c.answered))
      && |c.dispatched| == c.requestGeneration
      && |c.answered| == c.requestGeneration - (if c.processing then 1 else 0)
      && forall i :: 0 <= i < |c.answered| ==> Issue(Serve(k, i + 1, c.dispatched[i]), c.answered[i]) in s.issued
  {
    ReachableInv(s);
    var c := s.conns[k];
    assert TurnOk(TurnOf(s, k));
    hide FdsOk, ReadyOk, TimersOk, LiveOk, ClocksOk, LoopQueue.Inv, WorkerPool.NoLostNotify, TurnOk, ConnsOk;
    forall i | 0 <= i < |c.answered| ensures Issue(Serve(k, i + 1, c.dispatched[i]), c.answered[i]) in s.issued {
      IssueOf(s, k, i);
    }
  }

  // The connection closes after a response exactly when that response said so, and then it
  // was the last.
  lemma CloseIsAnnounced(s: Sys, k: nat)
    requires Reachable(s) && k in s.conns
    ensures ClosesLast(s.conns[k])
  {
    ReachableInv(s);
    assert TurnOk(TurnOf(s, k));
    hide ClosesLast;
  }

  lemma IssueOf(s: Sys, k: nat, i: nat)
    requires TicketsOk(s) && WorkerPool.Conserved(s.pool) && k in s.conns
    requires i < |s.conns[k].answered| <= |s.conns[k].dispatched|
    ensures Issue(Serve(k, i + 1, s.conns[k].dispatched[i]), s.conns[k].answered[i]) in s.issued
  {
    assert Issued(s.issued, k, i + 1, s.conns[k].answered[i]);
    var issue :| issue in s.issued && IsJobOf(issue.job, k, i + 1) && issue.result == s.conns[k].answered[i];
    var p :| 0 <= p < |s.pool.started| && s.pool.started[p] == issue.job;
    assert IsRequest(s, s.pool.submitted[p]);
  }

  // Only a run that a worker has started can answer, and no request is started twice.
  lemma RequestsRunOnce(s: Sys)
    requires Reachable(s)
    ensures forall issue <- s.issued :: issue.job.Serve? && issue.job in s.pool.started
    ensures forall p, q :: 0 <= p < q < |s.pool.started| && s.pool.started[p].Serve? ==> s.pool.started[p] != s.pool.started[q]
  {
    ReachableInv(s);
    hide ConnsOk, FdsOk, ReadyOk, TimersOk, LiveOk, ClocksOk, LoopQueue.Inv, WorkerPool.NoLostNotify, Issued;
    forall p, q | 0 <= p < q < |s.pool.started| && s.pool.started[p].Serve?
      ensures s.pool.started[p] != s.pool.started[q]
    {
      assert s.pool.submitted[p] == s.pool.started[p] && s.pool.submitted[q] == s.pool.started[q];
    }
  }

  ghost function Answers(handler: string -> string, requests: seq<string>): seq<string> {
    seq(|requests|, i requires 0 <= i < |requests| => handler(requests[i]))
  }

  // With a handler that answers equal requests equally, the byte stream a client sees is a
  // function of the bytes it sent: no trace of scheduling, of other clients or of how often
  // a handler completed is left in it.
  lemma StreamIsFunctionOfRequests(s: Sys, k: nat, handler: string -> string)
    requires Reachable(s) && k in s.conns
    requires forall issue <- s.issued :: issue.job.Serve? ==> issue.result.response == handler(issue.job.request)
    ensures var c := s.conns[k];
      && |c.answered| <= |c.dispatched|
      && c.sent + c.output == Concat(Answers(handler, c.dispatched[..|c.answered|]))
      && c.dispatched <= Split(c.received)
  {
    ResponsesInOrder(s, k);
    RequestsIndependentOfFragments(s, k);
    hide Reachable, Split, Concat;
    var c := s.conns[k];
    forall i | 0 <= i < |c.answered| ensures c.answered[i].response == handler(c.dispatched[i]) {
      assert Issue(Serve(k, i + 1, c.dispatched[i]), c.answered[i]) in s.issued;
    }
    assert Responses(c.answered) == Answers(handler, c.dispatched[..|c.answered|]);
  }

  // Nothing received is lost, and what is handed to the handler is read off the byte stream
  // alone: the front of its unique split into requests, however recv cut it up.
  lemma RequestsIndependentOfFragments(s: Sys, k: nat)
    requires Reachable(s) && k in s.conns
    ensures var c := s.conns[k];
      && c.received == Concat(c.dispatched) + c.input
      && Split(c.received) == c.dispatched + Split(c.input)
  {
    ReachableInv(s);
    assert TurnOk(TurnOf(s, k));
    hide Inv, Split, IsFrame, Concat;
    SplitAfterFrames(s.conns[k].dispatched, s.conns[k].input);
  }

  lemma ComparableFronts(d: seq<string>, r: string, d': seq<string>, r': string)
    requires d <= Split(r) && d' <= Split(r') && r <= r'
    ensures d <= d' || d' <= d
  {
    SplitOfMore(r, r'[|r|..]);
    assert r + r'[|r|..] == r';
    hide Split;
    var all := Split(r');
    assert d == all[..|d|] && d' == all[..|d'|];
    if |d| <= |d'| { assert d == d'[..|d|]; } else { assert d' == d[..|d'|]; }
  }

  // Two connections, in two runs, that received the same bytes in whatever pieces have
  // dispatched the same requests, as far as both have got.
  lemma EqualBytesEqualRequests(s: Sys, k: nat, s': Sys, k': nat)
    requires Reachable(s) && k in s.conns && Reachable(s') && k' in s'.conns
    requires s.conns[k].received <= s'.conns[k'].received
    ensures s.conns[k].dispatched <= s'.conns[k'].dispatched || s'.conns[k'].dispatched <= s.conns[k].dispatched
  {
    RequestsIndependentOfFragments(s, k);
    RequestsIndependentOfFragments(s', k');
    hide Reachable, Split, Concat;
    ComparableFronts(s.conns[k].dispatched, s.conns[k].received, s'.conns[k'].dispatched, s'.conns[k'].received);
  }

  // --- nothing is stranded ------------------------------------------------------------

  // Where the answer to the current request of a connection is.
  ghost predicate InQueue(s: Sys, k: nat, id: nat) {
    exists job <- s.pool.queue :: IsJobOf(job, k, id)
  }

  predicate IsRunning(s: Sys, w: nat, k: nat, id: nat) {
    w in s.pool.running && s.pool.running[w] < |s.pool.started| && IsJobOf(s.pool.started[s.pool.running[w]], k, id)
  }

  ghost predicate BeingServed(s: Sys, k: nat, id: nat) {
    exists w <- s.pool.running :: IsRunning(s, w, k, id)
  }

  // A handler run has ended and has not called complete so far.
  ghost predicate GivenUp(s: Sys, k: nat, id: nat) {
    exists p <- s.pool.finished :: p < |s.pool.started| && p !in s.completed && IsJobOf(s.pool.started[p], k, id)
  }

  ghost predicate OnTheWayBack(s: Sys, k: nat, id: nat) {
    exists task <- s.loop.batch + s.loop.pending :: IsResponseTo(task, k, id)
  }

  // Between callbacks an open connection is never forgotten: its flags, its buffers and its
  // epoll mask agree, a complete request or a half-close is being acted upon, and the answer
  // it waits for is queued, being computed or on its way back, or its handler's run ended without it.
  lemma NothingIsStranded(s: Sys, k: nat)
    requires Reachable(s) && k in s.conns && s.conns[k].fd >= 0
    ensures var c := s.conns[k];
      && !(c.processing && c.responseReady)
      && (c.responseReady <==> c.output != "")
      && c.fd in s.channels && s.channels[c.fd] == Channel(k, c.responseReady)
      && (HasComplete(c.input) || c.peerClosed ==> c.processing || c.responseReady)
      && (c.processing ==>
            || InQueue(s, k, c.requestGeneration) || BeingServed(s, k, c.requestGeneration)
            || OnTheWayBack(s, k, c.requestGeneration) || GivenUp(s, k, c.requestGeneration))
  {
    ReachableInv(s);
    assert TurnOk(TurnOf(s, k)) && s.conns[k].id == k;
    if s.conns[k].processing {
      WhereAwaited(s, k, s.conns[k].requestGeneration);
    }
  }

  lemma WhereAwaited(s: Sys, k: nat, id: nat)
    requires Inv(s) && Awaited(s, k, id)
    ensures InQueue(s, k, id) || BeingServed(s, k, id) || OnTheWayBack(s, k, id) || GivenUp(s, k, id)
  {
    hide ConnsOk, FdsOk, ReadyOk, TicketsOk, TimersOk, LiveOk, ClocksOk, WorkerPool.NoLostNotify;
    if i :| Outstanding(s, i) && IsResponseTo(s.loop.pushed[i], k, id) {
      var rest := s.loop.batch + s.loop.pending;
      assert s.loop.pushed == s.loop.executed + rest;
      assert rest[i - |s.loop.executed|] == s.loop.pushed[i];
    } else {
      var p :| 0 <= p < |s.pool.submitted| && p !in s.completed && IsJobOf(s.pool.submitted[p], k, id);
      if p >= |s.pool.started| {
        assert s.pool.queue[p - |s.pool.started|] == s.pool.submitted[p];
      } else if p !in s.pool.finished {
        var w :| w in s.pool.running && s.pool.running[w] == p;
        assert s.pool.started[p] == s.pool.submitted[p];
        assert IsRunning(s, w, k, id);
      }
    }
  }

  // --- closing ------------------------------------------------------------------------

  // A close that no socket error forced truncates nothing: every dispatched request has been
  // answered and every answer sent; unless the last response asked for it, no complete
  // request is dropped either. The descriptor left epoll once and was then closed once.
  lemma CloseNeverTruncates(s: Sys, k: nat)
    requires Reachable(s) && k in s.conns && s.conns[k].fd < 0
    ensures s.conns[k].fdOps == [Unregister(s.conns[k].openedFd), CloseFd(s.conns[k].openedFd)]
    ensures s.conns[k].cause.Some?
    ensures var c := s.conns[k];
      c.cause.value != SocketError ==>
        && c.sent == Concat(Responses(c.answered)) && |c.answered| == |c.dispatched|
        && (c.closeAfterResponse || c.dispatched == Split(c.received))
  {
    RequestsIndependentOfFragments(s, k);
    assert ConnOk(s.conns[k]) by { ReachableInv(s); assert TurnOk(TurnOf(s, k)); }
    hide Reachable, Concat, IsFrame;
    ClosedConnection(s.conns[k]);
  }

  lemma ClosedConnection(c: Conn)
    requires ConnOk(c) && c.fd < 0 && Split(c.received) == c.dispatched + Split(c.input)
    ensures ClosedCleanly(c)
    ensures c.cause.value != SocketError ==>
      && c.sent == Concat(Responses(c.answered)) && |c.answered| == |c.dispatched|
      && (c.closeAfterResponse || c.dispatched == Split(c.received))
  {
    hide Concat, IsFrame, FrameEnd;
    if c.cause.value != SocketError {
      assert c.sent + c.output == c.sent;
      assert c.dispatched + [] == c.dispatched;
    }
  }

  // What becomes of connection k: once closed it never changes again, and its quiet time
  // goes on as long as it stays idle without activity.
  ghost predicate Undisturbed(s: Sys, s': Sys, k: nat)
    requires k in s.conns
  {
    && k in s'.conns && k in s.quietSince && k in s'.quietSince
    && (s.conns[k].fd < 0 ==> s'.conns[k] == s.conns[k])
    && (Idle(s.conns[k]) && Idle(s'.conns[k]) && s'.conns[k].idleGeneration == s.conns[k].idleGeneration ==>
          s'.quietSince[k] == s.quietSince[k])
  }

  lemma AbsorbTouches(s: Sys, j: nat, t: Turn, now: int, k: nat)
    requires j in s.conns && k in s.conns && k in s.quietSince && !s.pool.stopping
    requires s.conns[j].fd < 0 ==> t.conn == s.conns[j]
    ensures Undisturbed(s, Absorb(s, j, t, now), k)
  {
  }

  lemma DispatchTouches(s: Sys, e: LoopQueue.Ready, recvs: seq<Recv>, sends: seq<Send>, readNow: int, now: int, k: nat)
    requires FdsOk(s) && k in s.conns && k in s.quietSince && !s.pool.stopping && e.Socket?
    ensures Undisturbed(s, Dispatch(s, e, recvs, sends, readNow, now), k)
  {
    if e.fd in s.channels {
      ChannelOwner(s, e.fd);
      hide HandleEvent, HandleRead, MayWrite, FdsOk, Absorb;
      var j := s.channels[e.fd].conn;
      var t := TurnOf(s, j);
      if e.events.failed || !e.events.writable || MayWrite(if e.events.readable then HandleRead(t, recvs, readNow) else t) {
        AbsorbTouches(s, j, HandleEvent(t, e.events, recvs, sends, readNow, now), now, k);
      }
    }
  }

  lemma TaskTouches(s: Sys, task: Task, sends: seq<Send>, now: int, k: nat)
    requires k in s.conns && k in s.quietSince && !s.pool.stopping
    requires task.EstablishTask? ==> task.conn != k
    ensures Undisturbed(s, Run(s, task, sends, now), k)
  {
    if task.FinishTask? && task.conn in s.conns {
      var t := TurnOf(s, task.conn);
      if AcceptsResponse(t.conn, task.id) ==> t.conn.fd in t.channels {
        hide HandleWrite, Absorb;
        AbsorbTouches(s, task.conn, FinishRequest(t, task.id, task.result, sends, now), now, k);
      }
    }
  }

  lemma FireTouches(s: Sys, timer: Timer, now: int, k: nat)
    requires k in s.conns && k in s.quietSince && !s.pool.stopping
    ensures Undisturbed(s, Fire(s, timer, now), k)
  {
    if timer.conn in s.conns {
      hide Absorb;
      AbsorbTouches(s, timer.conn, CloseIfIdle(TurnOf(s, timer.conn), timer.generation, now), now, k);
    }
  }

  predicate IsCallback(l: Label) {
    l.DispatchSocket? || l.RunTask? || l.PopTimer?
  }

  lemma OthersTouchNothing(s: Sys, l: Label)
    requires Enabled(s, l) && !IsCallback(l)
    ensures Apply(s, l).conns == s.conns && Apply(s, l).quietSince == s.quietSince
  {
  }

  lemma EstablishOfAnother(s: Sys, k: nat)
    requires Inv(s) && LoopQueue.AtTask(s.loop) && k in s.conns && s.loop.batch[0].EstablishTask?
    ensures s.loop.batch[0].conn != k
  {
    hide Inv;
    EstablishFree(s, s.loop.batch[0].conn, s.loop.batch[0].fd);
  }

  lemma CallbackTouches(s: Sys, l: Label, k: nat)
    requires Inv(s) && FdsOk(s) && Enabled(s, l) && IsCallback(l) && k in s.conns && k in s.quietSince
    ensures Undisturbed(s, Apply(s, l), k)
  {
    hide Dispatch, Run, Fire, Inv, FdsOk;
    match l
    case DispatchSocket(recvs, sends, readNow, now) =>
      var s1 := s.(loop := LoopQueue.NextSocket(s.loop));
      SameFds(s, s1);
      DispatchTouches(s1, s.loop.ready[0], recvs, sends, readNow, now, k);
    case RunTask(sends, now) =>
      if s.loop.batch[0].EstablishTask? { EstablishOfAnother(s, k); }
      TaskTouches(s.(loop := LoopQueue.NextTask(s.loop)), s.loop.batch[0], sends, now, k);
    case PopTimer(timer, now) =>
      FireTouches(s.(timers := s.timers - multiset{timer}), timer, now, k);
  }

  lemma StepTouches(s: Sys, l: Label, k: nat)
    requires Reachable(s) && Enabled(s, l) && k in s.conns
    ensures Undisturbed(s, Apply(s, l), k)
  {
    ReachableInv(s);
    Parts(s);
    assert k in s.quietSince;
    hide *;
    if IsCallback(l) {
      CallbackTouches(s, l, k);
    } else {
      OthersTouchNothing(s, l);
      SameUndisturbed(s, Apply(s, l), k);
    }
  }

  lemma SameUndisturbed(s: Sys, s': Sys, k: nat)
    requires k in s.conns && k in s.quietSince && s'.conns == s.conns && s'.quietSince == s.quietSince
    ensures Undisturbed(s, s', k)
  {
  }

  lemma ClosedStaysClosed(s: Sys, l: Label, k: nat)
    requires Reachable(s) && k in s.conns && s.conns[k].fd < 0 && Enabled(s, l)
    ensures k in Apply(s, l).conns && Apply(s, l).conns[k] == s.conns[k]
  {
    hide Reachable, Apply, Enabled;
    StepTouches(s, l, k);
  }

  // Connection k is open and its last response is still being sent.
  ghost predicate Ending(s: Sys, k: nat) {
    && k in s.conns && !s.pool.stopping
    && s.conns[k].fd >= 0 && s.conns[k].closeAfterResponse && s.conns[k].responseReady && !s.conns[k].processing
  }

  lemma EndingOpen(s: Sys, k: nat)
    requires ConnsOk(s) && !s.pool.stopping && k in s.conns && s.conns[k].fd >= 0 && s.conns[k].closeAfterResponse
    ensures Ending(s, k)
  {
    assert TurnOk(TurnOf(s, k));
  }

  lemma DispatchEnding(s: Sys, e: LoopQueue.Ready, recvs: seq<Recv>, sends: seq<Send>, readNow: int, now: int, k: nat)
    requires Ending(s, k) && e.Socket?
    ensures k in Dispatch(s, e, recvs, sends, readNow, now).conns
    ensures SaysNoMore(s.conns[k], Dispatch(s, e, recvs, sends, readNow, now).conns[k])
  {
    if e.fd in s.channels && s.channels[e.fd].conn == k {
      hide HandleRead, HandleEvent, MayWrite;
      var t := TurnOf(s, k);
      if e.events.failed || !e.events.writable || MayWrite(if e.events.readable then HandleRead(t, recvs, readNow) else t) {
        HandleEventSaysNoMore(t, e.events, recvs, sends, readNow, now);
      }
    }
  }

  lemma TaskEnding(s: Sys, task: Task, sends: seq<Send>, now: int, k: nat)
    requires Ending(s, k) && (task.EstablishTask? ==> task.conn != k)
    ensures k in Run(s, task, sends, now).conns
    ensures SaysNoMore(s.conns[k], Run(s, task, sends, now).conns[k])
  {
    hide HandleWrite;
  }

  lemma FireEnding(s: Sys, timer: Timer, now: int, k: nat)
    requires Ending(s, k)
    ensures k in Fire(s, timer, now).conns
    ensures SaysNoMore(s.conns[k], Fire(s, timer, now).conns[k])
  {
  }

  lemma OpenSaysNoMore(s: Sys, l: Label, k: nat)
    requires Ending(s, k) && Enabled(s, l) && IsCallback(l)
    requires l.RunTask? && s.loop.batch[0].EstablishTask? ==> s.loop.batch[0].conn != k
    ensures k in Apply(s, l).conns && SaysNoMore(s.conns[k], Apply(s, l).conns[k])
  {
    hide Dispatch, Run, Fire, SaysNoMore, Reported, IsTop;
    match l
    case DispatchSocket(recvs, sends, readNow, now) =>
      DispatchEnding(s.(loop := LoopQueue.NextSocket(s.loop)), s.loop.ready[0], recvs, sends, readNow, now, k);
    case RunTask(sends, now) =>
      TaskEnding(s.(loop := LoopQueue.NextTask(s.loop)), s.loop.batch[0], sends, now, k);
    case PopTimer(timer, now) =>
      FireEnding(s.(timers := s.timers - multiset{timer}), timer, now, k);
  }

  // After a response that asks to close the connection no request is handed to the handler
  // and no response is taken any more, whatever else happens (section 9.6 of RFC 9112).
  lemma CloseResponseIsLast(s: Sys, l: Label, k: nat)
    requires Reachable(s) && Enabled(s, l) && k in s.conns && s.conns[k].closeAfterResponse
    ensures k in Apply(s, l).conns && SaysNoMore(s.conns[k], Apply(s, l).conns[k])
  {
    ReachableInv(s);
    hide *;
    Parts(s);
    if !IsCallback(l) {
      OthersTouchNothing(s, l);
      SameSaysNoMore(s.conns[k]);
    } else if s.conns[k].fd < 0 {
      ClosedStaysClosed(s, l, k);
      SameSaysNoMore(s.conns[k]);
    } else {
      EndingOpen(s, k);
      NotEstablishedAgain(s, l, k);
      OpenSaysNoMore(s, l, k);
    }
  }

  lemma SameSaysNoMore(c: Conn)
    ensures c.closeAfterResponse ==> SaysNoMore(c, c)
  {
  }

  lemma NotEstablishedAgain(s: Sys, l: Label, k: nat)
    requires Inv(s) && Enabled(s, l) && k in s.conns
    ensures l.RunTask? ==> s.loop.batch != [] && (s.loop.batch[0].EstablishTask? ==> s.loop.batch[0].conn != k)
  {
    hide Inv;
    if l.RunTask? && s.loop.batch[0].EstablishTask? { EstablishOfAnother(s, k); }
  }

  // --- descriptors --------------------------------------------------------------------

  // An event is delivered to the connection it was reported for or to nobody, although the
  // descriptor may have been closed and handed out again since; and no epoll_ctl call of the
  // loop thread ever fails, so the thread survives.
  lemma StaleEventsReachNobody(s: Sys)
    requires Reachable(s)
    ensures !s.crashed
    ensures LoopQueue.AtSocket(s.loop) ==>
      var e := s.loop.ready[0];
      e.fd in s.channels ==> s.channels[e.fd].conn == e.conn && e.conn in s.conns && s.conns[e.conn].fd == e.fd
    ensures forall j, k :: j in s.conns && k in s.conns && j != k && s.conns[j].fd >= 0 ==> s.conns[j].fd != s.conns[k].fd
  {
    assert FdsOk(s) && ReadyOk(s) && !s.crashed by { ReachableInv(s); }
    hide Reachable;
    if LoopQueue.AtSocket(s.loop) {
      assert EventOk(s, s.loop.ready[0]);
    }
  }

  // --- idle timers --------------------------------------------------------------------

  lemma OneTimerEach(s: Sys, k: nat)
    requires Reachable(s) && k in s.conns && s.conns[k].fd >= 0
    ensures exists t <- s.timers :: t.conn == k && s.timers[t] == 1 && forall u <- s.timers :: u.conn == k ==> u == t
  {
    ReachableInv(s);
    hide TurnOk, LiveOk, TicketsOk, ConnsOk, ClocksOk, FdsOk, ReadyOk, LoopQueue.Inv, WorkerPool.Inv;
    assert HasTimer(s.timers, k);
    var t :| t in s.timers && t.conn == k;
  }

  // A timer closes no connection but its own, and that only if it is idle and the timeout has
  // passed since the activity it remembers.
  lemma TimerClosesItsOwn(s: Sys, timer: Timer, now: int, k: nat)
    requires Reachable(s) && Enabled(s, PopTimer(timer, now)) && k in s.conns && s.conns[k].fd >= 0
    ensures Apply(s, PopTimer(timer, now)).conns[k].fd < 0 ==>
      k == timer.conn && Idle(s.conns[k]) && s.conns[k].lastActivity + s.idleTimeout <= s.loop.phase.now <= now
  {
    PopTimerFacts(s, timer, now);
    assert TimerOk(s, timer) by { ReachableInv(s); }
    hide Reachable, Enabled, Apply;
  }

  // When runExpiredTimers(now) returns, no open connection has been idle and inactive since
  // now - timeout or longer: each of those was closed in this very call.
  lemma TimersLeaveNoneQuiet(s: Sys, k: nat)
    requires Reachable(s) && Enabled(s, LoopAction(LoopQueue.DoTimersDone))
    requires k in s.conns && s.conns[k].fd >= 0 && Idle(s.conns[k])
    ensures k in s.quietSince && s.conns[k].lastActivity <= s.quietSince[k]
    ensures s.quietSince[k] + s.idleTimeout > s.loop.phase.now
  {
    assert TimersOk(s) && ClocksOk(s) by { ReachableInv(s); }
    NothingDue(s);
    hide Reachable, Enabled, OnePerConn, Idle;
    assert HasTimer(s.timers, k);
    var t :| t in s.timers && t.conn == k;
    assert TimerOk(s, t);
  }

  lemma NothingDue(s: Sys)
    requires Enabled(s, LoopAction(LoopQueue.DoTimersDone))
    ensures s.loop.phase.RunningTimers? && forall t <- s.timers :: t.expires > s.loop.phase.now
  {
  }

  // Connection k is open, idle and without activity in every state of the run.
  ghost predicate StaysIdle(s: Sys, labels: seq<Label>, k: nat)
    requires IsRun(s, labels)
    decreases |labels|
  {
    && k in s.conns && s.conns[k].fd >= 0 && Idle(s.conns[k])
    && (labels != [] ==>
          var s' := Apply(s, labels[0]);
          && k in s'.conns && s'.conns[k].idleGeneration == s.conns[k].idleGeneration
          && StaysIdle(s', labels[1..], k))
  }

  lemma {:induction false} QuietWhileIdle(s: Sys, labels: seq<Label>, k: nat)
    requires Reachable(s) && IsRun(s, labels) && StaysIdle(s, labels, k)
    ensures var s' := After(s, labels);
      && Reachable(s') && k in s'.conns && s'.conns[k].fd >= 0 && Idle(s'.conns[k])
      && k in s.quietSince && k in s'.quietSince && s'.quietSince[k] == s.quietSince[k] <= s.clock
    decreases |labels|
  {
    assert k in s.quietSince && s.quietSince[k] <= s.clock by { ReachableInv(s); }
    if labels != [] {
      StepReachable(s, labels[0]);
      StepTouches(s, labels[0], k);
      QuietWhileIdle(Apply(s, labels[0]), labels[1..], k);
    }
  }

  lemma StepReachable(s: Sys, l: Label)
    requires Reachable(s) && Enabled(s, l)
    ensures Reachable(Apply(s, l))
  {
    var workers: set<nat>, idleTimeout, start, labels :|
      workers != {} && IsRun(Initial(workers, idleTimeout, start), labels)
      && s == After(Initial(workers, idleTimeout, start), labels);
    RunSnoc(Initial(workers, idleTimeout, start), labels, l);
  }

  lemma {:induction false} RunSnoc(s: Sys, labels: seq<Label>, l: Label)
    requires IsRun(s, labels) && Enabled(After(s, labels), l)
    ensures IsRun(s, labels + [l]) && After(s, labels + [l]) == Apply(After(s, labels), l)
    decreases |labels|
  {
    hide Apply, Enabled;
    if labels == [] {
      assert labels + [l] == [l];
      assert [l][1..] == [];
    } else {
      RunSnoc(Apply(s, labels[0]), labels[1..], l);
      assert (labels + [l])[1..] == labels[1..] + [l];
    }
  }

  // A connection that has been idle and inactive ever since time a = s.clock does not
  // survive the first runExpiredTimers(now) with now >= a + timeout.
  lemma IdleConnectionIsClosedInTime(s: Sys, labels: seq<Label>, k: nat)
    requires Reachable(s) && IsRun(s, labels) && StaysIdle(s, labels, k)
    requires Enabled(After(s, labels), LoopAction(LoopQueue.DoTimersDone))
    ensures After(s, labels).loop.phase.now < s.clock + After(s, labels).idleTimeout
  {
    QuietWhileIdle(s, labels, k);
    TimersLeaveNoneQuiet(After(s, labels), k);
  }

  // Work left in runExpiredTimers(n): a due timer of the current generation is one step, a
  // stale one two, because it may be re-armed inside the same call.
  function Weight(conns: map<nat, Conn>, t: Timer, n: int): nat {
    if t.expires > n then 0
    else if t.conn in conns && t.generation != conns[t.conn].idleGeneration then 2
    else 1
  }

  ghost function Work(timers: multiset<Timer>, conns: map<nat, Conn>, n: int): nat
    decreases |timers|
  {
    if timers == multiset{} then 0
    else var t :| t in timers; Weight(conns, t, n) + Work(timers - multiset{t}, conns, n)
  }

  lemma {:induction false} WorkOf(timers: multiset<Timer>, conns: map<nat, Conn>, n: int, x: Timer)
    requires x in timers
    ensures Work(timers, conns, n) == Weight(conns, x, n) + Work(timers - multiset{x}, conns, n)
    decreases |timers|
  {
    var t :| t in timers && Work(timers, conns, n) == Weight(conns, t, n) + Work(timers - multiset{t}, conns, n);
    if t != x {
      WorkOf(timers - multiset{t}, conns, n, x);
      WorkOf(timers - multiset{x}, conns, n, t);
      assert timers - multiset{t} - multiset{x} == timers - multiset{x} - multiset{t};
    }
  }

  lemma {:induction false} WorkSame(timers: multiset<Timer>, conns: map<nat, Conn>, conns': map<nat, Conn>, n: int)
    requires forall t <- timers :: Weight(conns', t, n) == Weight(conns, t, n)
    ensures Work(timers, conns', n) == Work(timers, conns, n)
    decreases |timers|
  {
    if timers != multiset{} {
      var t :| t in timers;
      WorkOf(timers, conns, n, t);
      WorkOf(timers, conns', n, t);
      WorkSame(timers - multiset{t}, conns, conns', n);
    }
  }

  // runExpiredTimers terminates although its callbacks push new timers into the queue it
  // drains: with a positive timeout every popped timer leaves less work. No other thread
  // can add work, because only callbacks touch timers and connections.
  lemma TimersTerminate(s: Sys, timer: Timer, now: int)
    requires Reachable(s) && s.idleTimeout > 0 && Enabled(s, PopTimer(timer, now))
    ensures var (s', n) := (Apply(s, PopTimer(timer, now)), s.loop.phase.now);
      Work(s'.timers, s'.conns, n) < Work(s.timers, s.conns, n)
  {
    var (s', n, k) := (Apply(s, PopTimer(timer, now)), s.loop.phase.now, timer.conn);
    PopTimerEffect(s, timer, now);
    var c := s.conns[k];
    var base := s.timers - multiset{timer};
    hide *;
    WorkOf(s.timers, s.conns, n, timer);
    WorkSame(base, s.conns, s'.conns, n);
    if s'.timers != base {
      var next :| s'.timers == base + multiset{next} && Weight(s'.conns, next, n) < Weight(s.conns, timer, n);
      WorkOf(s'.timers, s'.conns, n, next);
      assert s'.timers - multiset{next} == base;
    }
  }

  lemma RearmedIsLess(conns: map<nat, Conn>, timer: Timer, now: int, n: int)
    requires timer.conn in conns && timer.expires <= n <= now
    requires var c := conns[timer.conn]; c.id == timer.conn && c.idleTimeout > 0 && Rearms(c, timer.generation)
    ensures Weight(conns, Rearmed(conns[timer.conn], timer.generation, now), n) < Weight(conns, timer, n)
  {
  }

  lemma PopTimerFacts(s: Sys, timer: Timer, now: int)
    requires Reachable(s) && Enabled(s, PopTimer(timer, now))
    ensures timer in s.timers && timer.conn in s.conns && timer.expires <= s.loop.phase.now <= now
    ensures s.conns[timer.conn].id == timer.conn && s.conns[timer.conn].idleTimeout == s.idleTimeout
    ensures forall t <- s.timers - multiset{timer} :: t.conn != timer.conn
    ensures var s1 := s.(timers := s.timers - multiset{timer});
      !s.pool.stopping &&
      Apply(s, PopTimer(timer, now)) ==
        Absorb(s1, timer.conn, CloseIfIdle(TurnOf(s1, timer.conn), timer.generation, now), now)
  {
    assert TimersOk(s) && ConnsOk(s) && ClocksOk(s) by { ReachableInv(s); }
    hide Reachable, TurnOk, Absorb, CloseIfIdle;
    assert TimerOk(s, timer);
  }

  lemma PopTimerEffect(s: Sys, timer: Timer, now: int)
    requires Reachable(s) && s.idleTimeout > 0 && Enabled(s, PopTimer(timer, now))
    ensures timer in s.timers && timer.conn in s.conns
    ensures var (s', n, base) := (Apply(s, PopTimer(timer, now)), s.loop.phase.now, s.timers - multiset{timer});
      && Weight(s.conns, timer, n) > 0
      && (forall t <- base :: Weight(s'.conns, t, n) == Weight(s.conns, t, n))
      && (s'.timers == base
          || exists next :: s'.timers == base + multiset{next} && Weight(s'.conns, next, n) < Weight(s.conns, timer, n))
  {
    PopTimerFacts(s, timer, now);
    var (n, k) := (s.loop.phase.now, timer.conn);
    var c := s.conns[k];
    var s1 := s.(timers := s.timers - multiset{timer});
    var t' := CloseIfIdle(TurnOf(s1, k), timer.generation, now);
    CloseIfIdleTimers(TurnOf(s1, k), timer.generation, now);
    hide CloseIfIdle, Apply, Enabled, Rearms, Rearmed, Reachable;
    if Rearms(c, timer.generation) {
      RearmedIsLess(s.conns, timer, now, n);
      assert s.conns[k := t'.conn] == s.conns;
    }
  }

  lemma OthersLeaveTimersAlone(s: Sys, l: Label)
    requires Enabled(s, l) && s.loop.phase.RunningTimers? && !l.PopTimer?
    ensures Apply(s, l).timers == s.timers && Apply(s, l).conns == s.conns
  {
  }

  // --- hand-off between threads -------------------------------------------------------

  // Tasks run in push order, each once, and the loop never sleeps over one of them or over
  // a request to quit unless the wakeup is already under way.
  lemma NoWakeupIsLost(s: Sys)
    requires Reachable(s)
    ensures s.loop.executed <= s.loop.pushed
    ensures s.loop.phase == LoopQueue.Waiting && (s.loop.pending != [] || s.loop.quit) ==>
      s.loop.counter > 0 || s.loop.writers > 0
    ensures s.pool.submitted == s.pool.started + s.pool.queue
    ensures s.pool.queue != [] && s.pool.notifies == 0 && s.pool.awake == {} ==>
      s.pool.running.Keys == WorkerPool.Workers(s.pool)
  {
    ReachableInv(s);
    ReachableHasWorkers(s);
    hide ConnsOk, FdsOk, ReadyOk, TicketsOk, TimersOk, LiveOk, ClocksOk;
    LoopOrder(s.loop);
    if s.pool.queue != [] { WorkerPool.QueuedTaskIsServed(s.pool); }
  }

  lemma {:induction false} TopExists(timers: multiset<Timer>) returns (top: Timer)
    requires timers != multiset{}
    ensures IsTop(timers, top)
    decreases |timers|
  {
    top :| top in timers;
    var rest := timers - multiset{top};
    if rest != multiset{} {
      var other := TopExists(rest);
      if other.expires < top.expires {
        forall t | t in timers ensures other.expires <= t.expires {
          assert t == top || t in rest;
        }
        top := other;
      } else {
        forall t | t in timers ensures top.expires <= t.expires {
          assert t == top || t in rest;
        }
      }
    } else {
      assert timers == rest + multiset{top};
    }
  }
}
