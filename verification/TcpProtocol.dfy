// What one callback of a connection does, as functions on values: the connection,
// the channel table and timers of its loop, and the jobs it hands to the workers.
// The class in TcpConnection.dfy is proved equal to these functions; the machine in
// Server.dfy runs them under every interleaving.
module TcpProtocol {
  import opened Framing

  datatype Option<+T> = None | Some(value: T)

  // --- the kernel's answers ---------------------------------------------------------

  type Chunk = c: string | 0 < |c| <= 4096 witness "x"
  type Positive = n: nat | n > 0 witness 1

  // One answer of recv. A script that runs out stands for EAGAIN.
  datatype Recv = Data(chunk: Chunk) | Eof | RecvInterrupted | RecvWouldBlock | RecvFailed

  // One answer of send: it takes at most `limit` bytes of what it is offered.
  datatype Send = Take(limit: Positive) | SendInterrupted | SendWouldBlock | SendFailed

  datatype RecvEnd = ReadAll | PeerFinished | ReadBroken

  // What a script delivers before its first answer that ends the recv loop.
  function RecvBytes(recvs: seq<Recv>): string {
    if recvs == [] then ""
    else match recvs[0]
      case Data(chunk) => chunk + RecvBytes(recvs[1..])
      case RecvInterrupted => RecvBytes(recvs[1..])
      case _ => ""
  }

  function RecvOutcome(recvs: seq<Recv>): RecvEnd {
    if recvs == [] then ReadAll
    else match recvs[0]
      case Data(_) => RecvOutcome(recvs[1..])
      case RecvInterrupted => RecvOutcome(recvs[1..])
      case Eof => PeerFinished
      case RecvWouldBlock => ReadAll
      case RecvFailed => ReadBroken
  }

  datatype SendEnd = Drained | Blocked | WriteBroken

  function Min(a: nat, b: nat): nat { if a < b then a else b }

  // How many bytes of `output` a script takes before the send loop ends.
  function SentCount(output: string, sends: seq<Send>): (n: nat)
    ensures n <= |output|
    decreases |sends|
  {
    if output == "" || sends == [] then 0
    else match sends[0]
      case Take(limit) => var n := Min(limit, |output|); n + SentCount(output[n..], sends[1..])
      case SendInterrupted => SentCount(output, sends[1..])
      case _ => 0
  }

  function SendOutcome(output: string, sends: seq<Send>): (end: SendEnd)
    ensures end == Drained <==> SentCount(output, sends) == |output|
    decreases |sends|
  {
    if output == "" then Drained
    else if sends == [] then Blocked
    else match sends[0]
      case Take(limit) => SendOutcome(output[Min(limit, |output|)..], sends[1..])
      case SendInterrupted => SendOutcome(output, sends[1..])
      case SendWouldBlock => Blocked
      case SendFailed => WriteBroken
  }

  // --- state ------------------------------------------------------------------------

  // What a handler completes a request with.
  datatype ResponseResult = ResponseResult(response: string, closeAfter: bool)

  datatype Channel = Channel(conn: nat, writing: bool)
  datatype Timer = Timer(expires: int, conn: nat, generation: nat)
  datatype Job = Serve(conn: nat, id: nat, request: string) | OtherJob
  datatype Cause = SocketError | PeerClosed | ResponseSent | IdleTimeout
  datatype FdOp = Unregister(fd: int) | CloseFd(fd: int)

  // The fields of a connection, followed by the history of one run.
  datatype Conn = Conn(
    id: nat,
    fd: int,
    input: string,
    output: string,
    responseReady: bool,
    closeAfterResponse: bool,
    peerClosed: bool,
    idleTimeout: int,
    lastActivity: int,
    idleGeneration: nat,
    processing: bool,
    requestGeneration: nat,
    // history
    openedFd: int,
    received: string,          // everything recv delivered
    sent: string,              // everything send accepted
    dispatched: seq<string>,   // requests handed to the handler
    answered: seq<ResponseResult>,   // taken from the handler
    fdOps: seq<FdOp>,
    cause: Option<Cause>
  )

  datatype Turn = Turn(conn: Conn, channels: map<int, Channel>, timers: multiset<Timer>, jobs: seq<Job>)

  datatype Events = Events(failed: bool, readable: bool, writable: bool)

  predicate Idle(c: Conn) {
    c.input == "" && c.output == "" && !c.responseReady && !c.processing
  }

  function FreshConn(id: nat, fd: int, idleTimeout: int): Conn {
    Conn(id, fd, "", "", false, false, false, idleTimeout, 0, 0, false, 0, fd, "", "", [], [], [], None)
  }

  // --- callbacks --------------------------------------------------------------------

  function Close(t: Turn, cause: Cause): Turn {
    var c := t.conn;
    if c.fd < 0 then t
    else
      var unregister := if c.fd in t.channels then [Unregister(c.fd)] else [];
      t.(channels := t.channels - {c.fd},
         conn := c.(fd := -1, fdOps := c.fdOps + unregister + [CloseFd(c.fd)], cause := Some(cause)))
  }

  // epoll_ctl(MOD) throws when the fd is not registered.
  function SetWriting(t: Turn, writing: bool): Turn
    requires t.conn.fd in t.channels
  {
    t.(channels := t.channels[t.conn.fd := t.channels[t.conn.fd].(writing := writing)])
  }

  function MarkActivity(c: Conn, now: int): Conn {
    c.(lastActivity := now, idleGeneration := c.idleGeneration + 1)
  }

  function ScheduleIdleCheck(t: Turn, expires: int): Turn {
    t.(timers := t.timers + multiset{Timer(expires, t.conn.id, t.conn.idleGeneration)})
  }

  function Establish(t: Turn, now: int): Turn {
    var c := MarkActivity(t.conn, now);
    var registered := t.(conn := c, channels := t.channels[c.fd := Channel(c.id, false)]);
    ScheduleIdleCheck(registered, c.lastActivity + c.idleTimeout)
  }

  function ProcessRequest(t: Turn): Turn
    requires HasComplete(t.conn.input)
  {
    var c := t.conn;
    var end := FrameEnd(c.input);
    var request := c.input[..end];
    t.(conn := c.(input := c.input[end..],
                  processing := true,
                  requestGeneration := c.requestGeneration + 1,
                  dispatched := c.dispatched + [request]),
       jobs := t.jobs + [Serve(c.id, c.requestGeneration + 1, request)])
  }

  // The part of handleRead behind its recv loop.
  function AfterReceive(t: Turn, receivedData: bool, now: int): Turn {
    var c := if receivedData then MarkActivity(t.conn, now) else t.conn;
    if !c.responseReady && !c.processing && FrameEnd(c.input) > 0 then ProcessRequest(t.(conn := c))
    else if c.peerClosed && !c.responseReady && !c.processing then Close(t.(conn := c), PeerClosed)
    else t.(conn := c)
  }

  function HandleRead(t: Turn, recvs: seq<Recv>, now: int): Turn {
    var bytes := if t.conn.fd < 0 then "" else RecvBytes(recvs);
    var end := if t.conn.fd < 0 then ReadBroken else RecvOutcome(recvs);
    var c := t.conn.(input := t.conn.input + bytes,
                     received := t.conn.received + bytes,
                     peerClosed := t.conn.peerClosed || end == PeerFinished);
    if end == ReadBroken then Close(t.(conn := c), SocketError) else AfterReceive(t.(conn := c), bytes != "", now)
  }

  // Updating the channel of a connection that is no longer registered would throw.
  predicate MayWrite(t: Turn) {
    if t.conn.fd < 0 then t.conn.output != "" else t.conn.fd in t.channels
  }

  // The part of handleWrite behind its send loop, once the buffer is empty.
  function AfterSend(t: Turn, sentData: bool, now: int): Turn
    requires t.conn.fd in t.channels
  {
    var d := SetWriting(t.(conn := t.conn.(responseReady := false)), false);
    var c := d.conn;
    if c.closeAfterResponse then Close(d, ResponseSent)
    else if !c.processing && FrameEnd(c.input) > 0 then ProcessRequest(d)
    else if c.peerClosed then Close(d, PeerClosed)
    else d.(conn := if sentData then MarkActivity(c, now) else c)
  }

  function HandleWrite(t: Turn, sends: seq<Send>, now: int): Turn
    requires MayWrite(t)
  {
    if t.conn.fd < 0 then
      t  // send fails on the closed descriptor and close() has nothing left to do
    else
      var n := SentCount(t.conn.output, sends);
      var c := t.conn.(output := t.conn.output[n..], sent := t.conn.sent + t.conn.output[..n]);
      match SendOutcome(t.conn.output, sends)
      case Blocked =>
        SetWriting(t.(conn := if n > 0 then MarkActivity(c, now) else c), true)
      case WriteBroken =>
        Close(t.(conn := c), SocketError)
      case Drained => AfterSend(t.(conn := c), n > 0, now)
  }

  predicate AcceptsResponse(c: Conn, id: nat) {
    c.fd >= 0 && c.processing && id == c.requestGeneration
  }

  function TakeResponse(c: Conn, result: ResponseResult): Conn {
    c.(processing := false,
       output := c.output + result.response,
       closeAfterResponse := result.closeAfter,
       responseReady := true,
       answered := c.answered + [result])
  }

  function FinishRequest(t: Turn, id: nat, result: ResponseResult, sends: seq<Send>, now: int): Turn
    requires AcceptsResponse(t.conn, id) ==> t.conn.fd in t.channels
  {
    if !AcceptsResponse(t.conn, id) then t
    else HandleWrite(t.(conn := TakeResponse(t.conn, result)), sends, now)
  }

  function CloseIfIdle(t: Turn, expectedGeneration: nat, now: int): Turn {
    if t.conn.fd < 0 then t
    else if expectedGeneration != t.conn.idleGeneration then
      ScheduleIdleCheck(t, t.conn.lastActivity + t.conn.idleTimeout)
    else if !Idle(t.conn) then
      ScheduleIdleCheck(t, now + t.conn.idleTimeout)
    else Close(t, IdleTimeout)
  }

  // Channel::handleEvent with the three callbacks installed by establish.
  function HandleEvent(t: Turn, events: Events, recvs: seq<Recv>, sends: seq<Send>, readNow: int, writeNow: int): Turn
    requires !events.failed && events.writable ==>
      MayWrite(if events.readable then HandleRead(t, recvs, readNow) else t)
  {
    if events.failed then Close(t, SocketError)
    else
      var t' := if events.readable then HandleRead(t, recvs, readNow) else t;
      if events.writable then HandleWrite(t', sends, writeNow) else t'
  }

  // --- the connection invariant -----------------------------------------------------

  ghost function Responses(results: seq<ResponseResult>): (responses: seq<string>)
    ensures |responses| == |results|
  {
    seq(|results|, i requires 0 <= i < |results| => results[i].response)
  }

  // Byte accounting: nothing received is lost before it is dispatched, and what is sent
  // or waits to be sent is one response per finished request, in dispatch order.
  ghost predicate Accounted(c: Conn) {
    && (forall f <- c.dispatched :: IsFrame(f))
    && c.received == Concat(c.dispatched) + c.input
    && c.sent + c.output == Concat(Responses(c.answered))
    && |c.dispatched| == c.requestGeneration
    && |c.answered| == c.requestGeneration - (if c.processing then 1 else 0)
    && !(c.processing && c.responseReady)
    && ClosesLast(c)
  }

  // Only the last response may have asked to close, and it has not been forgotten.
  ghost predicate ClosesLast(c: Conn) {
    && (c.closeAfterResponse <==> c.answered != [] && c.answered[|c.answered| - 1].closeAfter)
    && (forall i :: 0 <= i < |c.answered| - 1 ==> !c.answered[i].closeAfter)
  }

  // Between callbacks nothing an open connection has to do is forgotten.
  ghost predicate NothingStranded(c: Conn) {
    && (c.responseReady <==> c.output != "")
    && (HasComplete(c.input) || c.peerClosed ==> c.processing || c.responseReady)
    && (c.closeAfterResponse ==> c.responseReady)
  }

  // A close that no socket error forced drops no response byte and no complete request,
  // and a descriptor leaves epoll exactly once, before it is closed exactly once.
  ghost predicate ClosedCleanly(c: Conn) {
    && c.cause.Some?
    && c.fdOps == [Unregister(c.openedFd), CloseFd(c.openedFd)]
    && (c.cause.value != SocketError ==>
          c.output == "" && !c.processing && (HasComplete(c.input) ==> c.closeAfterResponse))
  }

  ghost predicate ConnOk(c: Conn) {
    && Accounted(c)
    && (c.fd >= 0 ==> NothingStranded(c) && c.fd == c.openedFd && c.fdOps == [] && c.cause == None)
    && (c.fd < 0 ==> ClosedCleanly(c))
  }

  // EPOLLOUT is registered exactly while a response waits.
  ghost predicate TurnOk(t: Turn) {
    && ConnOk(t.conn)
    && (t.conn.fd >= 0 ==> t.conn.fd in t.channels && t.channels[t.conn.fd] == Channel(t.conn.id, t.conn.responseReady))
  }

  // What every callback may change, as seen from the loop that runs it.
  ghost predicate CallbackStep(t: Turn, t': Turn, now: int) {
    var (c, c') := (t.conn, t'.conn);
    && c'.id == c.id && c'.openedFd == c.openedFd && c'.idleTimeout == c.idleTimeout
    && (c'.fd == c.fd || c'.fd == -1)
    && t'.channels == (if c'.fd >= 0 then t.channels[c.fd := Channel(c.id, c'.responseReady)]
                       else if c.fd >= 0 then t.channels - {c.fd} else t.channels)
    && c.dispatched <= c'.dispatched
    && (if c'.requestGeneration == c.requestGeneration then t'.jobs == t.jobs && c'.dispatched == c.dispatched
        else
          && c'.requestGeneration == c.requestGeneration + 1 && c'.processing
          && |c'.dispatched| == c'.requestGeneration
          && t'.jobs == t.jobs + [Serve(c.id, c'.requestGeneration, c'.dispatched[c.requestGeneration])])
    && (c'.processing && c'.requestGeneration == c.requestGeneration ==> c.processing)
    && (if c'.idleGeneration == c.idleGeneration then c'.lastActivity == c.lastActivity
        else c'.idleGeneration > c.idleGeneration && c'.lastActivity <= now)
    && (c'.fd < 0 <= c.fd && c'.cause == Some(IdleTimeout) ==> Idle(c) && c'.lastActivity == c.lastActivity)
  }

  // --- every callback keeps the invariant -------------------------------------------

  lemma ConcatSnoc(parts: seq<string>, last: string)
    ensures Concat(parts + [last]) == Concat(parts) + last
  {
    assert (parts + [last])[..|parts|] == parts;
  }

  lemma ResponsesSnoc(results: seq<ResponseResult>, last: ResponseResult)
    ensures Concat(Responses(results + [last])) == Concat(Responses(results)) + last.response
  {
    assert Responses(results + [last]) == Responses(results) + [last.response];
    ConcatSnoc(Responses(results), last.response);
  }

  lemma ProcessRequestKeeps(t: Turn, now: int)
    requires Accounted(t.conn) && !t.conn.processing && !t.conn.responseReady && HasComplete(t.conn.input)
    requires t.conn.output == "" && !t.conn.closeAfterResponse
    requires t.conn.fd >= 0 && t.conn.fd == t.conn.openedFd && t.conn.fdOps == [] && t.conn.cause == None
    requires t.conn.fd in t.channels && t.channels[t.conn.fd] == Channel(t.conn.id, false)
    ensures TurnOk(ProcessRequest(t)) && CallbackStep(t, ProcessRequest(t), now)
  {
    hide IsFrame, Concat, FrameEnd;
    var c := t.conn;
    CutIsFrame(c.input);
    var request := c.input[..FrameEnd(c.input)];
    ConcatSnoc(c.dispatched, request);
    assert c.input == request + c.input[FrameEnd(c.input)..];
  }

  lemma AppendKeepsAccount(c: Conn, bytes: string, finished: bool)
    requires Accounted(c)
    ensures Accounted(c.(input := c.input + bytes, received := c.received + bytes, peerClosed := finished))
  {
    hide IsFrame;
    assert c.received + bytes == Concat(c.dispatched) + (c.input + bytes);
  }

  // The bytes are in, whatever else the read did.
  lemma AfterReceiveKeeps(t: Turn, c: Conn, now: int, receivedData: bool)
    requires TurnOk(t) && t.conn.fd >= 0 && Accounted(c)
    requires c == t.conn.(input := c.input, received := c.received, peerClosed := c.peerClosed)
    ensures var t' := AfterReceive(t.(conn := c), receivedData, now);
      TurnOk(t') && CallbackStep(t, t', now)
  {
    hide IsFrame, Concat, FrameEnd;
    var c' := if receivedData then MarkActivity(c, now) else c;
    if !c'.responseReady && !c'.processing && FrameEnd(c'.input) > 0 {
      ProcessRequestKeeps(t.(conn := c'), now);
      hide Accounted, ProcessRequest;
    }
  }

  lemma HandleReadKeeps(t: Turn, recvs: seq<Recv>, now: int)
    requires TurnOk(t)
    ensures TurnOk(HandleRead(t, recvs, now)) && CallbackStep(t, HandleRead(t, recvs, now), now)
  {
    hide IsFrame, Concat, RecvBytes, RecvOutcome, FrameEnd;
    var bytes := if t.conn.fd < 0 then "" else RecvBytes(recvs);
    var end := if t.conn.fd < 0 then ReadBroken else RecvOutcome(recvs);
    var c := t.conn.(input := t.conn.input + bytes,
                     received := t.conn.received + bytes,
                     peerClosed := t.conn.peerClosed || end == PeerFinished);
    AppendKeepsAccount(t.conn, bytes, c.peerClosed);
    if t.conn.fd < 0 {
      assert c == t.conn;
    } else if end != ReadBroken {
      AfterReceiveKeeps(t, c, now, bytes != "");
      hide TurnOk, CallbackStep, AfterReceive, Accounted;
    }
  }

  // Reading never touches a response that waits to be sent.
  lemma HandleReadWhileReady(t: Turn, recvs: seq<Recv>, now: int)
    requires TurnOk(t) && t.conn.responseReady
    ensures var c := HandleRead(t, recvs, now).conn;
      c.responseReady && !c.processing && c.output == t.conn.output && c.requestGeneration == t.conn.requestGeneration
  {
    hide IsFrame, Concat, RecvBytes, RecvOutcome, FrameEnd, HasComplete;
  }

  // handleWrite starts with a response to send; the channel mask may still be stale.
  ghost predicate AboutToWrite(t: Turn) {
    var c := t.conn;
    && Accounted(c) && c.responseReady && !c.processing
    && c.fd >= 0 && c.fd == c.openedFd && c.fdOps == [] && c.cause == None
    && c.fd in t.channels && t.channels[c.fd].conn == c.id
  }

  lemma AfterSendKeeps(t: Turn, c: Conn, sentData: bool, now: int)
    requires AboutToWrite(t) && Accounted(c) && c.output == ""
    requires c == t.conn.(output := c.output, sent := c.sent)
    ensures var t' := AfterSend(t.(conn := c), sentData, now);
      TurnOk(t') && CallbackStep(t, t', now)
  {
    hide IsFrame, Concat, FrameEnd;
    var d := SetWriting(t.(conn := c.(responseReady := false)), false);
    if !c.closeAfterResponse && FrameEnd(c.input) > 0 {
      ProcessRequestKeeps(d, now);
      hide Accounted, ProcessRequest;
    }
  }

  lemma SendKeepsAccount(c: Conn, n: nat)
    requires Accounted(c) && n <= |c.output|
    ensures Accounted(c.(output := c.output[n..], sent := c.sent + c.output[..n]))
  {
    hide IsFrame;
    assert c.sent + c.output[..n] + c.output[n..] == c.sent + c.output;
  }

  lemma HandleWriteKeeps(t: Turn, sends: seq<Send>, now: int)
    requires AboutToWrite(t)
    ensures TurnOk(HandleWrite(t, sends, now)) && CallbackStep(t, HandleWrite(t, sends, now), now)
  {
    hide IsFrame, Concat, FrameEnd, SentCount, SendOutcome, AfterSend;
    var n := SentCount(t.conn.output, sends);
    var c := t.conn.(output := t.conn.output[n..], sent := t.conn.sent + t.conn.output[..n]);
    SendKeepsAccount(t.conn, n);
    if SendOutcome(t.conn.output, sends) == Drained {
      AfterSendKeeps(t, c, n > 0, now);
      hide TurnOk, CallbackStep, Accounted;
    }
  }

  lemma TakeResponseKeeps(t: Turn, id: nat, result: ResponseResult)
    requires TurnOk(t) && AcceptsResponse(t.conn, id)
    ensures AboutToWrite(t.(conn := TakeResponse(t.conn, result)))
  {
    hide IsFrame, Concat;
    ResponsesSnoc(t.conn.answered, result);
    var c := TakeResponse(t.conn, result);
    assert c.sent + c.output == t.conn.sent + t.conn.output + result.response;
    hide Responses;
    assert !t.conn.closeAfterResponse;
  }

  // A step from the connection that has taken the response is a step from the one before.
  lemma StepAfterTake(t: Turn, result: ResponseResult, t': Turn, now: int)
    requires t.conn.processing && CallbackStep(t.(conn := TakeResponse(t.conn, result)), t', now)
    ensures CallbackStep(t, t', now)
    ensures t'.conn.processing ==> t'.conn.requestGeneration == t.conn.requestGeneration + 1
  {
  }

  lemma FinishRequestKeeps(t: Turn, id: nat, result: ResponseResult, sends: seq<Send>, now: int)
    requires TurnOk(t)
    ensures TurnOk(FinishRequest(t, id, result, sends, now))
    ensures CallbackStep(t, FinishRequest(t, id, result, sends, now), now)
    ensures var c := FinishRequest(t, id, result, sends, now).conn;
      AcceptsResponse(t.conn, id) && c.processing ==> c.requestGeneration == t.conn.requestGeneration + 1
  {
    hide IsFrame, Accounted, NothingStranded, ClosedCleanly, HandleWrite;
    if AcceptsResponse(t.conn, id) {
      var taken := t.(conn := TakeResponse(t.conn, result));
      TakeResponseKeeps(t, id, result);
      HandleWriteKeeps(taken, sends, now);
      StepAfterTake(t, result, HandleWrite(taken, sends, now), now);
      hide CallbackStep, TurnOk;
    }
  }

  lemma CloseIfIdleKeeps(t: Turn, generation: nat, now: int)
    requires TurnOk(t)
    ensures TurnOk(CloseIfIdle(t, generation, now)) && CallbackStep(t, CloseIfIdle(t, generation, now), now)
  {
  }

  lemma CallbackSteps(t: Turn, u: Turn, v: Turn, now: int, later: int)
    requires CallbackStep(t, u, now) && CallbackStep(u, v, later) && now <= later
    requires t.conn.fd >= 0 && u.conn.fd >= 0 && t.conn.fd in t.channels
    requires u.conn.requestGeneration == t.conn.requestGeneration && !u.conn.processing && u.conn.responseReady
    ensures CallbackStep(t, v, later)
  {
  }

  lemma WriteAfterClose(t: Turn, sends: seq<Send>, now: int)
    requires t.conn.fd < 0 && t.conn.output != ""
    ensures HandleWrite(t, sends, now) == t
  {
  }

  // EPOLLOUT is only ever reported while a response waits, so handleWrite never meets a
  // connection whose channel is gone and whose output is empty, where epoll_ctl would throw.
  lemma HandleEventKeeps(t: Turn, events: Events, recvs: seq<Recv>, sends: seq<Send>, readNow: int, writeNow: int)
    requires TurnOk(t) && t.conn.fd >= 0 && readNow <= writeNow
    requires events.writable ==> t.conn.responseReady
    ensures !events.failed && events.writable ==>
      MayWrite(if events.readable then HandleRead(t, recvs, readNow) else t)
    ensures TurnOk(HandleEvent(t, events, recvs, sends, readNow, writeNow))
    ensures CallbackStep(t, HandleEvent(t, events, recvs, sends, readNow, writeNow), writeNow)
  {
    assert t.conn.responseReady ==> !t.conn.processing;
    hide IsFrame, HandleRead, HandleWrite, Accounted, HasComplete;
    if !events.failed {
      if events.readable { HandleReadKeeps(t, recvs, readNow); }
      if events.readable && events.writable { HandleReadWhileReady(t, recvs, readNow); }
      var t' := if events.readable then HandleRead(t, recvs, readNow) else t;
      if events.writable && t'.conn.fd >= 0 {
        HandleWriteKeeps(t', sends, writeNow);
        CallbackSteps(t, t', HandleWrite(t', sends, writeNow), readNow, writeNow);
      } else if events.writable {
        WriteAfterClose(t', sends, writeNow);
      }
    }
  }

  // --- the last response --------------------------------------------------------------

  // A connection told to close after a response takes on nothing more.
  ghost predicate SaysNoMore(c: Conn, c': Conn) {
    c'.answered == c.answered && c'.dispatched == c.dispatched && c'.closeAfterResponse && c.sent <= c'.sent
  }

  lemma HandleWriteSaysNoMore(t: Turn, sends: seq<Send>, now: int)
    requires t.conn.closeAfterResponse && MayWrite(t)
    ensures SaysNoMore(t.conn, HandleWrite(t, sends, now).conn)
  {
    hide SentCount, SendOutcome, FrameEnd, HasComplete;
  }

  lemma HandleReadSaysNoMore(t: Turn, recvs: seq<Recv>, now: int)
    requires t.conn.closeAfterResponse && t.conn.responseReady
    ensures SaysNoMore(t.conn, HandleRead(t, recvs, now).conn)
  {
    hide RecvBytes, RecvOutcome, FrameEnd, HasComplete;
  }

  lemma HandleEventSaysNoMore(t: Turn, events: Events, recvs: seq<Recv>, sends: seq<Send>, readNow: int, writeNow: int)
    requires t.conn.closeAfterResponse && t.conn.responseReady
    requires !events.failed && events.writable ==>
      MayWrite(if events.readable then HandleRead(t, recvs, readNow) else t)
    ensures SaysNoMore(t.conn, HandleEvent(t, events, recvs, sends, readNow, writeNow).conn)
  {
    hide HandleRead, HandleWrite, MayWrite;
    HandleReadSaysNoMore(t, recvs, readNow);
    if !events.failed && events.writable {
      HandleWriteSaysNoMore(if events.readable then HandleRead(t, recvs, readNow) else t, sends, writeNow);
    }
  }
}
