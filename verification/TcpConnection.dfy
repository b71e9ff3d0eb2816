// The connection object of src/net/TcpConnection.cpp, method by method, proved equal to the
// functions of TcpProtocol.dfy.
module TcpConnections {
  import opened Framing
  import opened TcpProtocol
  import opened Buffers
  import opened EventLoops

  // What a recv script means after its first answer.
  lemma RecvTurn(recvs: seq<Recv>)
    ensures recvs == [] ==> RecvBytes(recvs) == "" && RecvOutcome(recvs) == ReadAll
    ensures recvs != [] ==>
      match recvs[0]
      case Data(chunk) => RecvBytes(recvs) == chunk + RecvBytes(recvs[1..]) && RecvOutcome(recvs) == RecvOutcome(recvs[1..])
      case RecvInterrupted => RecvBytes(recvs) == RecvBytes(recvs[1..]) && RecvOutcome(recvs) == RecvOutcome(recvs[1..])
      case Eof => RecvBytes(recvs) == "" && RecvOutcome(recvs) == PeerFinished
      case RecvWouldBlock => RecvBytes(recvs) == "" && RecvOutcome(recvs) == ReadAll
      case RecvFailed => RecvBytes(recvs) == "" && RecvOutcome(recvs) == ReadBroken
  {
  }

  lemma SendOnClosed(output: string)
    ensures SentCount(output, [SendFailed]) == 0
    ensures output != "" ==> SendOutcome(output, [SendFailed]) == WriteBroken
  {
  }

  class TcpConnection {
    const loop: EventLoop
    const workers: TaskQueue
    const id: nat
    const idleTimeout: int
    const inputBuffer: Buffer
    const outputBuffer: Buffer
    var fd: int
    var responseReady: bool
    var closeAfterResponse: bool
    var peerClosed: bool
    var lastActivityAt: int
    var idleGeneration: nat
    var processingRequest: bool
    var requestGeneration: nat
    // history
    ghost const openedFd: int
    ghost var received: string
    ghost var sent: string
    ghost var dispatched: seq<string>
    ghost var answered: seq<ResponseResult>
    ghost var fdOps: seq<FdOp>
    ghost var cause: Option<Cause>

    ghost predicate Valid()
      reads this, workers
    {
      inputBuffer != outputBuffer && !workers.stopping
    }

    ghost function State(): Conn
      reads this, inputBuffer, outputBuffer
    {
      Conn(id, fd, inputBuffer.data, outputBuffer.data, responseReady, closeAfterResponse, peerClosed, idleTimeout,
           lastActivityAt, idleGeneration, processingRequest, requestGeneration,
           openedFd, received, sent, dispatched, answered, fdOps, cause)
    }

    ghost function Current(): Turn
      reads this, inputBuffer, outputBuffer, loop, workers
    {
      Turn(State(), loop.channels, loop.timers, workers.tasks)
    }

    constructor (loop: EventLoop, workers: TaskQueue, id: nat, fd: int, idleTimeout: int)
      requires !workers.stopping
      ensures this.loop == loop && this.workers == workers
      ensures Valid() && State() == FreshConn(id, fd, idleTimeout)
      ensures fresh(inputBuffer) && fresh(outputBuffer)
    {
      this.loop, this.workers, this.id, this.fd, this.idleTimeout := loop, workers, id, fd, idleTimeout;
      responseReady, closeAfterResponse, peerClosed, processingRequest := false, false, false, false;
      lastActivityAt, idleGeneration, requestGeneration := 0, 0, 0;
      openedFd, received, sent, dispatched, answered, fdOps, cause := fd, "", "", [], [], [], None;
      var input := new Buffer();
      var output := new Buffer();
      inputBuffer, outputBuffer := input, output;
    }

    method MarkActivity(now: int)
      modifies this`lastActivityAt, this`idleGeneration
      ensures State() == TcpProtocol.MarkActivity(old(State()), now)
    {
      lastActivityAt := now;
      idleGeneration := idleGeneration + 1;
    }

    method ScheduleIdleCheck(expires: int)
      modifies loop`timers
      ensures Current() == TcpProtocol.ScheduleIdleCheck(old(Current()), expires)
    {
      loop.RunAt(Timer(expires, id, idleGeneration));
    }

    method Establish(now: int)
      requires fd !in loop.channels
      modifies this`lastActivityAt, this`idleGeneration, loop`channels, loop`timers
      ensures Current() == TcpProtocol.Establish(old(Current()), now)
    {
      loop.AddChannel(fd, Channel(id, false));
      MarkActivity(now);
      ScheduleIdleCheck(lastActivityAt + idleTimeout);
    }

    method Close(ghost why: Cause)
      modifies this`fd, this`fdOps, this`cause, loop`channels
      ensures Current() == TcpProtocol.Close(old(Current()), why)
    {
      if fd < 0 {
        return;
      }
      var removed := loop.RemoveChannel(fd);
      if removed {
        fdOps := fdOps + [Unregister(fd)];
      }
      fdOps := fdOps + [CloseFd(fd)];
      fd := -1;
      cause := Some(why);
      assert fdOps == old(fdOps) + (if removed then [Unregister(old(fd))] else []) + [CloseFd(old(fd))];
    }

    method EnableWriting()
      requires fd in loop.channels
      modifies loop`channels
      ensures Current() == SetWriting(old(Current()), true)
    {
      loop.UpdateChannel(fd, loop.channels[fd].(writing := true));
    }

    method DisableWriting()
      requires fd in loop.channels
      modifies loop`channels
      ensures Current() == SetWriting(old(Current()), false)
    {
      loop.UpdateChannel(fd, loop.channels[fd].(writing := false));
    }

    method HasCompleteRequest() returns (has: bool)
      ensures has <==> HasComplete(inputBuffer.data)
    {
      has := FrameEnd(inputBuffer.Peek()) > 0;
    }

    method ProcessRequest()
      requires Valid() && HasComplete(inputBuffer.data)
      modifies this`processingRequest, this`requestGeneration, this`dispatched, inputBuffer, workers`tasks
      ensures Current() == TcpProtocol.ProcessRequest(old(Current()))
    {
      var requestEnd := FrameEnd(inputBuffer.Peek());
      var request := inputBuffer.Peek()[..requestEnd];
      inputBuffer.Retrieve(requestEnd);
      assert old(inputBuffer.data) == request + inputBuffer.data;
      processingRequest := true;
      requestGeneration := requestGeneration + 1;
      dispatched := dispatched + [request];
      var accepted := workers.Submit(Serve(id, requestGeneration, request));
    }

    // The recv loop: everything up to the first answer that ends it.
    method ReceiveAll(recvs: seq<Recv>) returns (receivedData: bool, end: RecvEnd)
      modifies this`peerClosed, this`received, inputBuffer
      ensures end == if fd < 0 then ReadBroken else RecvOutcome(recvs)
      ensures var bytes := if fd < 0 then "" else RecvBytes(recvs);
        && receivedData == (bytes != "")
        && inputBuffer.data == old(inputBuffer.data) + bytes
        && received == old(received) + bytes
      ensures peerClosed == (old(peerClosed) || end == PeerFinished)
    {
      hide RecvBytes, RecvOutcome;
      receivedData := false;
      var answers := recvs;
      ghost var got := "";
      while true
        invariant fd < 0 ==> got == "" && answers == recvs
        invariant got + RecvBytes(answers) == RecvBytes(recvs) && RecvOutcome(answers) == RecvOutcome(recvs)
        invariant receivedData == (got != "")
        invariant inputBuffer.data == old(inputBuffer.data) + got && received == old(received) + got
        invariant peerClosed == old(peerClosed)
        decreases |answers|
      {
        var answer := if fd < 0 then RecvFailed else if answers == [] then RecvWouldBlock else answers[0];
        RecvTurn(answers);
        match answer
        case Data(chunk) =>
          inputBuffer.Append(chunk);
          received := received + chunk;
          receivedData := true;
          got := got + chunk;
          answers := answers[1..];
        case Eof =>
          peerClosed := true;
          return receivedData, PeerFinished;
        case RecvInterrupted =>
          answers := answers[1..];
        case RecvWouldBlock =>
          return receivedData, ReadAll;
        case RecvFailed =>
          return receivedData, ReadBroken;
      }
    }

    // handleRead behind its recv loop.
    method AfterReceive(receivedData: bool, now: int)
      requires Valid()
      modifies this, inputBuffer, loop`channels, workers`tasks
      ensures Valid() && Current() == TcpProtocol.AfterReceive(old(Current()), receivedData, now)
    {
      hide FrameEnd, HasComplete;
      if receivedData {
        MarkActivity(now);
      }
      var complete := HasCompleteRequest();
      if !responseReady && !processingRequest && complete {
        ProcessRequest();
        return;
      }
      if peerClosed && !responseReady && !processingRequest {
        Close(PeerClosed);
      }
    }

    method HandleRead(recvs: seq<Recv>, now: int)
      requires Valid()
      modifies this, inputBuffer, loop`channels, workers`tasks
      ensures Valid() && Current() == TcpProtocol.HandleRead(old(Current()), recvs, now)
    {
      hide RecvBytes, RecvOutcome;
      var receivedData, end := ReceiveAll(recvs);
      if end == ReadBroken {
        Close(SocketError);
        return;
      }
      AfterReceive(receivedData, now);
    }

    // The send loop: until the buffer is empty, the socket full, or broken.
    // On a descriptor that is closed already, send fails.
    method SendAll(sends: seq<Send>) returns (sentData: bool, end: SendEnd)
      modifies this`sent, outputBuffer
      ensures end == SendOutcome(old(outputBuffer.data), if fd < 0 then [SendFailed] else sends)
      ensures var n := SentCount(old(outputBuffer.data), if fd < 0 then [SendFailed] else sends);
        && sentData == (n > 0)
        && outputBuffer.data == old(outputBuffer.data)[n..]
        && sent == old(sent) + old(outputBuffer.data)[..n]
    {
      sentData := false;
      var answers := if fd < 0 then [SendFailed] else sends;
      ghost var script := answers;
      ghost var n := 0;
      ghost var all := outputBuffer.data;
      while !outputBuffer.Empty()
        invariant 0 <= n <= |all| && outputBuffer.data == all[n..] && sent == old(sent) + all[..n]
        invariant sentData == (n > 0)
        invariant n + SentCount(outputBuffer.data, answers) == SentCount(all, script)
        invariant SendOutcome(outputBuffer.data, answers) == SendOutcome(all, script)
        decreases |answers|
      {
        var answer := if answers == [] then SendWouldBlock else answers[0];
        match answer
        case Take(limit) =>
          var taken := Min(limit, outputBuffer.ReadableBytes());
          sent := sent + outputBuffer.data[..taken];
          outputBuffer.Retrieve(taken);
          assert outputBuffer.data == all[n..][taken..] && all[..n] + all[n..][..taken] == all[..n + taken];
          n := n + taken;
          sentData := true;
          answers := answers[1..];
        case SendInterrupted =>
          answers := answers[1..];
        case SendWouldBlock =>
          return sentData, Blocked;
        case SendFailed =>
          return sentData, WriteBroken;
      }
      end := Drained;
    }

    // handleWrite behind its send loop, with nothing left to send.
    method AfterSend(sentData: bool, now: int)
      requires Valid() && fd in loop.channels
      modifies this, inputBuffer, loop`channels, workers`tasks
      ensures Valid() && Current() == TcpProtocol.AfterSend(old(Current()), sentData, now)
    {
      hide FrameEnd, HasComplete;
      DisableWriting();
      responseReady := false;
      if closeAfterResponse {
        Close(ResponseSent);
        return;
      }
      var complete := HasCompleteRequest();
      if !processingRequest && complete {
        ProcessRequest();
        return;
      }
      if peerClosed {
        Close(PeerClosed);
        return;
      }
      if sentData {
        MarkActivity(now);
      }
    }

    method HandleWrite(sends: seq<Send>, now: int)
      requires Valid() && MayWrite(Current())
      modifies this, inputBuffer, outputBuffer, loop`channels, workers`tasks
      ensures Valid() && Current() == TcpProtocol.HandleWrite(old(Current()), sends, now)
    {
      hide FrameEnd, SentCount, SendOutcome, HasComplete;
      SendOnClosed(outputBuffer.data);
      var sentData, end := SendAll(sends);
      if end == Blocked {
        if sentData {
          MarkActivity(now);
        }
        EnableWriting();
        return;
      }
      if end == WriteBroken {
        Close(SocketError);
        return;
      }
      AfterSend(sentData, now);
    }

    method FinishRequest(requestId: nat, result: ResponseResult, sends: seq<Send>, now: int)
      requires Valid()
      requires AcceptsResponse(State(), requestId) ==> fd in loop.channels
      modifies this, inputBuffer, outputBuffer, loop`channels, workers`tasks
      ensures Valid()
      ensures Current() == TcpProtocol.FinishRequest(old(Current()), requestId, result, sends, now)
    {
      if fd < 0 {
        return;
      }
      if !processingRequest {
        return;
      }
      if requestId != requestGeneration {
        return;
      }
      processingRequest := false;
      outputBuffer.Append(result.response);
      answered := answered + [result];
      closeAfterResponse := result.closeAfter;
      responseReady := true;
      HandleWrite(sends, now);
    }

    predicate IsIdle()
      reads this, inputBuffer, outputBuffer
      ensures IsIdle() <==> Idle(State())
    {
      inputBuffer.Empty() && outputBuffer.Empty() && !responseReady && !processingRequest
    }

    method CloseIfIdle(expectedGeneration: nat, now: int)
      requires Valid()
      modifies this, loop`channels, loop`timers
      ensures Valid() && Current() == TcpProtocol.CloseIfIdle(old(Current()), expectedGeneration, now)
    {
      if fd < 0 {
        return;
      }
      if expectedGeneration != idleGeneration {
        ScheduleIdleCheck(lastActivityAt + idleTimeout);
        return;
      }
      if !IsIdle() {
        ScheduleIdleCheck(now + idleTimeout);
        return;
      }
      Close(IdleTimeout);
    }

    method HandleEvent(events: Events, recvs: seq<Recv>, sends: seq<Send>, readNow: int, writeNow: int)
      requires Valid()
      requires !events.failed && events.writable ==>
        MayWrite(if events.readable then TcpProtocol.HandleRead(Current(), recvs, readNow) else Current())
      modifies this, inputBuffer, outputBuffer, loop`channels, workers`tasks
      ensures Valid()
      ensures Current() == TcpProtocol.HandleEvent(old(Current()), events, recvs, sends, readNow, writeNow)
    {
      if events.failed {
        Close(SocketError);
        return;
      }
      if events.readable {
        HandleRead(recvs, readNow);
      }
      if events.writable {
        HandleWrite(sends, writeNow);
      }
    }
  }
}
