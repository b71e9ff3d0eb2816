// What the callbacks of a connection do to it, said in terms of the kernel's answers alone:
// which bytes move, and exactly when and why the connection closes.
module SocketEffects {
  import opened Framing
  import opened TcpProtocol

  // --- reading a script ---------------------------------------------------------------

  // recv and send are called again after progress and after an interruption.
  predicate RecvGoesOn(answer: Recv) {
    answer.Data? || answer.RecvInterrupted?
  }

  predicate SendGoesOn(answer: Send) {
    answer.Take? || answer.SendInterrupted?
  }

  // Where the recv loop ends: at the first answer after which it does not go on.
  function RecvEnd(recvs: seq<Recv>): (n: nat)
    ensures n <= |recvs| && (forall i :: 0 <= i < n ==> RecvGoesOn(recvs[i]))
    ensures n < |recvs| ==> !RecvGoesOn(recvs[n])
  {
    if recvs == [] || !RecvGoesOn(recvs[0]) then 0 else 1 + RecvEnd(recvs[1..])
  }

  function SendStop(sends: seq<Send>): (n: nat)
    ensures n <= |sends| && (forall i :: 0 <= i < n ==> SendGoesOn(sends[i]))
    ensures n < |sends| ==> !SendGoesOn(sends[n])
  {
    if sends == [] || !SendGoesOn(sends[0]) then 0 else 1 + SendStop(sends[1..])
  }

  function Pieces(recvs: seq<Recv>): seq<string> {
    seq(|recvs|, i requires 0 <= i < |recvs| => if recvs[i].Data? then recvs[i].chunk else "")
  }

  // The bytes a script delivers.
  ghost function Delivered(recvs: seq<Recv>): string {
    Concat(Pieces(recvs[..RecvEnd(recvs)]))
  }

  predicate RecvFails(recvs: seq<Recv>) {
    RecvEnd(recvs) < |recvs| && recvs[RecvEnd(recvs)].RecvFailed?
  }

  predicate PeerEnds(recvs: seq<Recv>) {
    RecvEnd(recvs) < |recvs| && recvs[RecvEnd(recvs)].Eof?
  }

  function Limits(sends: seq<Send>): nat {
    if sends == [] then 0
    else Limits(sends[..|sends| - 1]) + match sends[|sends| - 1] case Take(limit) => limit case _ => 0
  }

  // How many bytes a script has room for.
  function Room(sends: seq<Send>): nat {
    Limits(sends[..SendStop(sends)])
  }

  // The script fails before it has taken that many bytes.
  predicate SendFails(sends: seq<Send>, size: nat) {
    Room(sends) < size && SendStop(sends) < |sends| && sends[SendStop(sends)].SendFailed?
  }

  lemma PiecesFront(first: Recv, rest: seq<Recv>)
    ensures Concat(Pieces([first] + rest)) == (if first.Data? then first.chunk else "") + Concat(Pieces(rest))
  {
    var piece := if first.Data? then first.chunk else "";
    assert Pieces([first] + rest) == [piece] + Pieces(rest);
    ConcatFront(piece, Pieces(rest));
  }

  lemma {:induction false} RecvLoop(recvs: seq<Recv>)
    ensures RecvBytes(recvs) == Delivered(recvs)
    ensures RecvOutcome(recvs) == ReadBroken <==> RecvFails(recvs)
    ensures RecvOutcome(recvs) == PeerFinished <==> PeerEnds(recvs)
  {
    hide Concat;
    if recvs == [] || !RecvGoesOn(recvs[0]) {
      assert recvs[..0] == [] && Pieces([]) == [];
      ConcatOfNone();
    } else {
      var (first, rest) := (recvs[0], recvs[1..]);
      RecvLoop(rest);
      PiecesFront(first, rest[..RecvEnd(rest)]);
      assert recvs[..RecvEnd(recvs)] == [first] + rest[..RecvEnd(rest)];
    }
  }

  lemma {:induction false} LimitsFront(first: Send, rest: seq<Send>)
    ensures Limits([first] + rest) == Limits([first]) + Limits(rest)
    ensures Limits([first]) == match first case Take(limit) => limit case _ => 0
  {
    assert [first][..0] == [];
    if rest == [] {
      assert [first] + rest == [first];
    } else {
      LimitsFront(first, rest[..|rest| - 1]);
      assert ([first] + rest)[..|rest|] == [first] + rest[..|rest| - 1];
    }
  }

  lemma RoomFront(sends: seq<Send>)
    requires sends != [] && SendGoesOn(sends[0])
    ensures Room(sends) == (match sends[0] case Take(limit) => limit case _ => 0) + Room(sends[1..])
    ensures SendStop(sends) == 1 + SendStop(sends[1..])
  {
    var (first, rest) := (sends[0], sends[1..]);
    LimitsFront(first, rest[..SendStop(rest)]);
    assert sends[..SendStop(sends)] == [first] + rest[..SendStop(rest)];
  }

  lemma {:induction false} SendLoop(output: string, sends: seq<Send>)
    ensures SentCount(output, sends) == Min(|output|, Room(sends))
    ensures SendOutcome(output, sends) == WriteBroken <==> SendFails(sends, |output|)
    decreases |sends|
  {
    if output == "" || sends == [] || !SendGoesOn(sends[0]) {
      assert sends[..0] == [];
    } else {
      RoomFront(sends);
      hide Room;
      match sends[0]
      case Take(limit) => SendLoop(output[Min(limit, |output|)..], sends[1..]);
      case SendInterrupted => SendLoop(output, sends[1..]);
    }
  }

  // --- effects ------------------------------------------------------------------------

  // A connection closes only when its socket breaks, when a response that said so is out, or
  // when the peer has finished and nothing is left to do; and then at once. What remains is
  // handed to the handler as soon as it holds a request.
  ghost predicate ClosesExactly(c: Conn, c': Conn, broken: bool, busy: bool, tellsClose: bool, input: string) {
    && (c'.fd < 0 <==> c'.cause.Some?)
    && (c'.cause == Some(SocketError) <==> broken)
    && (c'.cause == Some(ResponseSent) <==> !broken && !busy && tellsClose)
    && (c'.cause == Some(PeerClosed) <==> !broken && !busy && !tellsClose && c'.peerClosed && !HasComplete(input))
    && c'.cause != Some(IdleTimeout)
    && (c'.requestGeneration == c.requestGeneration + 1 <==> !broken && !busy && !tellsClose && HasComplete(input))
  }

  // What an event does to an open connection.
  ghost predicate EventEffect(c: Conn, events: Events, recvs: seq<Recv>, sends: seq<Send>, c': Conn) {
    var gets := !events.failed && events.readable;
    var bytes := if gets then Delivered(recvs) else "";
    var puts := !events.failed && events.writable && !(gets && RecvFails(recvs));
    var n := if puts then Min(|c.output|, Room(sends)) else 0;
    var broken := events.failed || (gets && RecvFails(recvs)) || (puts && SendFails(sends, |c.output|));
    && c'.received == c.received + bytes
    && c'.sent == c.sent + c.output[..n]
    && c'.answered == c.answered
    && c'.peerClosed == (c.peerClosed || (gets && PeerEnds(recvs)))
    && ClosesExactly(c, c', broken, c.processing || n < |c.output|, c.closeAfterResponse, c.input + bytes)
  }

  // What the response to the current request does to an open connection.
  ghost predicate ResponseEffect(c: Conn, result: ResponseResult, sends: seq<Send>, c': Conn) {
    var n := Min(|result.response|, Room(sends));
    && c'.received == c.received
    && c'.sent == c.sent + result.response[..n]
    && c'.answered == c.answered + [result]
    && c'.peerClosed == c.peerClosed
    && ClosesExactly(c, c', SendFails(sends, |result.response|), n < |result.response|, result.closeAfter, c.input)
  }

  // The part of a read behind its loop.
  lemma AfterReceiveEffect(t: Turn, c: Conn, receivedData: bool, now: int)
    requires TurnOk(t) && t.conn.fd >= 0
    requires c == t.conn.(input := c.input, received := c.received, peerClosed := c.peerClosed)
    ensures var c' := AfterReceive(t.(conn := c), receivedData, now).conn;
      && c'.received == c.received && c'.sent == c.sent && c'.answered == c.answered && c'.peerClosed == c.peerClosed
      && ClosesExactly(t.conn, c', false, c.processing || c.output != "", c.closeAfterResponse, c.input)
  {
    hide IsFrame, Concat, FrameEnd, Accounted;
  }

  // A read on its own.
  ghost predicate ReadEffect(c: Conn, recvs: seq<Recv>, c': Conn) {
    && c'.received == c.received + Delivered(recvs)
    && c'.sent == c.sent && c'.answered == c.answered
    && c'.peerClosed == (c.peerClosed || PeerEnds(recvs))
    && ClosesExactly(c, c', RecvFails(recvs), c.processing || c.output != "", c.closeAfterResponse, c.input + Delivered(recvs))
  }

  lemma ReadOnly(t: Turn, recvs: seq<Recv>, now: int)
    requires TurnOk(t) && t.conn.fd >= 0
    ensures ReadEffect(t.conn, recvs, HandleRead(t, recvs, now).conn)
  {
    RecvLoop(recvs);
    hide RecvBytes, RecvOutcome, Delivered, RecvFails, PeerEnds, AfterReceive;
    var c := t.conn.(input := t.conn.input + Delivered(recvs),
                     received := t.conn.received + Delivered(recvs),
                     peerClosed := t.conn.peerClosed || PeerEnds(recvs));
    AfterReceiveEffect(t, c, Delivered(recvs) != "", now);
    OpenHasNoCause(t);
    hide TurnOk;
  }

  lemma OpenHasNoCause(t: Turn)
    requires TurnOk(t) && t.conn.fd >= 0
    ensures t.conn.cause == None
  {
  }

  // The response that waits goes out, as far as there is room.
  ghost predicate WriteEffect(c: Conn, sends: seq<Send>, c': Conn) {
    var n := Min(|c.output|, Room(sends));
    && c'.received == c.received && c'.answered == c.answered && c'.peerClosed == c.peerClosed
    && c'.sent == c.sent + c.output[..n]
    && ClosesExactly(c, c', SendFails(sends, |c.output|), n < |c.output|, c.closeAfterResponse, c.input)
  }

  lemma WriteOnly(t: Turn, sends: seq<Send>, now: int)
    requires AboutToWrite(t)
    ensures WriteEffect(t.conn, sends, HandleWrite(t, sends, now).conn)
  {
    SendLoop(t.conn.output, sends);
    hide IsFrame, Concat, FrameEnd, SentCount, SendOutcome, Room, SendFails, Accounted;
  }

  // A read that finds a response waiting only adds to the input.
  lemma ReadWhileReady(t: Turn, recvs: seq<Recv>, now: int)
    requires TurnOk(t) && t.conn.fd >= 0 && t.conn.responseReady
    ensures var c := HandleRead(t, recvs, now).conn;
      && c.input == t.conn.input + Delivered(recvs) && c.output == t.conn.output
      && c.responseReady && !c.processing && c.closeAfterResponse == t.conn.closeAfterResponse
      && c.requestGeneration == t.conn.requestGeneration
      && (c.fd < 0 <==> RecvFails(recvs))
  {
    RecvLoop(recvs);
    hide IsFrame, Concat, RecvBytes, RecvOutcome, FrameEnd, Delivered, RecvFails, PeerEnds;
  }

  lemma ReadyToWrite(t: Turn)
    requires TurnOk(t) && t.conn.fd >= 0 && t.conn.responseReady
    ensures AboutToWrite(t)
  {
  }

  lemma NothingReported(t: Turn, recvs: seq<Recv>, sends: seq<Send>)
    requires TurnOk(t) && t.conn.fd >= 0
    ensures EventEffect(t.conn, Events(false, false, false), recvs, sends, t.conn)
  {
    hide IsFrame, Concat, Delivered, Room;
    var c := t.conn;
    assert c.input + "" == c.input && c.received + "" == c.received && c.sent + c.output[..0] == c.sent;
  }

  lemma FailureReported(t: Turn, events: Events, recvs: seq<Recv>, sends: seq<Send>)
    requires TurnOk(t) && t.conn.fd >= 0 && events.failed
    ensures EventEffect(t.conn, events, recvs, sends, Close(t, SocketError).conn)
  {
    hide IsFrame, Concat, Delivered, Room, Accounted;
  }

  lemma OnlyRead(c: Conn, recvs: seq<Recv>, sends: seq<Send>, c': Conn)
    requires ReadEffect(c, recvs, c')
    ensures EventEffect(c, Events(false, true, false), recvs, sends, c')
    ensures RecvFails(recvs) ==> EventEffect(c, Events(false, true, true), recvs, sends, c')
  {
    hide Delivered, Room, RecvFails, PeerEnds, SendFails;
  }

  lemma OnlyWritten(c: Conn, recvs: seq<Recv>, sends: seq<Send>, c': Conn)
    requires WriteEffect(c, sends, c') && !c.processing
    ensures EventEffect(c, Events(false, false, true), recvs, sends, c')
  {
    assert c.input + "" == c.input && c.received + "" == c.received;
    hide Delivered, Room, RecvFails, PeerEnds, SendFails;
  }

  lemma ReadAndWritten(c: Conn, recvs: seq<Recv>, sends: seq<Send>, d: Conn, c': Conn)
    requires ReadEffect(c, recvs, d) && WriteEffect(d, sends, c') && !RecvFails(recvs) && !c.processing
    requires d.input == c.input + Delivered(recvs) && d.output == c.output
    requires d.closeAfterResponse == c.closeAfterResponse && d.requestGeneration == c.requestGeneration
    ensures EventEffect(c, Events(false, true, true), recvs, sends, c')
  {
    hide Delivered, Room, RecvFails, PeerEnds, SendFails;
  }

  lemma EventDoes(t: Turn, events: Events, recvs: seq<Recv>, sends: seq<Send>, readNow: int, writeNow: int)
    requires TurnOk(t) && t.conn.fd >= 0 && readNow <= writeNow
    requires events.writable ==> t.conn.responseReady
    requires !events.failed && events.writable ==>
      MayWrite(if events.readable then HandleRead(t, recvs, readNow) else t)
    ensures EventEffect(t.conn, events, recvs, sends, HandleEvent(t, events, recvs, sends, readNow, writeNow).conn)
  {
    hide HandleRead, HandleWrite, TurnOk, EventEffect, ReadEffect, WriteEffect, RecvFails, Delivered, AboutToWrite;
    if events.failed {
      FailureReported(t, events, recvs, sends);
    } else if !events.readable && !events.writable {
      NothingReported(t, recvs, sends);
    } else if !events.readable {
      ReadyToWrite(t);
      WriteOnly(t, sends, writeNow);
      NotServing(t);
      OnlyWritten(t.conn, recvs, sends, HandleWrite(t, sends, writeNow).conn);
    } else {
      ReadOnly(t, recvs, readNow);
      var u := HandleRead(t, recvs, readNow);
      OnlyRead(t.conn, recvs, sends, u.conn);
      if events.writable {
        ReadWhileReady(t, recvs, readNow);
        NotServing(t);
        HandleReadKeeps(t, recvs, readNow);
        if u.conn.fd < 0 {
          ClosedKeepsOutput(t);
          WriteAfterClose(u, sends, writeNow);
        } else {
          ReadyToWrite(u);
          WriteOnly(u, sends, writeNow);
          ReadAndWritten(t.conn, recvs, sends, u.conn, HandleWrite(u, sends, writeNow).conn);
        }
      }
    }
  }

  lemma NotServing(t: Turn)
    requires TurnOk(t) && t.conn.responseReady
    ensures !t.conn.processing
  {
  }

  lemma ClosedKeepsOutput(t: Turn)
    requires TurnOk(t) && t.conn.fd >= 0 && t.conn.responseReady
    ensures t.conn.output != ""
  {
  }

  lemma ResponseDoes(t: Turn, id: nat, result: ResponseResult, sends: seq<Send>, now: int)
    requires TurnOk(t) && AcceptsResponse(t.conn, id)
    ensures ResponseEffect(t.conn, result, sends, FinishRequest(t, id, result, sends, now).conn)
  {
    TakeResponseKeeps(t, id, result);
    var taken := t.(conn := TakeResponse(t.conn, result));
    WriteOnly(taken, sends, now);
    ServingHasNoOutput(t);
    hide TurnOk, AboutToWrite, HandleWrite, Room, SendFails;
  }

  lemma ServingHasNoOutput(t: Turn)
    requires TurnOk(t) && t.conn.fd >= 0 && t.conn.processing
    ensures t.conn.output == "" && t.conn.cause == None
  {
  }

  // --- activity -------------------------------------------------------------------------

  // A connection that stays open marks its activity once for a read that received bytes and
  // once for a write that sent some, each at its own time, and never otherwise.
  ghost predicate Marks(c: Conn, c': Conn, received: bool, readNow: int, sent: bool, now: int) {
    c'.fd >= 0 ==>
      && c'.idleGeneration == c.idleGeneration + (if received then 1 else 0) + (if sent then 1 else 0)
      && c'.lastActivity == if sent then now else if received then readNow else c.lastActivity
  }

  // A write that empties the buffer and goes on to the next request marks nothing.
  ghost predicate SendMarks(size: nat, n: nat, input: string) {
    n > 0 && !(n == size && HasComplete(input))
  }

  ghost predicate EventMarks(c: Conn, events: Events, recvs: seq<Recv>, sends: seq<Send>, readNow: int, now: int, c': Conn) {
    var gets := !events.failed && events.readable;
    var bytes := if gets then Delivered(recvs) else "";
    var puts := !events.failed && events.writable && !(gets && RecvFails(recvs));
    var n := if puts then Min(|c.output|, Room(sends)) else 0;
    Marks(c, c', bytes != "", readNow, SendMarks(|c.output|, n, c.input + bytes), now)
  }

  ghost predicate ResponseMarks(c: Conn, result: ResponseResult, sends: seq<Send>, now: int, c': Conn) {
    Marks(c, c', false, now, SendMarks(|result.response|, Min(|result.response|, Room(sends)), c.input), now)
  }

  lemma AfterReceiveMarks(t: Turn, c: Conn, receivedData: bool, now: int)
    requires c == t.conn.(input := c.input, received := c.received, peerClosed := c.peerClosed)
    ensures Marks(t.conn, AfterReceive(t.(conn := c), receivedData, now).conn, receivedData, now, false, now)
  {
    hide FrameEnd;
  }

  lemma ReadMarks(t: Turn, recvs: seq<Recv>, now: int)
    requires t.conn.fd >= 0
    ensures Marks(t.conn, HandleRead(t, recvs, now).conn, Delivered(recvs) != "", now, false, now)
  {
    RecvLoop(recvs);
    hide RecvBytes, RecvOutcome, Delivered, RecvFails, PeerEnds, AfterReceive;
    var c := t.conn.(input := t.conn.input + Delivered(recvs),
                     received := t.conn.received + Delivered(recvs),
                     peerClosed := t.conn.peerClosed || PeerEnds(recvs));
    AfterReceiveMarks(t, c, Delivered(recvs) != "", now);
  }

  lemma WriteMarks(t: Turn, sends: seq<Send>, now: int)
    requires AboutToWrite(t)
    ensures Marks(t.conn, HandleWrite(t, sends, now).conn, false, now,
                  SendMarks(|t.conn.output|, Min(|t.conn.output|, Room(sends)), t.conn.input), now)
  {
    SendLoop(t.conn.output, sends);
    hide IsFrame, Concat, FrameEnd, SentCount, SendOutcome, Room, SendFails, Accounted;
  }

  lemma EventMarked(t: Turn, events: Events, recvs: seq<Recv>, sends: seq<Send>, readNow: int, writeNow: int)
    requires TurnOk(t) && t.conn.fd >= 0 && readNow <= writeNow
    requires events.writable ==> t.conn.responseReady
    requires !events.failed && events.writable ==>
      MayWrite(if events.readable then HandleRead(t, recvs, readNow) else t)
    ensures EventMarks(t.conn, events, recvs, sends, readNow, writeNow,
                       HandleEvent(t, events, recvs, sends, readNow, writeNow).conn)
  {
    assert t.conn.input + "" == t.conn.input;
    if !events.failed {
      if events.readable { ReadMarks(t, recvs, readNow); }
      if events.writable {
        ReadyToWrite(t);
        if !events.readable {
          WriteMarks(t, sends, writeNow);
        } else {
          ReadWhileReady(t, recvs, readNow);
          HandleReadKeeps(t, recvs, readNow);
          ClosedKeepsOutput(t);
          var u := HandleRead(t, recvs, readNow);
          if u.conn.fd < 0 {
            WriteAfterClose(u, sends, writeNow);
          } else {
            ReadyToWrite(u);
            WriteMarks(u, sends, writeNow);
          }
        }
      }
      hide HandleRead, HandleWrite, TurnOk, AboutToWrite, MayWrite, HasComplete, Delivered, RecvFails, Room;
    }
  }

  lemma ResponseMarked(t: Turn, id: nat, result: ResponseResult, sends: seq<Send>, now: int)
    requires TurnOk(t) && AcceptsResponse(t.conn, id)
    ensures ResponseMarks(t.conn, result, sends, now, FinishRequest(t, id, result, sends, now).conn)
  {
    TakeResponseKeeps(t, id, result);
    var taken := t.(conn := TakeResponse(t.conn, result));
    WriteMarks(taken, sends, now);
    ServingHasNoOutput(t);
    hide TurnOk, AboutToWrite, HandleWrite, Room, HasComplete;
  }
}
