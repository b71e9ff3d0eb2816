// The responses of src/http/HttpResponse.cpp, and a client that reads them off a stream:
// header section up to the blank line, then Content-Length bytes of body (section 6.3 of
// RFC 9112).
module HttpResponses {
  import opened TcpProtocol
  import opened Framing
  import opened HttpRequests
  import opened HttpMessages
  import opened Json

  datatype Response = Response(status: string, contentType: string, body: string, close: bool)

  const PLAIN_TEXT := "text/plain; charset=utf-8"
  const JSON_TEXT := "application/json; charset=utf-8"

  function OkText(body: string, close: bool): Response {
    Response("200 OK", PLAIN_TEXT, body, close)
  }

  function OkJson(body: string, close: bool): Response {
    Response("200 OK", JSON_TEXT, body, close)
  }

  function NotFound(close: bool): Response {
    Response("404 Not Found", PLAIN_TEXT, "Not Found\n", close)
  }

  function BadRequest(body: string, close: bool): Response {
    Response("400 Bad Request", PLAIN_TEXT, body, close)
  }

  function InternalServerError(close: bool): Response {
    Response("500 Internal Server Error", PLAIN_TEXT, "Internal Server Error\n", close)
  }

  function ConnectionValue(r: Response): string {
    if r.close then "close" else "keep-alive"
  }

  function Text(r: Response): string {
    "HTTP/1.1 " + r.status + "\r\n"
    + "Content-Type: " + r.contentType + "\r\n"
    + "Content-Length: " + Decimal(|r.body|) + "\r\n"
    + "Connection: " + ConnectionValue(r) + "\r\n"
    + "\r\n"
    + r.body
  }

  // --- the client ------------------------------------------------------------------------------

  const VERSION := "HTTP/1.1 "

  // What a message head says: the response without its body, and the length of the body.
  function ReadHead(head: string): Option<(Response, nat)> {
    var lineEnd := FindLineEnd(head, 0);
    if lineEnd == |head| || !(VERSION <= head[..lineEnd]) then None
    else
      var parsed := ParseHeaders(head, lineEnd + 2, HttpRequest("", "", map[], map[]));
      if !parsed.Accepted? then None
      else
        var headers := parsed.request.headers;
        if !({"Content-Type", "Content-Length", "Connection"} <= headers.Keys) || ReadDecimal(headers["Content-Length"]) == None then None
        else
          Some((Response(head[|VERSION|..lineEnd], headers["Content-Type"], "", headers["Connection"] == "close"),
                ReadDecimal(headers["Content-Length"]).value))
  }

  datatype Found = Found(response: Response, size: nat)

  // The first response of a stream, once all of it has arrived.
  function ReadResponse(s: string): (found: Option<Found>)
    ensures found.Some? ==> 0 < found.value.size <= |s|
  {
    var end := FrameEnd(s);
    if end == 0 then None
    else
      var head := ReadHead(s[..end]);
      if head == None || |s| < end + head.value.1 then None
      else Some(Found(head.value.0.(body := s[end..end + head.value.1]), end + head.value.1))
  }

  function ReadStream(s: string): seq<Response>
    decreases |s|
  {
    var first := ReadResponse(s);
    if first == None then [] else [first.value.response] + ReadStream(s[first.value.size..])
  }

  // --- one response ------------------------------------------------------------------------------

  lemma {:induction false} ReadsDecimal(n: nat)
    ensures ReadDecimal(Decimal(n)) == Some(n) && '\r' !in Decimal(n) && Decimal(n) != "" && !Blank(Decimal(n)[0])
  {
    if n >= 10 {
      ReadsDecimal(n / 10);
      assert Decimal(n)[..|Decimal(n)| - 1] == Decimal(n / 10);
    }
  }

  function Headers(r: Response): seq<Header> {
    [Header("Content-Type", r.contentType), Header("Content-Length", Decimal(|r.body|)),
     Header("Connection", ConnectionValue(r))]
  }

  // Nothing the server fills in can break a line.
  predicate Clean(r: Response) {
    '\r' !in r.status && CleanHeader(Header("Content-Type", r.contentType))
  }

  lemma PlainTextIsClean()
    ensures '\r' !in PLAIN_TEXT && PLAIN_TEXT != "" && !Blank(PLAIN_TEXT[0])
  {
  }

  lemma JsonTextIsClean()
    ensures '\r' !in JSON_TEXT && JSON_TEXT != "" && !Blank(JSON_TEXT[0])
  {
  }

  lemma ContentTypeIsClean()
    ensures "Content-Type" != "" && ':' !in "Content-Type" && '\r' !in "Content-Type"
  {
  }

  lemma TypesAreClean()
    ensures CleanHeader(Header("Content-Type", PLAIN_TEXT)) && CleanHeader(Header("Content-Type", JSON_TEXT))
  {
    PlainTextIsClean();
    JsonTextIsClean();
    ContentTypeIsClean();
    hide PLAIN_TEXT, JSON_TEXT, Blank;
  }

  lemma ConstantsAreClean(body: string, close: bool)
    ensures Clean(OkText(body, close)) && Clean(OkJson(body, close)) && Clean(NotFound(close))
    ensures Clean(BadRequest(body, close)) && Clean(InternalServerError(close))
  {
    TypesAreClean();
    hide CleanHeader;
    assert '\r' !in "200 OK";
    assert '\r' !in "404 Not Found";
    assert '\r' !in "400 Bad Request";
    assert '\r' !in "500 Internal Server Error";
  }

  lemma ThreeHeaders(a: Header, b: Header, c: Header)
    ensures HeaderLines([a, b, c]) == HeaderLine(a) + "\r\n" + (HeaderLine(b) + "\r\n" + (HeaderLine(c) + "\r\n"))
  {
    hide HeaderLine;
    assert [a, b, c][1..] == [b, c] && [b, c][1..] == [c] && [c][1..] == [];
    assert HeaderLines([c]) == HeaderLine(c) + "\r\n" + "";
    assert HeaderLines([b, c]) == HeaderLine(b) + "\r\n" + HeaderLines([c]);
  }

  lemma TextIsMessage(r: Response)
    ensures Text(r) == Message(VERSION + r.status, Headers(r)) + r.body
  {
    hide HeaderLines, Decimal, ConnectionValue;
    var (a, b, c) := (Headers(r)[0], Headers(r)[1], Headers(r)[2]);
    ThreeHeaders(a, b, c);
    assert HeaderLine(a) == "Content-Type: " + a.value;
    assert HeaderLine(b) == "Content-Length: " + b.value;
    assert HeaderLine(c) == "Connection: " + c.value;
    assert Text(r) == VERSION + r.status + "\r\n"
      + (HeaderLine(a) + "\r\n" + (HeaderLine(b) + "\r\n" + (HeaderLine(c) + "\r\n")) + "\r\n") + r.body;
  }

  lemma EmplacedThree(a: Header, b: Header, c: Header)
    requires a.name != b.name && a.name != c.name && b.name != c.name
    ensures EmplaceAll(map[], [a, b, c]) == map[a.name := a.value, b.name := b.value, c.name := c.value]
  {
    var none: map<string, string> := map[];
    var one := none[a.name := a.value];
    var two := one[b.name := b.value];
    assert [a, b, c][1..] == [b, c] && [b, c][1..] == [c] && [c][1..] == [];
    assert EmplaceAll(none, [a, b, c]) == EmplaceAll(one, [b, c]) == EmplaceAll(two, [c]);
    assert EmplaceAll(two, [c]) == EmplaceAll(two[c.name := c.value], []);
  }

  lemma HeadersEmplaced(r: Response)
    ensures var found := EmplaceAll(map[], Headers(r));
      && {"Content-Type", "Content-Length", "Connection"} <= found.Keys
      && found["Content-Type"] == r.contentType && found["Content-Length"] == Decimal(|r.body|)
      && found["Connection"] == ConnectionValue(r)
  {
    hide EmplaceAll, Decimal, ConnectionValue;
    var headers := Headers(r);
    var (a, b, c) := (headers[0], headers[1], headers[2]);
    assert |a.name| == 12 && |b.name| == 14 && |c.name| == 10;
    EmplacedThree(a, b, c);
    assert headers == [a, b, c];
  }

  lemma ConnectionIsClean(r: Response)
    ensures CleanHeader(Header("Connection", ConnectionValue(r)))
  {
  }

  lemma LengthIsClean(digits: string)
    requires '\r' !in digits && digits != "" && !Blank(digits[0])
    ensures CleanHeader(Header("Content-Length", digits))
  {
  }

  lemma HeadersAreClean(r: Response)
    requires Clean(r)
    ensures forall h <- Headers(r) :: CleanHeader(h)
  {
    ReadsDecimal(|r.body|);
    ConnectionIsClean(r);
    LengthIsClean(Decimal(|r.body|));
    hide Decimal, ReadDecimal, CleanHeader, ConnectionValue;
  }

  // The head of a message with any header section that has the three headers of a response.
  lemma ReadsMessage(status: string, headers: seq<Header>, length: nat)
    requires '\r' !in status && forall h <- headers :: CleanHeader(h)
    requires {"Content-Type", "Content-Length", "Connection"} <= EmplaceAll(map[], headers).Keys
    requires ReadDecimal(EmplaceAll(map[], headers)["Content-Length"]) == Some(length)
    ensures var found := EmplaceAll(map[], headers);
      ReadHead(Message(VERSION + status, headers)) ==
        Some((Response(status, found["Content-Type"], "", found["Connection"] == "close"), length))
  {
    var line := VERSION + status;
    VersionThenStatus(status);
    hide *;
    HeadersRoundTrip(line + "\r\n", headers, HttpRequest("", "", map[], map[]));
    MessageParts(line, headers);
    FirstLine(line, HeaderLines(headers) + "\r\n");
    ReadsAccepted(Message(line, headers), status, EmplaceAll(map[], headers), length,
                  ParseHeaders(Message(line, headers), |line| + 2, HttpRequest("", "", map[], map[])));
  }

  lemma VersionThenStatus(status: string)
    requires '\r' !in status
    ensures '\r' !in VERSION + status
  {
  }

  lemma FirstLine(line: string, rest: string)
    requires '\r' !in line
    ensures var s := line + "\r\n" + rest;
      FindLineEnd(s, 0) == |line| < |s| && s[..|line|] == line
  {
    LineEndBehind("", line, rest);
    assert "" + line + "\r\n" + rest == line + "\r\n" + rest;
  }

  lemma ReadsAccepted(head: string, status: string, found: map<string, string>, length: nat, parsed: Parsed)
    requires var n := |VERSION + status|;
      && n + 2 <= |head| && FindLineEnd(head, 0) == n && head[..n] == VERSION + status
      && parsed == ParseHeaders(head, n + 2, HttpRequest("", "", map[], map[]))
    requires parsed.Accepted? && parsed.request.headers == found
    requires {"Content-Type", "Content-Length", "Connection"} <= found.Keys
    requires ReadDecimal(found["Content-Length"]) == Some(length)
    ensures ReadHead(head) == Some((Response(status, found["Content-Type"], "", found["Connection"] == "close"), length))
  {
    hide ParseHeaders, FindLineEnd, ReadDecimal, VERSION;
    assert head[|VERSION|..|VERSION + status|] == head[..|VERSION + status|][|VERSION|..] == status;
  }

  lemma ReadsHead(r: Response)
    requires Clean(r)
    ensures var head := Message(VERSION + r.status, Headers(r));
      IsFrame(head) && ReadHead(head) == Some((r.(body := ""), |r.body|))
  {
    ReadsDecimal(|r.body|);
    HeadersEmplaced(r);
    HeadersAreClean(r);
    assert CleanLine(VERSION + r.status);
    assert "close" != "keep-alive";
    hide CleanHeader, Decimal, ReadDecimal, EmplaceAll, IsFrame, Headers, ReadHead, Message;
    MessageIsFrame(VERSION + r.status, Headers(r));
    ReadsMessage(r.status, Headers(r), |r.body|);
  }

  // A client finds where a response ends and recovers all of it, whatever its body holds and
  // whatever follows.
  lemma ResponseRoundTrip(r: Response, rest: string)
    requires Clean(r)
    ensures ReadResponse(Text(r) + rest) == Some(Found(r, |Text(r)|))
    ensures |Text(r)| > 0
  {
    hide Clean, ReadHead, Headers, Message, Text, IsFrame, FrameEnd;
    TextIsMessage(r);
    ReadsHead(r);
    var head := Message(VERSION + r.status, Headers(r));
    var s := Text(r) + rest;
    assert s == head + (r.body + rest);
    FirstFrame(head, r.body + rest);
    assert s[..|head|] == head && s[|head|..|head| + |r.body|] == r.body;
  }

  // --- pipelined responses -----------------------------------------------------------------------

  function Texts(rs: seq<Response>): seq<string> {
    seq(|rs|, i requires 0 <= i < |rs| => Text(rs[i]))
  }

  lemma ReadStreamFront(s: string, first: Found)
    requires ReadResponse(s) == Some(first)
    ensures ReadStream(s) == [first.response] + ReadStream(s[first.size..])
  {
  }

  lemma {:induction false} StreamRoundTrip(rs: seq<Response>)
    requires forall r <- rs :: Clean(r)
    ensures ReadStream(Concat(Texts(rs))) == rs
    decreases |rs|
  {
    hide Clean, Text, Concat, ReadStream, ReadResponse;
    if rs == [] {
      ConcatOfNone();
      NothingToRead();
      assert Texts(rs) == [];
    } else {
      var (r, tail) := (rs[0], rs[1..]);
      assert Texts(rs) == [Text(r)] + Texts(tail);
      ConcatFront(Text(r), Texts(tail));
      ResponseRoundTrip(r, Concat(Texts(tail)));
      var s := Text(r) + Concat(Texts(tail));
      ReadStreamFront(s, Found(r, |Text(r)|));
      assert s[|Text(r)|..] == Concat(Texts(tail));
      StreamRoundTrip(tail);
      assert rs == [r] + tail;
    }
  }

  lemma NothingToRead()
    ensures ReadStream("") == []
  {
  }

  lemma ReadResponseOfMore(s: string, more: string)
    requires ReadResponse(s).Some?
    ensures ReadResponse(s + more) == ReadResponse(s)
  {
    hide ReadHead, IsFrame, FrameEnd;
    var end := FrameEnd(s);
    CutIsFrame(s);
    FirstFrame(s[..end], s[end..] + more);
    assert s[..end] + (s[end..] + more) == s + more;
    assert (s + more)[..end] == s[..end];
    var n := ReadHead(s[..end]).value.1;
    assert (s + more)[end..end + n] == s[end..end + n];
  }

  // Bytes still under way never change how the ones that arrived are read.
  lemma {:induction false} ReadStreamOfMore(s: string, more: string)
    ensures ReadStream(s) <= ReadStream(s + more)
    decreases |s|
  {
    hide ReadResponse;
    var first := ReadResponse(s);
    if first.Some? {
      ReadResponseOfMore(s, more);
      ReadStreamOfMore(s[first.value.size..], more);
      assert (s + more)[first.value.size..] == s[first.value.size..] + more;
    }
  }
}
