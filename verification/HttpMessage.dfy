// Whole HTTP/1.1 messages as section 2.1 of RFC 9112 lays them out, and what the framer and
// the parser make of them.
module HttpMessages {
  import opened TcpProtocol
  import opened Framing
  import opened UrlCodec
  import opened HttpRequests

  datatype Header = Header(name: string, value: string)

  function HeaderLine(f: Header): string {
    f.name + ": " + f.value
  }

  function HeaderLines(headers: seq<Header>): string {
    if headers == [] then "" else HeaderLine(headers[0]) + "\r\n" + HeaderLines(headers[1..])
  }

  function Message(startLine: string, headers: seq<Header>): string {
    startLine + "\r\n" + (HeaderLines(headers) + "\r\n")
  }

  predicate Blank(c: char) {
    c == ' ' || c == '\t'
  }

  // A sender must keep line ends out of lines, and ':' out of names.
  predicate CleanHeader(f: Header) {
    && f.name != "" && ':' !in f.name && '\r' !in f.name
    && '\r' !in f.value && (f.value != "" ==> !Blank(f.value[0]))
  }

  predicate CleanLine(line: string) {
    line != "" && '\r' !in line
  }

  lemma CleanHeaderLine(f: Header)
    requires CleanHeader(f)
    ensures CleanLine(HeaderLine(f))
  {
  }

  lemma FrontOfFrame(line: string, s: string)
    requires CleanLine(line) && IsFrame(s) && s[0] != '\r'
    ensures IsFrame(line + "\r\n" + s)
  {
    var all := line + "\r\n" + s;
    var n := |line| + 2;
    assert all[n..] == s;
    assert TerminatorAt(s, |s| - 4) && TerminatorAt(all, |all| - 4);
    forall i | i < |all| - 4 ensures !TerminatorAt(all, i) {
      if i >= n {
        assert TerminatorAt(all, i) ==> TerminatorAt(s, i - n);
      } else if 0 <= i < |line| {
        assert all[i] == line[i];
      }
    }
  }

  // A message head is exactly one frame.
  lemma {:induction false} MessageIsFrame(startLine: string, headers: seq<Header>)
    requires CleanLine(startLine) && forall f <- headers :: CleanHeader(f)
    ensures IsFrame(Message(startLine, headers))
    decreases |headers|
  {
    var s := Message(startLine, headers);
    if headers == [] {
      assert s == startLine + "\r\n\r\n";
      assert TerminatorAt(s, |s| - 4);
      forall i | i < |s| - 4 ensures !TerminatorAt(s, i) {
        if 0 <= i { assert s[i] == startLine[i]; }
      }
    } else {
      CleanHeaderLine(headers[0]);
      MessageIsFrame(HeaderLine(headers[0]), headers[1..]);
      var rest := Message(HeaderLine(headers[0]), headers[1..]);
      FrontOfFrame(startLine, rest);
      assert HeaderLines(headers) + "\r\n" == rest;
    }
  }

  lemma LineEndUnique(s: string, from: nat, i: nat)
    requires from <= i <= |s| && LineEndAt(s, i) && forall j :: from <= j < i ==> !LineEndAt(s, j)
    ensures FindLineEnd(s, from) == i
  {
  }

  lemma LineEndBehind(before: string, line: string, after: string)
    requires '\r' !in line
    ensures FindLineEnd(before + line + "\r\n" + after, |before|) == |before| + |line|
  {
    var s := before + line + "\r\n" + after;
    forall j | |before| <= j < |before| + |line| ensures !LineEndAt(s, j) {
      assert s[j] == line[j - |before|];
    }
    LineEndUnique(s, |before|, |before| + |line|);
  }

  lemma HeaderParts(f: Header)
    requires CleanHeader(f)
    ensures var line := HeaderLine(f);
      && Find(line, ':', 0) == |f.name| < |line| && line[..|f.name|] == f.name
      && line[SkipBlanks(line, |f.name| + 1)..] == f.value
  {
    var line := HeaderLine(f);
    FindUnique(line, ':', 0, |f.name|);
    assert line[|f.name| + 2..] == f.value;
    assert f.value != "" ==> line[|f.name| + 2] == f.value[0];
  }

  function EmplaceAll(found: map<string, string>, headers: seq<Header>): map<string, string>
    decreases |headers|
  {
    if headers == [] then found
    else EmplaceAll(EmplaceHeader(found, headers[0].name, headers[0].value), headers[1..])
  }

  lemma TakesHeader(request: HttpRequest, f: Header)
    requires CleanHeader(f)
    ensures TakeHeader(request, HeaderLine(f)) ==
      Some(request.(headers := EmplaceHeader(request.headers, f.name, f.value)))
  {
    HeaderParts(f);
    hide Find, SkipBlanks, HeaderLine, EmplaceHeader;
  }

  lemma ParseOneHeader(raw: string, cursor: nat, line: string, request: HttpRequest, taken: HttpRequest)
    requires line != "" && cursor + |line| + 2 <= |raw| && raw[cursor..cursor + |line|] == line
    requires FindLineEnd(raw, cursor) == cursor + |line| && TakeHeader(request, line) == Some(taken)
    ensures ParseHeaders(raw, cursor, request) == ParseHeaders(raw, cursor + |line| + 2, taken)
  {
    hide FindLineEnd, TakeHeader;
  }

  lemma ParseBlankLine(before: string, request: HttpRequest)
    ensures ParseHeaders(before + "\r\n", |before|, request) == Accepted(request, |before|)
  {
    assert LineEndAt(before + "\r\n", |before|);
  }

  // The header loop reads back the headers a sender wrote, the first of each name.
  lemma {:induction false} HeadersRoundTrip(before: string, headers: seq<Header>, request: HttpRequest)
    requires forall f <- headers :: CleanHeader(f)
    ensures ParseHeaders(before + (HeaderLines(headers) + "\r\n"), |before|, request) ==
      Accepted(request.(headers := EmplaceAll(request.headers, headers)), |before| + |HeaderLines(headers)|)
    decreases |headers|
  {
    hide ParseHeaders, CleanHeader, FindLineEnd, HeaderLine, EmplaceHeader, TakeHeader;
    if headers == [] {
      assert before + ("" + "\r\n") == before + "\r\n";
      ParseBlankLine(before, request);
    } else {
      var (f, line) := (headers[0], HeaderLine(headers[0]));
      var rest := HeaderLines(headers[1..]) + "\r\n";
      var raw := before + (HeaderLines(headers) + "\r\n");
      var before' := before + line + "\r\n";
      assert raw == before' + rest;
      CleanHeaderLine(f);
      LineEndBehind(before, line, rest);
      assert raw[|before|..|before| + |line|] == line;
      var taken := request.(headers := EmplaceHeader(request.headers, f.name, f.value));
      TakesHeader(request, f);
      ParseOneHeader(raw, |before|, line, request, taken);
      HeadersRoundTrip(before', headers[1..], taken);
    }
  }

  // --- a client's request ----------------------------------------------------------------------

  function RequestLineOf(method_: string, target: string): string {
    method_ + " " + target + " HTTP/1.1"
  }

  lemma SplitsRequestLine(method_: string, target: string)
    requires ' ' !in method_ && ' ' !in target
    ensures SplitRequestLine(RequestLineOf(method_, target)) == Some(RequestLine(method_, target))
  {
    var line := RequestLineOf(method_, target);
    FindUnique(line, ' ', 0, |method_|);
    assert forall j :: |method_| + 1 <= j < |method_| + 1 + |target| ==> line[j] == target[j - |method_| - 1];
    FindUnique(line, ' ', |method_| + 1, |method_| + 1 + |target|);
    assert line[..|method_|] == method_ && line[|method_| + 1..|method_| + 1 + |target|] == target;
  }

  predicate CleanWord(s: string) {
    ' ' !in s && '\r' !in s
  }

  // A target without a query, or with one.
  function TargetOf(path: string, query: Option<string>): string {
    if query == None then path else path + "?" + query.value
  }

  predicate CleanTarget(method_: string, path: string, query: Option<string>) {
    && method_ != "" && CleanWord(method_) && CleanWord(path) && '?' !in path
    && (query.Some? ==> CleanWord(query.value))
  }

  lemma ParseBehindLine(line: string, rest: string, parts: RequestLine, request: HttpRequest)
    requires '\r' !in line && SplitRequestLine(line) == Some(parts) && ParseTarget(parts) == Some(request)
    ensures ParseRequest(line + "\r\n" + rest) == ParseHeaders(line + "\r\n" + rest, |line| + 2, request)
  {
    hide SplitRequestLine, ParseTarget, ParseHeaders, FindLineEnd;
    var raw := line + "\r\n" + rest;
    LineEndBehind("", line, rest);
    assert "" + line + "\r\n" + rest == raw;
    assert raw[..|line|] == line;
  }

  lemma PlainTarget(method_: string, path: string)
    requires '?' !in path
    ensures ParseTarget(RequestLine(method_, path)) == Some(HttpRequest(method_, path, map[], map[]))
  {
    FindUnique(path, '?', 0, |path|);
  }

  // What the query part of a target says: nothing, or an encoding of a list of pairs.
  ghost predicate Says(query: Option<string>, pairs: seq<Pair>) {
    if query == None then pairs == [] else exists items :: EncodesPairs(items, pairs) && query.value == Join(items)
  }

  lemma TargetRead(method_: string, path: string, query: Option<string>, pairs: seq<Pair>)
    requires Says(query, pairs) && '?' !in path
    ensures ParseTarget(RequestLine(method_, TargetOf(path, query))) ==
      Some(HttpRequest(method_, path, FirstWins(map[], pairs), map[]))
  {
    hide ParseTarget, EncodesPairs;
    if query == None {
      PlainTarget(method_, path);
    } else {
      var items :| EncodesPairs(items, pairs) && query.value == Join(items);
      QueryReachesHandler(method_, path, items, pairs);
    }
  }

  // Every request a client can write is one frame, and the parser recovers its method, path,
  // query parameters and headers.
  lemma RequestRoundTrip(method_: string, path: string, query: Option<string>, pairs: seq<Pair>, headers: seq<Header>)
    requires CleanTarget(method_, path, query) && Says(query, pairs)
    requires forall f <- headers :: CleanHeader(f)
    ensures var raw := Message(RequestLineOf(method_, TargetOf(path, query)), headers);
      && IsFrame(raw)
      && ParseRequest(raw) ==
           Accepted(HttpRequest(method_, path, FirstWins(map[], pairs), EmplaceAll(map[], headers)), |raw| - 2)
  {
    var target := TargetOf(path, query);
    CleanRequestLine(method_, path, query);
    hide *;
    SplitsRequestLine(method_, target);
    TargetRead(method_, path, query, pairs);
    ParsesMessage(RequestLineOf(method_, target), headers, RequestLine(method_, target),
                  HttpRequest(method_, path, FirstWins(map[], pairs), map[]));
  }

  lemma CleanRequestLine(method_: string, path: string, query: Option<string>)
    requires CleanTarget(method_, path, query)
    ensures ' ' !in method_ && ' ' !in TargetOf(path, query) && '?' !in path
    ensures CleanLine(RequestLineOf(method_, TargetOf(path, query)))
  {
  }

  // So any list of pairs can be sent as the query of a request, and is what arrives.
  lemma PairsArrive(method_: string, path: string, pairs: seq<Pair>, headers: seq<Header>)
    requires CleanTarget(method_, path, None) && Sendable(pairs) && forall f <- headers :: CleanHeader(f)
    ensures var raw := Message(RequestLineOf(method_, TargetOf(path, Some(Serialize(pairs)))), headers);
      && IsFrame(raw)
      && ParseRequest(raw) ==
           Accepted(HttpRequest(method_, path, FirstWins(map[], pairs), EmplaceAll(map[], headers)), |raw| - 2)
  {
    PairsEncoded(pairs);
    JoinedIsClean(EncodePairs(pairs));
    assert Says(Some(Serialize(pairs)), pairs);
    assert CleanTarget(method_, path, Some(Serialize(pairs)));
    hide *;
    RequestRoundTrip(method_, path, Some(Serialize(pairs)), pairs, headers);
  }

  lemma ParsesMessage(line: string, headers: seq<Header>, parts: RequestLine, request: HttpRequest)
    requires CleanLine(line) && forall f <- headers :: CleanHeader(f)
    requires SplitRequestLine(line) == Some(parts) && ParseTarget(parts) == Some(request)
    ensures var raw := Message(line, headers);
      && IsFrame(raw)
      && ParseRequest(raw) == Accepted(request.(headers := EmplaceAll(request.headers, headers)), |raw| - 2)
  {
    hide CleanHeader, SplitRequestLine, ParseTarget, ParseRequest, ParseHeaders, IsFrame, HeaderLines, EmplaceAll;
    MessageIsFrame(line, headers);
    ParseBehindLine(line, HeaderLines(headers) + "\r\n", parts, request);
    HeadersRoundTrip(line + "\r\n", headers, request);
    MessageParts(line, headers);
  }

  lemma MessageParts(line: string, headers: seq<Header>)
    ensures Message(line, headers) == line + "\r\n" + (HeaderLines(headers) + "\r\n")
    ensures |Message(line, headers)| - 2 == |line + "\r\n"| + |HeaderLines(headers)|
  {
  }

  // --- what is accepted -------------------------------------------------------------------------

  function RawLines(lines: seq<string>): string {
    if lines == [] then "" else lines[0] + "\r\n" + RawLines(lines[1..])
  }

  // A name, and a ':' behind it.
  predicate IsHeaderLine(line: string) {
    ':' in line && line[0] != ':'
  }

  lemma LineTurn(raw: string, cursor: nat, line: string, request: HttpRequest)
    requires line != "" && cursor + |line| + 2 <= |raw| && raw[cursor..cursor + |line|] == line
    requires FindLineEnd(raw, cursor) == cursor + |line|
    ensures var taken := TakeHeader(request, line);
      ParseHeaders(raw, cursor, request) ==
        if taken == None then BadHeader else ParseHeaders(raw, cursor + |line| + 2, taken.value)
  {
    hide FindLineEnd, TakeHeader;
  }

  // What stands before the header lines, the lines, and what stands behind them.
  function Section(before: string, lines: seq<string>, tail: string): string {
    before + (RawLines(lines) + tail)
  }

  lemma LineFound(before: string, line: string, rest: string)
    requires CleanLine(line)
    ensures var raw := before + line + "\r\n" + rest;
      && |before| + |line| + 2 <= |raw| && raw[|before|..|before| + |line|] == line
      && FindLineEnd(raw, |before|) == |before| + |line|
  {
    LineEndBehind(before, line, rest);
    hide FindLineEnd;
  }

  lemma RawLinesFront(lines: seq<string>)
    requires lines != []
    ensures RawLines(lines) == lines[0] + "\r\n" + RawLines(lines[1..])
  {
  }

  lemma SectionFront(before: string, lines: seq<string>, tail: string)
    requires lines != []
    ensures Section(before, lines, tail) == before + lines[0] + "\r\n" + (RawLines(lines[1..]) + tail)
    ensures Section(before, lines, tail) == Section(before + lines[0] + "\r\n", lines[1..], tail)
    ensures |before + lines[0] + "\r\n"| == |before| + |lines[0]| + 2
  {
    RawLinesFront(lines);
    hide RawLines;
  }

  lemma LinesTurn(before: string, lines: seq<string>, tail: string)
    requires lines != [] && CleanLine(lines[0])
    ensures var (line, raw) := (lines[0], Section(before, lines, tail));
      && raw == Section(before + line + "\r\n", lines[1..], tail)
      && |before + line + "\r\n"| == |before| + |line| + 2 <= |raw|
      && raw[|before|..|before| + |line|] == line != ""
      && FindLineEnd(raw, |before|) == |before| + |line|
  {
    SectionFront(before, lines, tail);
    assert lines[0] != "";
    hide *;
    LineFound(before, lines[0], RawLines(lines[1..]) + tail);
  }

  ghost predicate AllClean(lines: seq<string>) {
    forall i :: 0 <= i < |lines| ==> CleanLine(lines[i])
  }

  ghost predicate AllHeaderLines(lines: seq<string>) {
    forall i :: 0 <= i < |lines| ==> IsHeaderLine(lines[i])
  }

  lemma HeaderLinesFront(lines: seq<string>)
    requires lines != []
    ensures AllHeaderLines(lines) <==> IsHeaderLine(lines[0]) && AllHeaderLines(lines[1..])
    ensures AllClean(lines) ==> CleanLine(lines[0]) && AllClean(lines[1..])
  {
    hide IsHeaderLine, CleanLine;
    forall i | 0 <= i < |lines| ensures lines[i] == if i == 0 then lines[0] else lines[1..][i - 1] {
    }
    if IsHeaderLine(lines[0]) && AllHeaderLines(lines[1..]) {
      forall i | 0 <= i < |lines| ensures IsHeaderLine(lines[i]) {
        if i > 0 { assert IsHeaderLine(lines[1..][i - 1]); }
      }
    }
  }

  // What a header section ends with: its blank line, nothing, or a line without an end.
  predicate IsTail(tail: string) {
    tail == "\r\n" || '\r' !in tail
  }

  lemma TailReached(before: string, tail: string, request: HttpRequest)
    requires IsTail(tail)
    ensures var parsed := ParseHeaders(Section(before, [], tail), |before|, request);
      if tail == "\r\n" || tail == "" then parsed.Accepted? else parsed == HeaderWithoutLineEnd
  {
    assert Section(before, [], tail) == before + tail;
    if tail == "\r\n" {
      hide ParseHeaders;
      ParseBlankLine(before, request);
    } else if tail != "" {
      NoLineEnd(before, tail);
      hide FindLineEnd;
    }
  }

  lemma NoLineEnd(before: string, tail: string)
    requires '\r' !in tail
    ensures FindLineEnd(before + tail, |before|) == |before + tail|
  {
    var raw := before + tail;
    hide FindLineEnd;
    forall i | |before| <= i < |raw| ensures !LineEndAt(raw, i) {
      assert raw[i] == tail[i - |before|];
    }
  }

  // A header section is accepted exactly when all of its lines are header lines and it does
  // not break off inside a line; without its blank line it is accepted too.
  lemma {:induction false} SectionAccepted(before: string, lines: seq<string>, tail: string, request: HttpRequest)
    requires AllClean(lines) && IsTail(tail)
    ensures var parsed := ParseHeaders(Section(before, lines, tail), |before|, request);
      if !AllHeaderLines(lines) then parsed == BadHeader
      else if tail == "\r\n" || tail == "" then parsed.Accepted?
      else parsed == HeaderWithoutLineEnd
    decreases |lines|
  {
    if lines == [] {
      hide ParseHeaders, Section;
      TailReached(before, tail, request);
    } else {
      hide *;
      HeaderLinesFront(lines);
      LinesTurn(before, lines, tail);
      var line := lines[0];
      LineTurn(Section(before, lines, tail), |before|, line, request);
      HeaderLineTaken(request, line);
      if IsHeaderLine(line) {
        SectionAccepted(before + line + "\r\n", lines[1..], tail, TakeHeader(request, line).value);
      }
    }
  }

  lemma HeaderLineTaken(request: HttpRequest, line: string)
    ensures TakeHeader(request, line).Some? <==> IsHeaderLine(line)
  {
    HeaderRefused(request, line);
  }

  ghost predicate NoneMalformed(items: seq<string>) {
    forall item <- items :: !Malformed(item)
  }

  lemma TargetAccepted(method_: string, path: string, items: seq<string>)
    requires '?' !in path && forall item <- items :: '&' !in item
    ensures ParseTarget(RequestLine(method_, path + "?" + Join(items))).Some? <==> NoneMalformed(items)
  {
    var target := path + "?" + Join(items);
    FindUnique(target, '?', 0, |path|);
    assert target[|path| + 1..] == Join(items);
    QueryRefused(items, map[]);
    hide ParseQuery, Malformed, Join, Find;
  }

  // A request with a query is accepted exactly when no item of the query is malformed, every
  // line below the first is a header line, and no line breaks off.
  lemma RequestAccepted(method_: string, path: string, items: seq<string>, lines: seq<string>, tail: string)
    requires CleanTarget(method_, path, Some(Join(items))) && AllClean(lines) && forall item <- items :: '&' !in item
    requires IsTail(tail)
    ensures ParseRequest(Section(RequestLineOf(method_, path + "?" + Join(items)) + "\r\n", lines, tail)).Accepted? <==>
      NoneMalformed(items) && AllHeaderLines(lines) && (tail == "\r\n" || tail == "")
  {
    var target := path + "?" + Join(items);
    assert target == TargetOf(path, Some(Join(items)));
    CleanRequestLine(method_, path, Some(Join(items)));
    TargetAccepted(method_, path, items);
    hide *;
    SplitsRequestLine(method_, target);
    LinesAccepted(RequestLineOf(method_, target), lines, tail, RequestLine(method_, target));
  }

  lemma LinesAccepted(line: string, lines: seq<string>, tail: string, parts: RequestLine)
    requires CleanLine(line) && AllClean(lines) && IsTail(tail) && SplitRequestLine(line) == Some(parts)
    ensures ParseRequest(Section(line + "\r\n", lines, tail)).Accepted? <==>
      ParseTarget(parts).Some? && AllHeaderLines(lines) && (tail == "\r\n" || tail == "")
  {
    var rest := RawLines(lines) + tail;
    hide SplitRequestLine, ParseTarget, ParseHeaders, ParseRequest, FindLineEnd, AllClean, AllHeaderLines, RawLines, IsTail;
    if ParseTarget(parts).Some? {
      ParseBehindLine(line, rest, parts, ParseTarget(parts).value);
      SectionAccepted(line + "\r\n", lines, tail, ParseTarget(parts).value);
    } else {
      RefusedTarget(line, rest, parts);
    }
  }

  lemma RefusedTarget(line: string, rest: string, parts: RequestLine)
    requires '\r' !in line && SplitRequestLine(line) == Some(parts) && ParseTarget(parts) == None
    ensures ParseRequest(line + "\r\n" + rest) == BadQuery
  {
    hide SplitRequestLine, ParseTarget, ParseHeaders, FindLineEnd;
    var raw := line + "\r\n" + rest;
    LineEndBehind("", line, rest);
    assert "" + line + "\r\n" + rest == raw;
    assert raw[..|line|] == line;
  }

  // Without a line end there is no request line.
  lemma NoRequestLineExactly(raw: string)
    ensures ParseRequest(raw) == NoRequestLine <==> forall i :: !LineEndAt(raw, i)
  {
    hide SplitRequestLine, ParseTarget, ParseHeaders;
    var end := FindLineEnd(raw, 0);
    if end < |raw| { NotMissing(raw); }
  }

  lemma NotMissing(raw: string)
    requires FindLineEnd(raw, 0) < |raw|
    ensures ParseRequest(raw) != NoRequestLine
  {
    hide SplitRequestLine, ParseTarget, FindLineEnd;
    var end := FindLineEnd(raw, 0);
    var line := SplitRequestLine(raw[..end]);
    if line.Some? && ParseTarget(line.value).Some? {
      NeverMissing(raw, end + 2, ParseTarget(line.value).value);
    }
  }

  lemma {:induction false} NeverMissing(raw: string, cursor: nat, request: HttpRequest)
    requires cursor <= |raw|
    ensures ParseHeaders(raw, cursor, request) != NoRequestLine
    decreases |raw| - cursor
  {
    hide TakeHeader, FindLineEnd;
    var end := FindLineEnd(raw, cursor);
    if cursor < |raw| && end < |raw| && end != cursor {
      var taken := TakeHeader(request, raw[cursor..end]);
      if taken.Some? { NeverMissing(raw, end + 2, taken.value); }
    }
  }

  // --- a request with two outcomes -------------------------------------------------------------

  const AMBIGUOUS_REQUEST :=
    "GET / HTTP/1.1" + "\r\n" + "Connection: close" + "\r\n" + "connection: keep-alive" + "\r\n" + "\r\n"

  lemma TwoHeaders(start: string, a: Header, b: Header)
    ensures Message(start, [a, b]) == start + "\r\n" + HeaderLine(a) + "\r\n" + HeaderLine(b) + "\r\n" + "\r\n"
  {
    hide HeaderLine;
    assert [a, b][1..] == [b] && [b][1..] == [];
    assert HeaderLines([b]) == HeaderLine(b) + "\r\n" + "";
    assert HeaderLines([a, b]) == HeaderLine(a) + "\r\n" + HeaderLines([b]);
  }

  lemma AmbiguousLines()
    ensures AMBIGUOUS_REQUEST ==
      Message(RequestLineOf("GET", "/"), [Header("Connection", "close"), Header("connection", "keep-alive")])
  {
    var (a, b) := (Header("Connection", "close"), Header("connection", "keep-alive"));
    TwoHeaders("GET / HTTP/1.1", a, b);
    hide Message, HeaderLines;
    assert HeaderLine(a) == "Connection: close" && HeaderLine(b) == "connection: keep-alive";
    assert RequestLineOf("GET", "/") == "GET / HTTP/1.1";
  }

  lemma AmbiguousHeaders()
    ensures CleanHeader(Header("Connection", "close")) && CleanHeader(Header("connection", "keep-alive"))
    ensures CleanTarget("GET", "/", None)
    ensures EqualsIgnoreCase("connection", "Connection") && EqualsIgnoreCase("close", "close")
    ensures !EqualsIgnoreCase("keep-alive", "close") && "connection" != "Connection"
  {
    assert "connection"[0] != "Connection"[0];
  }

  lemma EmplacedBoth(a: Header, b: Header)
    requires a.name != b.name
    ensures EmplaceAll(map[], [a, b]) == map[a.name := a.value, b.name := b.value]
  {
    var none: map<string, string> := map[];
    assert [a, b][1..] == [b] && [b][1..] == [];
    assert EmplaceAll(none, [a, b]) == EmplaceAll(none[a.name := a.value], [b]);
    assert EmplaceAll(none[a.name := a.value], [b]) == EmplaceAll(none[a.name := a.value][b.name := b.value], []);
  }

  // The server frames and accepts this request, and the order of a hash map decides whether
  // it keeps the connection.
  lemma AmbiguousRequest()
    ensures IsFrame(AMBIGUOUS_REQUEST)
    ensures var parsed := ParseRequest(AMBIGUOUS_REQUEST);
      && parsed.Accepted? && parsed.request.method_ == "GET" && parsed.request.path == "/"
      && MayClose(parsed.request.headers, true) && MayClose(parsed.request.headers, false)
  {
    var (a, b) := (Header("Connection", "close"), Header("connection", "keep-alive"));
    AmbiguousLines();
    AmbiguousHeaders();
    assert TargetOf("/", None) == "/" && Says(None, []);
    hide CleanHeader, CleanTarget, EqualsIgnoreCase, IsFrame, ParseRequest, Message, RequestLineOf, EmplaceAll, AMBIGUOUS_REQUEST,
      MayClose;
    RequestRoundTrip("GET", "/", None, [], [a, b]);
    var headers := EmplaceAll(map[], [a, b]);
    assert ParseRequest(AMBIGUOUS_REQUEST).request.headers == headers;
    EmplacedBoth(a, b);
    assert headers[a.name] == "close" && headers[b.name] == "keep-alive";
    EqualsItself("Connection");
    assert Disagree(headers, a.name, b.name);
    CloseIsDeterminedExactly(headers);
    assert MayClose(headers, true) && MayClose(headers, false);
    assert IsFrame(AMBIGUOUS_REQUEST);
  }
}
