// parseRequest of src/http/HttpRequest.cpp and its agreement with the framer.
module HttpRequests {
  import opened TcpProtocol
  import opened Framing
  import opened UrlCodec
  import Tokenizer

  datatype HttpRequest = HttpRequest(method_: string, path: string, queryParams: Params, headers: map<string, string>)

  // The source returns nothing for every rejection; here each keeps its reason, and success
  // keeps where the header loop stopped.
  datatype Parsed =
    | Accepted(request: HttpRequest, stoppedAt: nat)
    | NoRequestLine
    | BadRequestLine
    | BadQuery
    | BadHeader
    | HeaderWithoutLineEnd

  predicate LineEndAt(s: string, i: int) {
    0 <= i && i + 2 <= |s| && s[i] == '\r' && s[i + 1] == '\n'
  }

  // Index of the first "\r\n" at or after `from`, or the length.
  function FindLineEnd(s: string, from: nat): (i: nat)
    requires from <= |s|
    ensures from <= i <= |s| && (i < |s| ==> LineEndAt(s, i))
    ensures forall j :: from <= j < i ==> !LineEndAt(s, j)
    decreases |s| - from
  {
    if from == |s| || LineEndAt(s, from) then from else FindLineEnd(s, from + 1)
  }

  function SkipBlanks(line: string, from: nat): (i: nat)
    requires from <= |line|
    ensures from <= i <= |line|
    decreases |line| - from
  {
    if from < |line| && (line[from] == ' ' || line[from] == '\t') then SkipBlanks(line, from + 1) else from
  }

  function EmplaceHeader(headers: map<string, string>, key: string, value: string): map<string, string> {
    if key in headers then headers else headers[key := value]
  }

  // The request after one header line, or nothing if the line is malformed.
  function TakeHeader(request: HttpRequest, line: string): Option<HttpRequest> {
    var colon := Find(line, ':', 0);
    if colon == |line| || colon == 0 then None
    else
      Some(request.(headers := EmplaceHeader(request.headers, line[..colon], line[SkipBlanks(line, colon + 1)..])))
  }

  // The header loop from `cursor` on.
  function ParseHeaders(raw: string, cursor: nat, request: HttpRequest): Parsed
    requires cursor <= |raw|
    decreases |raw| - cursor
  {
    if cursor == |raw| then Accepted(request, cursor)
    else
      var end := FindLineEnd(raw, cursor);
      if end == |raw| then HeaderWithoutLineEnd
      else if end == cursor then Accepted(request, cursor)
      else
        var taken := TakeHeader(request, raw[cursor..end]);
        if taken == None then BadHeader else ParseHeaders(raw, end + 2, taken.value)
  }

  datatype RequestLine = RequestLine(method_: string, target: string)

  function SplitRequestLine(line: string): Option<RequestLine> {
    var first := Find(line, ' ', 0);
    if first == |line| then None
    else
      var second := Find(line, ' ', first + 1);
      if second == |line| then None else Some(RequestLine(line[..first], line[first + 1..second]))
  }

  function ParseTarget(line: RequestLine): Option<HttpRequest> {
    var question := Find(line.target, '?', 0);
    if question == |line.target| then Some(HttpRequest(line.method_, line.target, map[], map[]))
    else
      var params := ParseQuery(line.target[question + 1..], map[]);
      if params == None then None else Some(HttpRequest(line.method_, line.target[..question], params.value, map[]))
  }

  function ParseRequest(raw: string): Parsed {
    var lineEnd := FindLineEnd(raw, 0);
    if lineEnd == |raw| then NoRequestLine
    else
      var line := SplitRequestLine(raw[..lineEnd]);
      if line == None then BadRequestLine
      else
        var request := ParseTarget(line.value);
        if request == None then BadQuery else ParseHeaders(raw, lineEnd + 2, request.value)
  }

  // The loop that skips blanks in front of a header value.
  method ComputeSkipBlanks(line: string, from: nat) returns (valueStart: nat)
    requires from <= |line|
    ensures valueStart == SkipBlanks(line, from)
  {
    valueStart := from;
    while valueStart < |line| && (line[valueStart] == ' ' || line[valueStart] == '\t')
      invariant from <= valueStart <= |line| && SkipBlanks(line, from) == SkipBlanks(line, valueStart)
    {
      valueStart := valueStart + 1;
    }
  }

  method ComputeTakeHeader(request: HttpRequest, headerLine: string) returns (taken: Option<HttpRequest>)
    ensures taken == TakeHeader(request, headerLine)
  {
    hide SkipBlanks, EmplaceHeader;
    var colon := Find(headerLine, ':', 0);
    if colon == |headerLine| || colon == 0 {
      return None;
    }
    var valueStart := ComputeSkipBlanks(headerLine, colon + 1);
    return Some(request.(headers := EmplaceHeader(request.headers, headerLine[..colon], headerLine[valueStart..])));
  }

  method ComputeParseTarget(line: RequestLine) returns (request: Option<HttpRequest>)
    ensures request == ParseTarget(line)
  {
    hide ParseQuery;
    var target := line.target;
    var queryStart := Find(target, '?', 0);
    if queryStart == |target| {
      return Some(HttpRequest(line.method_, target, map[], map[]));
    }
    var params := ParseQueryString(target[queryStart + 1..]);
    if params == None {
      return None;
    }
    return Some(HttpRequest(line.method_, target[..queryStart], params.value, map[]));
  }

  method ComputeParseRequest(raw: string) returns (parsed: Parsed)
    ensures parsed == ParseRequest(raw)
  {
    hide SplitRequestLine, ParseTarget, TakeHeader, FindLineEnd;
    var lineEnd := FindLineEnd(raw, 0);
    if lineEnd == |raw| {
      return NoRequestLine;
    }
    var line := SplitRequestLine(raw[..lineEnd]);
    if line == None {
      return BadRequestLine;
    }
    var started := ComputeParseTarget(line.value);
    if started == None {
      return BadQuery;
    }
    var request := started.value;
    var cursor := lineEnd + 2;
    while cursor < |raw|
      invariant cursor <= |raw| && ParseRequest(raw) == ParseHeaders(raw, cursor, request)
    {
      var headerEnd := FindLineEnd(raw, cursor);
      if headerEnd == |raw| {
        return HeaderWithoutLineEnd;
      }
      var headerLine := raw[cursor..headerEnd];
      if headerLine == "" {
        break;
      }
      var taken := ComputeTakeHeader(request, headerLine);
      if taken == None {
        return BadHeader;
      }
      request := taken.value;
      cursor := headerEnd + 2;
    }
    return Accepted(request, cursor);
  }

  // --- lines ---------------------------------------------------------------------------------

  // A header line is refused exactly when it has no name before a ':'.
  lemma HeaderRefused(request: HttpRequest, line: string)
    ensures TakeHeader(request, line) == None <==> ':' !in line || line[0] == ':'
  {
    var colon := Find(line, ':', 0);
    if colon == |line| {
      assert ':' !in line;
    }
  }

  predicate AllBlank(s: string) {
    forall i :: 0 <= i < |s| ==> s[i] == ' ' || s[i] == '\t'
  }

  lemma {:induction false} BlanksSkipped(line: string, from: nat, end: nat)
    requires from <= end <= |line| && AllBlank(line[from..end]) && (end < |line| ==> line[end] != ' ' && line[end] != '\t')
    ensures SkipBlanks(line, from) == end
    decreases end - from
  {
    if from < end {
      assert line[from] == line[from..end][0] && line[from..end][1..] == line[from + 1..end];
      BlanksSkipped(line, from + 1, end);
    }
  }

  // Any number of blanks may stand before the value; the first header of a name counts.
  lemma HeaderTaken(request: HttpRequest, name: string, blanks: string, value: string)
    requires name != "" && ':' !in name && AllBlank(blanks) && (value != "" ==> !AllBlank(value[..1]))
    ensures TakeHeader(request, name + ":" + blanks + value) ==
      Some(request.(headers := if name in request.headers then request.headers else request.headers[name := value]))
  {
    var line := name + ":" + blanks + value;
    FindUnique(line, ':', 0, |name|);
    assert line[..|name|] == name;
    var start := |name| + 1 + |blanks|;
    assert line[|name| + 1..start] == blanks && line[start..] == value;
    assert value != "" ==> line[start] == value[..1][0];
    BlanksSkipped(line, |name| + 1, start);
    hide SkipBlanks, Find;
  }

  // A request line is refused exactly when it has fewer than two spaces.
  lemma RequestLineRefused(line: string)
    ensures SplitRequestLine(line) == None <==> !exists i, j :: 0 <= i < j < |line| && line[i] == line[j] == ' '
  {
    var first := Find(line, ' ', 0);
    if first < |line| {
      var second := Find(line, ' ', first + 1);
    }
  }

  // --- framer and parser ---------------------------------------------------------------------

  // In a frame a line end always follows, and two of them stand back to back only at the
  // very end.
  lemma LineOfFrame(raw: string, cursor: nat)
    requires IsFrame(raw) && 2 <= cursor <= |raw| - 2 && LineEndAt(raw, cursor - 2)
    ensures var end := FindLineEnd(raw, cursor);
      && end <= |raw| - 2 && LineEndAt(raw, end)
      && (if end == cursor then cursor == |raw| - 2 else end <= |raw| - 4)
  {
    hide FindLineEnd;
    assert TerminatorAt(raw, |raw| - 4) && LineEndAt(raw, |raw| - 2) && LineEndAt(raw, |raw| - 4);
    var end := FindLineEnd(raw, cursor);
    assert end <= |raw| - 2;
    if end == cursor {
      assert TerminatorAt(raw, cursor - 2);
    } else {
      assert cursor != |raw| - 3;
    }
  }

  lemma FirstLineOfFrame(raw: string)
    requires IsFrame(raw)
    ensures FindLineEnd(raw, 0) <= |raw| - 4 && LineEndAt(raw, FindLineEnd(raw, 0))
  {
    assert TerminatorAt(raw, |raw| - 4) && LineEndAt(raw, |raw| - 4);
  }

  // What the header loop makes of a frame.
  predicate SaysSomething(raw: string, parsed: Parsed) {
    parsed.BadHeader? || (parsed.Accepted? && parsed.stoppedAt == |raw| - 2)
  }

  // One turn of the header loop.
  lemma HeaderTurn(raw: string, cursor: nat, request: HttpRequest, end: nat)
    requires cursor < |raw| && end == FindLineEnd(raw, cursor) < |raw|
    ensures end == cursor ==> ParseHeaders(raw, cursor, request) == Accepted(request, cursor)
    ensures end != cursor && TakeHeader(request, raw[cursor..end]) == None ==> ParseHeaders(raw, cursor, request) == BadHeader
    ensures end != cursor && TakeHeader(request, raw[cursor..end]).Some? ==>
      ParseHeaders(raw, cursor, request) == ParseHeaders(raw, end + 2, TakeHeader(request, raw[cursor..end]).value)
  {
    hide FindLineEnd, TakeHeader;
  }

  lemma {:induction false} HeadersOfFrame(raw: string, cursor: nat, request: HttpRequest)
    requires IsFrame(raw) && 2 <= cursor <= |raw| - 2 && LineEndAt(raw, cursor - 2)
    ensures SaysSomething(raw, ParseHeaders(raw, cursor, request))
    decreases |raw| - cursor
  {
    hide FindLineEnd, TakeHeader, ParseHeaders, IsFrame, LineEndAt;
    LineOfFrame(raw, cursor);
    var end := FindLineEnd(raw, cursor);
    HeaderTurn(raw, cursor, request, end);
    if end != cursor {
      var taken := TakeHeader(request, raw[cursor..end]);
      if taken.Some? {
        HeadersOfFrame(raw, end + 2, taken.value);
      }
    }
  }

  lemma SaysSomethingMeans(raw: string, parsed: Parsed)
    requires SaysSomething(raw, parsed)
    ensures parsed.BadHeader? || (parsed.Accepted? && parsed.stoppedAt == |raw| - 2)
  {
  }

  // The request line.
  lemma RequestTurn(raw: string, lineEnd: nat)
    requires lineEnd == FindLineEnd(raw, 0) < |raw|
    ensures var line := SplitRequestLine(raw[..lineEnd]);
      if line.Some? && ParseTarget(line.value).Some? then
        ParseRequest(raw) == ParseHeaders(raw, lineEnd + 2, ParseTarget(line.value).value)
      else ParseRequest(raw).BadRequestLine? || ParseRequest(raw).BadQuery?
  {
    hide FindLineEnd, SplitRequestLine, ParseTarget, ParseHeaders;
  }

  // On everything the connection frames, the parser either rejects what the request says or
  // stops exactly at the blank line; it never runs out of line ends, so no rejection is the
  // framer's fault.
  lemma FramerAndParserAgree(raw: string)
    requires IsFrame(raw)
    ensures ParseRequest(raw) != NoRequestLine && ParseRequest(raw) != HeaderWithoutLineEnd
    ensures ParseRequest(raw).Accepted? ==> ParseRequest(raw).stoppedAt == |raw| - 2
  {
    hide *;
    FirstLineOfFrame(raw);
    var lineEnd := FindLineEnd(raw, 0);
    RequestTurn(raw, lineEnd);
    var line := SplitRequestLine(raw[..lineEnd]);
    if line.Some? && ParseTarget(line.value).Some? {
      HeadersOfFrame(raw, lineEnd + 2, ParseTarget(line.value).value);
      SaysSomethingMeans(raw, ParseRequest(raw));
    }
  }

  // A client's query reaches the handler: the parameters of an accepted request line are the
  // pairs that were encoded into it.
  lemma QueryReachesHandler(method_: string, path: string, items: seq<string>, pairs: seq<Pair>)
    requires EncodesPairs(items, pairs) && '?' !in path
    ensures ParseTarget(RequestLine(method_, path + "?" + Join(items))) ==
      Some(HttpRequest(method_, path, FirstWins(map[], pairs), map[]))
  {
    var target := path + "?" + Join(items);
    FindUnique(target, '?', 0, |path|);
    assert target[..|path|] == path && target[|path| + 1..] == Join(items);
    QueryRoundTrip(items, pairs, map[]);
  }

  // --- header lookup -------------------------------------------------------------------------

  function ToLowerAscii(c: char): char {
    if 'A' <= c <= 'Z' then ((c as int) + 32) as char else c
  }

  predicate EqualsIgnoreCase(left: string, right: string) {
    |left| == |right| && forall i :: 0 <= i < |left| ==> ToLowerAscii(left[i]) == ToLowerAscii(right[i])
  }

  // findHeader walks a hash map: with several spellings of one name any of them may win.
  ghost predicate MayFindHeader(headers: map<string, string>, name: string, found: Option<string>) {
    match found
    case None => forall key <- headers :: !EqualsIgnoreCase(key, name)
    case Some(value) => exists key <- headers :: EqualsIgnoreCase(key, name) && headers[key] == value
  }

  method FindHeader(headers: map<string, string>, name: string) returns (found: Option<string>)
    ensures MayFindHeader(headers, name, found)
  {
    var left := headers.Keys;
    while left != {}
      invariant left <= headers.Keys
      invariant forall key <- headers :: key !in left ==> !EqualsIgnoreCase(key, name)
      decreases left
    {
      var key :| key in left;
      if EqualsIgnoreCase(key, name) {
        return Some(headers[key]);
      }
      left := left - {key};
    }
    return None;
  }

  // The keep-alive decision depends on the hash order exactly when two spellings of the name
  // disagree about it.
  ghost predicate MayClose(headers: map<string, string>, close: bool) {
    exists found :: MayFindHeader(headers, "Connection", found)
      && close == (found.Some? && EqualsIgnoreCase(found.value, "close"))
  }

  method ShouldCloseConnection(headers: map<string, string>) returns (close: bool)
    ensures MayClose(headers, close)
  {
    var connection := FindHeader(headers, "Connection");
    close := connection.Some? && EqualsIgnoreCase(connection.value, "close");
    assert MayFindHeader(headers, "Connection", connection);
  }

  predicate Disagree(headers: map<string, string>, a: string, b: string)
    requires a in headers && b in headers
  {
    && EqualsIgnoreCase(a, "Connection") && EqualsIgnoreCase(b, "Connection")
    && EqualsIgnoreCase(headers[a], "close") && !EqualsIgnoreCase(headers[b], "close")
  }

  lemma CloseIsDeterminedExactly(headers: map<string, string>)
    ensures (MayClose(headers, true) && MayClose(headers, false)) <==>
      exists a, b :: a in headers && b in headers && Disagree(headers, a, b)
  {
    hide EqualsIgnoreCase;
    if MayClose(headers, true) && MayClose(headers, false) {
      var f :| MayFindHeader(headers, "Connection", f) && f.Some? && EqualsIgnoreCase(f.value, "close");
      var g :| MayFindHeader(headers, "Connection", g) && !(g.Some? && EqualsIgnoreCase(g.value, "close"));
      var a :| a in headers && EqualsIgnoreCase(a, "Connection") && headers[a] == f.value;
      assert g.Some?;
      var b :| b in headers && EqualsIgnoreCase(b, "Connection") && headers[b] == g.value;
    }
    if a, b :| a in headers && b in headers && Disagree(headers, a, b) {
      assert MayFindHeader(headers, "Connection", Some(headers[a]));
      assert MayFindHeader(headers, "Connection", Some(headers[b]));
    }
  }

  lemma EqualsItself(name: string)
    ensures EqualsIgnoreCase(name, name)
  {
  }

  // A request with at most one spelling of the name has one outcome.
  lemma OneSpellingOneOutcome(headers: map<string, string>)
    requires forall a, b :: a in headers && b in headers ==>
      EqualsIgnoreCase(a, "Connection") && EqualsIgnoreCase(b, "Connection") ==> a == b
    ensures MayClose(headers, true) != MayClose(headers, false)
  {
    CloseIsDeterminedExactly(headers);
    var close := SomeOutcome(headers);
    hide MayClose, EqualsIgnoreCase;
  }

  lemma SomeOutcome(headers: map<string, string>) returns (close: bool)
    ensures MayClose(headers, close)
  {
    hide EqualsIgnoreCase;
    if key :| key in headers && EqualsIgnoreCase(key, "Connection") {
      assert MayFindHeader(headers, "Connection", Some(headers[key]));
      close := EqualsIgnoreCase(headers[key], "close");
    } else {
      assert MayFindHeader(headers, "Connection", None);
      close := false;
    }
  }

  lemma EqualLower(a: string, b: string)
    ensures EqualsIgnoreCase(a, b) <==> Tokenizer.Lower(a) == Tokenizer.Lower(b)
  {
    if Tokenizer.Lower(a) == Tokenizer.Lower(b) {
      forall i | 0 <= i < |a| ensures ToLowerAscii(a[i]) == ToLowerAscii(b[i]) {
        assert Tokenizer.Lower(a)[i] == Tokenizer.Lower(b)[i];
      }
    }
  }

  lemma LowerNames()
    ensures Tokenizer.Lower("Connection") == "connection" && Tokenizer.Lower("close") == "close"
  {
  }

  predicate IsConnection(name: string) {
    Tokenizer.Lower(name) == "connection"
  }

  predicate IsClose(value: string) {
    Tokenizer.Lower(value) == "close"
  }

  // The connection may be closed exactly when a header of that name asks for it, and kept
  // exactly when such a header does not, or there is none.
  lemma CloseMeaning(headers: map<string, string>)
    ensures MayClose(headers, true) <==> exists name <- headers :: IsConnection(name) && IsClose(headers[name])
    ensures MayClose(headers, false) <==>
      || (exists name <- headers :: IsConnection(name) && !IsClose(headers[name]))
      || (forall name <- headers :: !IsConnection(name))
  {
    LowerNames();
    forall name ensures EqualsIgnoreCase(name, "Connection") == IsConnection(name) {
      EqualLower(name, "Connection");
    }
    forall value ensures EqualsIgnoreCase(value, "close") == IsClose(value) {
      EqualLower(value, "close");
    }
    hide EqualsIgnoreCase, IsConnection, IsClose;
    if name :| name in headers && IsConnection(name) && IsClose(headers[name]) {
      assert MayFindHeader(headers, "Connection", Some(headers[name]));
    }
    if name :| name in headers && IsConnection(name) && !IsClose(headers[name]) {
      assert MayFindHeader(headers, "Connection", Some(headers[name]));
    }
    if forall name <- headers :: !IsConnection(name) {
      assert MayFindHeader(headers, "Connection", None);
    }
  }
}
