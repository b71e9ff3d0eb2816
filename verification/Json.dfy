// The JSON printer of src/search/SearchApplication.cpp against a reader of JSON strings as
// section 7 of RFC 8259 defines them. A char stands for a byte.
module Json {
  import opened TcpProtocol
  import opened UrlCodec
  import opened InvertedIndexes
  import opened SearchServices

  const BACKSPACE := 8 as char
  const FORM_FEED := 12 as char

  function HexDigit(v: nat): char
    requires v < 16
  {
    "0123456789abcdef"[v]
  }

  function EscapeChar(c: char): string {
    if c == '"' then "\\\""
    else if c == '\\' then "\\\\"
    else if c == BACKSPACE then "\\b"
    else if c == FORM_FEED then "\\f"
    else if c == '\n' then "\\n"
    else if c == '\r' then "\\r"
    else if c == '\t' then "\\t"
    else if c as int < 0x20 then ['\\', 'u', '0', '0', HexDigit(c as int / 16), HexDigit(c as int % 16)]
    else [c]
  }

  function EscapeJson(value: string): string {
    if value == "" then "" else EscapeChar(value[0]) + EscapeJson(value[1..])
  }

  lemma {:induction false} EscapeSnoc(value: string, c: char)
    ensures EscapeJson(value + [c]) == EscapeJson(value) + EscapeChar(c)
  {
    if value == "" {
      assert value + [c] == [c] && [c][1..] == "";
    } else {
      assert (value + [c])[1..] == value[1..] + [c];
      EscapeSnoc(value[1..], c);
    }
  }

  method ComputeEscapeJson(value: string) returns (escaped: string)
    ensures escaped == EscapeJson(value)
  {
    hide EscapeChar;
    escaped := "";
    for i := 0 to |value|
      invariant escaped == EscapeJson(value[..i])
    {
      EscapeSnoc(value[..i], value[i]);
      assert value[..i + 1] == value[..i] + [value[i]];
      escaped := escaped + EscapeChar(value[i]);
    }
    assert value[..|value|] == value;
  }

  // --- reading -------------------------------------------------------------------------------

  datatype Literal = Literal(value: string, rest: string)

  function Escaped(c: char): Option<char> {
    match c
    case '"' => Some('"')
    case '\\' => Some('\\')
    case '/' => Some('/')
    case 'b' => Some(BACKSPACE)
    case 'f' => Some(FORM_FEED)
    case 'n' => Some('\n')
    case 'r' => Some('\r')
    case 't' => Some('\t')
    case _ => None
  }

  function CodeUnit(s: string): Option<char>
    requires |s| >= 6
  {
    var (a, b, c, d) := (HexValue(s[2]), HexValue(s[3]), HexValue(s[4]), HexValue(s[5]));
    if a < 0 || b < 0 || c < 0 || d < 0 then None
    else
      var v := ((a * 16 + b) * 16 + c) * 16 + d;
      if v < 0xD800 || 0xE000 <= v then Some(v as char) else None
  }

  function Prepend(c: char, r: Option<Literal>): Option<Literal> {
    if r == None then None else Some(Literal([c] + r.value.value, r.value.rest))
  }

  // Read a string literal from just behind its opening quote.
  function ReadString(s: string): Option<Literal>
    decreases |s|
  {
    if s == "" then None
    else if s[0] == '"' then Some(Literal("", s[1..]))
    else if s[0] as int < 0x20 then None
    else if s[0] != '\\' then Prepend(s[0], ReadString(s[1..]))
    else if |s| < 2 then None
    else if s[1] == 'u' then
      if |s| < 6 || CodeUnit(s) == None then None else Prepend(CodeUnit(s).value, ReadString(s[6..]))
    else if Escaped(s[1]) == None then None
    else Prepend(Escaped(s[1]).value, ReadString(s[2..]))
  }

  // One turn of the reader.
  lemma ReadTurn(s: string)
    requires s != "" && s[0] as int >= 0x20 && s[0] != '"'
    ensures s[0] != '\\' ==> ReadString(s) == Prepend(s[0], ReadString(s[1..]))
    ensures |s| >= 2 && s[0] == '\\' && s[1] != 'u' && Escaped(s[1]).Some? ==>
      ReadString(s) == Prepend(Escaped(s[1]).value, ReadString(s[2..]))
    ensures |s| >= 6 && s[0] == '\\' && s[1] == 'u' && CodeUnit(s).Some? ==>
      ReadString(s) == Prepend(CodeUnit(s).value, ReadString(s[6..]))
  {
  }

  lemma ReadEscapedChar(c: char, rest: string)
    ensures ReadString(EscapeChar(c) + rest) == Prepend(c, ReadString(rest))
  {
    var s := EscapeChar(c) + rest;
    hide ReadString;
    ReadTurn(s);
    hide Prepend;
    if |EscapeChar(c)| == 2 {
      assert s[2..] == rest;
    } else if |EscapeChar(c)| == 6 {
      assert s[6..] == rest;
      HexDigitValue(c as int / 16);
      HexDigitValue(c as int % 16);
      assert s[4] == HexDigit(c as int / 16) && s[5] == HexDigit(c as int % 16);
      assert CodeUnit(s) == Some(c);
    } else {
      assert s[1..] == rest;
    }
  }

  lemma HexDigitValue(v: nat)
    requires v < 16
    ensures HexValue(HexDigit(v)) == v
  {
  }

  // A printed literal reads back as the value, and ends exactly at its own closing quote.
  lemma {:induction false} EscapeRoundTrip(value: string, rest: string)
    ensures ReadString(EscapeJson(value) + "\"" + rest) == Some(Literal(value, rest))
  {
    hide EscapeChar, ReadString;
    var s := EscapeJson(value) + "\"" + rest;
    if value == "" {
      assert s == "\"" + rest;
      ReadQuote(rest);
    } else {
      var tail := EscapeJson(value[1..]) + "\"" + rest;
      assert s == EscapeChar(value[0]) + tail;
      EscapeRoundTrip(value[1..], rest);
      ReadEscapedChar(value[0], tail);
      assert [value[0]] + value[1..] == value;
    }
  }

  lemma ReadQuote(rest: string)
    ensures ReadString("\"" + rest) == Some(Literal("", rest))
  {
    assert ("\"" + rest)[1..] == rest;
  }

  // Nothing below 0x20 is printed inside a literal.
  lemma {:induction false} EscapedIsPrintable(value: string)
    ensures forall c <- EscapeJson(value) :: c as int >= 0x20
  {
    if value != "" {
      EscapedIsPrintable(value[1..]);
      forall c | c in EscapeChar(value[0]) ensures c as int >= 0x20 {
      }
    }
  }

  // Nor is a bare quote: a reader that is given only what stands between the quotes finds no
  // end of the literal.
  lemma {:induction false} EscapedHasNoBareQuote(value: string)
    ensures ReadString(EscapeJson(value)) == None
  {
    hide EscapeChar, ReadString;
    if value == "" {
      NothingToRead();
    } else {
      EscapedHasNoBareQuote(value[1..]);
      ReadEscapedChar(value[0], EscapeJson(value[1..]));
    }
  }

  lemma NothingToRead()
    ensures ReadString("") == None
  {
  }

  // --- the document ---------------------------------------------------------------------------

  const MAX_SNIPPET_LENGTH := 240

  function MakeSnippet(text: string): string {
    if |text| <= MAX_SNIPPET_LENGTH then text else text[..MAX_SNIPPET_LENGTH] + "..."
  }

  function Decimal(n: nat): string {
    if n < 10 then [HexDigit(n)] else Decimal(n / 10) + [HexDigit(n % 10)]
  }

  // `score` prints a number; it is any function whose output has no quote in it.
  type ScoreText = real -> string

  datatype Field = Text(name: string, value: string) | Number(name: string, digits: string)

  function PrintField(f: Field): string {
    match f
    case Text(name, value) => "\"" + name + "\":\"" + EscapeJson(value) + "\""
    case Number(name, digits) => "\"" + name + "\":" + digits
  }

  function PrintFields(fields: seq<Field>): string {
    if fields == [] then ""
    else if |fields| == 1 then PrintField(fields[0])
    else PrintField(fields[0]) + "," + PrintFields(fields[1..])
  }

  function FieldsOf(r: SearchResult, score: ScoreText): seq<Field> {
    [Number("chunk_id", Decimal(r.chunk.id)),
     Text("title", r.chunk.title),
     Text("category", r.chunk.category),
     Text("source_path", r.chunk.sourcePath),
     Text("heading_path", r.chunk.headingPath),
     Text("snippet", MakeSnippet(r.chunk.rawText)),
     Number("matched_terms", Decimal(r.matchedTerms)),
     Number("score", score(r.score))]
  }

  function ResultJson(r: SearchResult, score: ScoreText): string {
    "{" + PrintFields(FieldsOf(r, score)) + "}"
  }

  function ResultsJson(results: seq<SearchResult>, score: ScoreText): string {
    if results == [] then ""
    else
      var (before, last) := (results[..|results| - 1], results[|results| - 1]);
      ResultsJson(before, score) + (if before == [] then "" else ",") + ResultJson(last, score)
  }

  function ToJson(query: string, results: seq<SearchResult>, score: ScoreText): string {
    "{" + PrintField(Text("query", query)) + "," + PrintField(Number("results", "[")) + ResultsJson(results, score) + "]}\n"
  }

  method ComputeToJson(query: string, results: seq<SearchResult>, score: ScoreText) returns (output: string)
    ensures output == ToJson(query, results, score)
  {
    hide EscapeJson, ResultJson;
    var escapedQuery := ComputeEscapeJson(query);
    var list := "";
    for index := 0 to |results|
      invariant list == ResultsJson(results[..index], score)
    {
      assert results[..index + 1][..index] == results[..index];
      if index != 0 {
        list := list + ",";
      }
      list := list + ResultJson(results[index], score);
    }
    assert results[..|results|] == results;
    output := "{" + ("\"query\":\"" + escapedQuery + "\"") + "," + "\"results\":[" + list + "]}\n";
    PrintedHead(query);
  }

  lemma PrintedHead(query: string)
    ensures PrintField(Text("query", query)) == "\"query\":\"" + EscapeJson(query) + "\""
    ensures PrintField(Number("results", "[")) == "\"results\":["
  {
    assert "\"" + "query" + "\":\"" == "\"query\":\"";
    assert "\"" + "results" + "\":" + "[" == "\"results\":[";
  }

  // --- reading a document ----------------------------------------------------------------------

  datatype Token = Str(value: string) | Num(text: string)

  predicate IsPunctuation(c: char) {
    c == '{' || c == '}' || c == '[' || c == ']' || c == ':' || c == ',' || c == '\n'
  }

  // A number starts neither a literal nor anything structural, and goes on until something does.
  function NumberLength(s: string): (n: nat)
    ensures n <= |s| && (forall i :: 0 <= i < n ==> s[i] != '"' && !IsPunctuation(s[i]))
    ensures n < |s| ==> s[n] == '"' || IsPunctuation(s[n])
  {
    if s == "" || s[0] == '"' || IsPunctuation(s[0]) then 0 else 1 + NumberLength(s[1..])
  }

  // All literals and numbers of a document, in order.
  function Scan(s: string): Option<seq<Token>>
    decreases |s|
  {
    if s == "" then Some([])
    else if s[0] == '"' then
      var literal := ReadString(s[1..]);
      if literal == None || |literal.value.rest| >= |s| then None
      else More([Str(literal.value.value)], Scan(literal.value.rest))
    else if IsPunctuation(s[0]) then Scan(s[1..])
    else More([Num(s[..NumberLength(s)])], Scan(s[NumberLength(s)..]))
  }

  function More(values: seq<Token>, rest: Option<seq<Token>>): Option<seq<Token>> {
    if rest == None then None else Some(values + rest.value)
  }

  predicate AllPunctuation(s: string) {
    forall i :: 0 <= i < |s| ==> IsPunctuation(s[i])
  }

  predicate IsNumber(s: string) {
    s != "" && forall i :: 0 <= i < |s| ==> s[i] != '"' && !IsPunctuation(s[i])
  }

  predicate StartsPunctuated(s: string) {
    s != "" && IsPunctuation(s[0])
  }

  lemma {:induction false} SkipPlain(plain: string, rest: string)
    requires AllPunctuation(plain)
    ensures Scan(plain + rest) == Scan(rest)
  {
    if plain == "" {
      assert plain + rest == rest;
    } else {
      assert (plain + rest)[1..] == plain[1..] + rest;
      SkipPlain(plain[1..], rest);
    }
  }

  lemma TakeNumber(digits: string, rest: string)
    requires IsNumber(digits) && StartsPunctuated(rest)
    ensures Scan(digits + rest) == More([Num(digits)], Scan(rest))
  {
    var s := digits + rest;
    assert NumberLength(s) == |digits| by {
      assert s[|digits|] == rest[0];
      assert forall i :: 0 <= i < |digits| ==> s[i] == digits[i];
      hide NumberLength;
    }
    assert s[..|digits|] == digits && s[|digits|..] == rest;
    hide NumberLength;
  }

  function Quoted(value: string): string {
    "\"" + EscapeJson(value) + "\""
  }

  // One literal of a document.
  lemma ScanTurn(s: string, value: string, rest: string)
    requires ReadString(s) == Some(Literal(value, rest)) && |rest| <= |s|
    ensures Scan("\"" + s) == More([Str(value)], Scan(rest))
  {
    hide ReadString;
    assert ("\"" + s)[1..] == s;
  }

  lemma TakeLiteral(value: string, rest: string)
    ensures Scan(Quoted(value) + rest) == More([Str(value)], Scan(rest))
  {
    hide EscapeJson, ReadString, Scan, More;
    var s := EscapeJson(value) + "\"" + rest;
    EscapeRoundTrip(value, rest);
    ScanTurn(s, value, rest);
    assert Quoted(value) + rest == "\"" + s;
  }

  predicate PlainName(name: string) {
    forall i :: 0 <= i < |name| ==> 'a' <= name[i] <= 'z' || name[i] == '_'
  }

  lemma {:induction false} NameEscapesToItself(name: string)
    requires PlainName(name)
    ensures EscapeJson(name) == name
  {
    if name != "" {
      NameEscapesToItself(name[1..]);
      assert [name[0]] + name[1..] == name;
    }
  }

  function ValueOf(f: Field): Token {
    if f.Text? then Str(f.value) else Num(f.digits)
  }

  function TokensOfField(f: Field): seq<Token> {
    [Str(f.name), ValueOf(f)]
  }

  ghost predicate Readable(f: Field) {
    PlainName(f.name) && (f.Number? ==> IsNumber(f.digits))
  }

  lemma MoreMore(a: seq<Token>, b: seq<Token>, rest: Option<seq<Token>>)
    ensures More(a, More(b, rest)) == More(a + b, rest)
  {
    if rest.Some? { assert a + (b + rest.value) == a + b + rest.value; }
  }

  lemma PrintedText(name: string, value: string, rest: string)
    requires EscapeJson(name) == name
    ensures PrintField(Text(name, value)) + rest == Quoted(name) + (":" + (Quoted(value) + rest))
  {
    hide EscapeJson;
    assert "\":\"" == "\"" + ":" + "\"";
  }

  lemma PrintedNumber(name: string, digits: string, rest: string)
    requires EscapeJson(name) == name
    ensures PrintField(Number(name, digits)) + rest == Quoted(name) + (":" + (digits + rest))
  {
    hide EscapeJson;
    assert "\":" == "\"" + ":";
  }

  lemma ReadField(f: Field, rest: string)
    requires Readable(f) && StartsPunctuated(rest)
    ensures Scan(PrintField(f) + rest) == More(TokensOfField(f), Scan(rest))
  {
    assert AllPunctuation(":");
    hide Scan, More, EscapeJson, PlainName, Quoted, PrintField, AllPunctuation, IsNumber, StartsPunctuated;
    NameEscapesToItself(f.name);
    match f
    case Text(name, value) =>
      var tail := Quoted(value) + rest;
      PrintedText(name, value, rest);
      TakeLiteral(name, ":" + tail);
      SkipPlain(":", tail);
      TakeLiteral(value, rest);
      MoreMore([Str(name)], [Str(value)], Scan(rest));
      assert [Str(name)] + [Str(value)] == TokensOfField(f);
    case Number(name, digits) =>
      PrintedNumber(name, digits, rest);
      TakeLiteral(name, ":" + (digits + rest));
      SkipPlain(":", digits + rest);
      TakeNumber(digits, rest);
      MoreMore([Str(name)], [Num(digits)], Scan(rest));
      assert [Str(name)] + [Num(digits)] == TokensOfField(f);
  }

  function TokensOfFields(fields: seq<Field>): seq<Token> {
    if fields == [] then [] else TokensOfField(fields[0]) + TokensOfFields(fields[1..])
  }

  lemma NoTokens(rest: Option<seq<Token>>)
    ensures More([], rest) == rest
  {
    if rest.Some? { assert [] + rest.value == rest.value; }
  }

  lemma Commas(rest: string)
    ensures AllPunctuation(",") && StartsPunctuated("," + rest) && AllPunctuation("{") && AllPunctuation("}")
    ensures StartsPunctuated("}" + rest) && AllPunctuation(":[") && AllPunctuation("") && AllPunctuation("]}\n")
  {
  }

  lemma {:induction false} ReadFields(fields: seq<Field>, rest: string)
    requires StartsPunctuated(rest) && forall f <- fields :: Readable(f)
    ensures Scan(PrintFields(fields) + rest) == More(TokensOfFields(fields), Scan(rest))
    decreases |fields|
  {
    hide Scan, More, PrintField, TokensOfField, Readable, StartsPunctuated, AllPunctuation;
    if fields == [] {
      assert "" + rest == rest;
      NoTokens(Scan(rest));
    } else {
      var (f, tail) := (fields[0], fields[1..]);
      ReadFields(tail, rest);
      if tail == [] {
        ReadField(f, rest);
        assert PrintFields(tail) + rest == rest;
        assert TokensOfField(f) + [] == TokensOfField(f);
      } else {
        var more := PrintFields(tail) + rest;
        assert PrintFields(fields) + rest == PrintField(f) + ("," + more);
        Commas(more);
        ReadField(f, "," + more);
        SkipPlain(",", more);
        MoreMore(TokensOfField(f), TokensOfFields(tail), Scan(rest));
      }
    }
  }

  lemma {:induction false} DecimalIsNumber(n: nat)
    ensures IsNumber(Decimal(n))
  {
    if n >= 10 {
      DecimalIsNumber(n / 10);
    }
  }

  // What the digits of a number say.
  function ReadDecimal(s: string): Option<nat> {
    if s == "" || !('0' <= s[|s| - 1] <= '9') then None
    else
      var digit := s[|s| - 1] as int - '0' as int;
      if |s| == 1 then Some(digit)
      else
        var front := ReadDecimal(s[..|s| - 1]);
        if front == None then None else Some(front.value * 10 + digit)
  }

  lemma {:induction false} DecimalRoundTrip(n: nat)
    ensures ReadDecimal(Decimal(n)) == Some(n)
  {
    if n >= 10 {
      DecimalRoundTrip(n / 10);
      assert Decimal(n)[..|Decimal(n)| - 1] == Decimal(n / 10);
    }
  }

  ghost predicate Plain(score: ScoreText) {
    forall x :: IsNumber(score(x))
  }

  // What a result is to a reader, field by field; of its text the first 240 bytes.
  function TokensOfResult(r: SearchResult, score: ScoreText): seq<Token> {
    [Str("chunk_id"), Num(Decimal(r.chunk.id)), Str("title"), Str(r.chunk.title), Str("category"), Str(r.chunk.category),
     Str("source_path"), Str(r.chunk.sourcePath), Str("heading_path"), Str(r.chunk.headingPath),
     Str("snippet"), Str(if |r.chunk.rawText| <= 240 then r.chunk.rawText else r.chunk.rawText[..240] + "..."),
     Str("matched_terms"), Num(Decimal(r.matchedTerms)), Str("score"), Num(score(r.score))]
  }

  lemma TokensFront(f: Field, rest: seq<Field>)
    ensures TokensOfFields([f] + rest) == TokensOfField(f) + TokensOfFields(rest)
  {
    assert ([f] + rest)[1..] == rest;
  }

  lemma FourFields(a: Field, b: Field, c: Field, d: Field, rest: seq<Field>)
    ensures TokensOfFields([a, b, c, d] + rest) ==
      [Str(a.name), ValueOf(a), Str(b.name), ValueOf(b), Str(c.name), ValueOf(c), Str(d.name), ValueOf(d)] + TokensOfFields(rest)
  {
    hide TokensOfFields, ValueOf;
    TokensFront(a, [b, c, d] + rest);
    TokensFront(b, [c, d] + rest);
    TokensFront(c, [d] + rest);
    TokensFront(d, rest);
    assert [a] + ([b, c, d] + rest) == [a, b, c, d] + rest && [b] + ([c, d] + rest) == [b, c, d] + rest;
    assert [c] + ([d] + rest) == [c, d] + rest;
  }

  lemma EightFields(f: seq<Field>)
    requires |f| == 8
    ensures TokensOfFields(f) ==
      [Str(f[0].name), ValueOf(f[0]), Str(f[1].name), ValueOf(f[1]), Str(f[2].name), ValueOf(f[2]), Str(f[3].name), ValueOf(f[3]),
       Str(f[4].name), ValueOf(f[4]), Str(f[5].name), ValueOf(f[5]), Str(f[6].name), ValueOf(f[6]), Str(f[7].name), ValueOf(f[7])]
  {
    hide TokensOfFields, ValueOf;
    assert f == [f[0], f[1], f[2], f[3]] + ([f[4], f[5], f[6], f[7]] + []);
    FourFields(f[0], f[1], f[2], f[3], [f[4], f[5], f[6], f[7]] + []);
    FourFields(f[4], f[5], f[6], f[7], []);
    NoFields();
  }

  lemma Snippet(text: string)
    ensures MakeSnippet(text) == if |text| <= 240 then text else text[..240] + "..."
  {
  }

  lemma FieldTokens(r: SearchResult, score: ScoreText)
    ensures TokensOfFields(FieldsOf(r, score)) == TokensOfResult(r, score)
  {
    Snippet(r.chunk.rawText);
    hide MakeSnippet, Decimal, TokensOfFields;
    EightFields(FieldsOf(r, score));
  }

  lemma NoFields()
    ensures TokensOfFields([]) == []
  {
  }

  lemma NamesArePlain()
    ensures PlainName("chunk_id") && PlainName("title") && PlainName("category") && PlainName("source_path")
    ensures PlainName("heading_path") && PlainName("snippet") && PlainName("matched_terms") && PlainName("score")
  {
  }

  lemma FieldsReadable(r: SearchResult, score: ScoreText)
    requires Plain(score)
    ensures forall f <- FieldsOf(r, score) :: Readable(f)
  {
    DecimalIsNumber(r.chunk.id);
    DecimalIsNumber(r.matchedTerms);
    assert IsNumber(score(r.score));
    NamesArePlain();
    hide IsNumber, Decimal, MakeSnippet, PlainName;
  }

  lemma ReadResult(r: SearchResult, score: ScoreText, rest: string)
    requires Plain(score)
    ensures Scan(ResultJson(r, score) + rest) == More(TokensOfResult(r, score), Scan(rest))
  {
    hide Scan, More, FieldsOf, PrintFields, TokensOfFields, TokensOfResult, Readable, Plain, AllPunctuation, StartsPunctuated;
    FieldsReadable(r, score);
    FieldTokens(r, score);
    Commas(rest);
    var fields := FieldsOf(r, score);
    assert ResultJson(r, score) + rest == "{" + (PrintFields(fields) + ("}" + rest));
    SkipPlain("{", PrintFields(fields) + ("}" + rest));
    ReadFields(fields, "}" + rest);
    SkipPlain("}", rest);
  }

  function TokensOfResults(results: seq<SearchResult>, score: ScoreText): seq<Token> {
    if results == [] then []
    else TokensOfResults(results[..|results| - 1], score) + TokensOfResult(results[|results| - 1], score)
  }

  lemma {:induction false} ReadResults(results: seq<SearchResult>, score: ScoreText, rest: string)
    requires Plain(score)
    ensures Scan(ResultsJson(results, score) + rest) == More(TokensOfResults(results, score), Scan(rest))
  {
    hide Scan, More, ResultJson, TokensOfResult, Plain, AllPunctuation;
    if results == [] {
      assert "" + rest == rest;
      NoTokens(Scan(rest));
    } else {
      var (before, last) := (results[..|results| - 1], results[|results| - 1]);
      var separator := if before == [] then "" else ",";
      var more := ResultJson(last, score) + rest;
      assert ResultsJson(results, score) + rest == ResultsJson(before, score) + (separator + more);
      ReadResults(before, score, separator + more);
      Commas("");
      SkipPlain(separator, more);
      ReadResult(last, score, rest);
      MoreMore(TokensOfResults(before, score), TokensOfResult(last, score), Scan(rest));
    }
  }

  lemma ReadEnd()
    ensures Scan("]}\n") == Some([])
  {
    assert "]}\n" + "" == "]}\n";
    SkipPlain("]}\n", "");
  }

  lemma ReadListEnd(results: seq<SearchResult>, score: ScoreText)
    requires Plain(score)
    ensures Scan(ResultsJson(results, score) + "]}\n") == Some(TokensOfResults(results, score))
  {
    hide Scan, ResultsJson, TokensOfResults, Plain;
    ReadResults(results, score, "]}\n");
    ReadEnd();
    assert TokensOfResults(results, score) + [] == TokensOfResults(results, score);
  }

  lemma HeadNames()
    ensures PlainName("query") && PlainName("results")
  {
  }

  // The query, and the name of the list behind it.
  lemma ReadHead(query: string, rest: string)
    ensures Scan("{" + (PrintField(Text("query", query)) + ("," + (PrintField(Number("results", "[")) + rest)))) ==
      More([Str("query"), Str(query), Str("results")], Scan(rest))
  {
    HeadNames();
    Commas("");
    hide Scan, More, PrintField, PlainName, EscapeJson, Quoted, AllPunctuation, StartsPunctuated, TokensOfField;
    var list := PrintField(Number("results", "[")) + rest;
    NameEscapesToItself("results");
    SkipPlain("{", PrintField(Text("query", query)) + ("," + list));
    Commas(list);
    ReadField(Text("query", query), "," + list);
    SkipPlain(",", list);
    PrintedNumber("results", "[", rest);
    ColonBracket(rest);
    TakeLiteral("results", ":[" + rest);
    SkipPlain(":[", rest);
    MoreMore(TokensOfField(Text("query", query)), [Str("results")], Scan(rest));
    QueryTokens(query);
  }

  lemma ColonBracket(rest: string)
    ensures ":" + ("[" + rest) == ":[" + rest
  {
  }

  lemma QueryTokens(query: string)
    ensures TokensOfField(Text("query", query)) + [Str("results")] == [Str("query"), Str(query), Str("results")]
  {
  }

  // A JSON reader recovers the query and every field of every result, in order, whatever
  // bytes they hold.
  lemma DocumentRoundTrip(query: string, results: seq<SearchResult>, score: ScoreText)
    requires Plain(score)
    ensures Scan(ToJson(query, results, score)) ==
      Some([Str("query"), Str(query), Str("results")] + TokensOfResults(results, score))
  {
    DocumentShape(query, results, score);
    ReadListEnd(results, score);
    ReadHead(query, ResultsJson(results, score) + "]}\n");
    hide Scan, ToJson, PrintField, ResultsJson, TokensOfResults;
  }

  lemma DocumentShape(query: string, results: seq<SearchResult>, score: ScoreText)
    ensures ToJson(query, results, score) ==
      "{" + (PrintField(Text("query", query)) + ("," + (PrintField(Number("results", "[")) + (ResultsJson(results, score) + "]}\n"))))
  {
    hide PrintField, ResultsJson;
    Regroup("{", PrintField(Text("query", query)), ",", PrintField(Number("results", "[")), ResultsJson(results, score), "]}\n");
  }

  lemma Regroup(a: string, b: string, c: string, d: string, e: string, f: string)
    ensures a + b + c + d + e + f == a + (b + (c + (d + (e + f))))
  {
  }
}
