// Query strings of src/http/HttpRequest.cpp: percent-decoding and key=value lists.
module UrlCodec {
  import opened TcpProtocol

  // --- percent-decoding -----------------------------------------------------------------

  function HexValue(c: char): (v: int)
    ensures -1 <= v <= 15
  {
    if '0' <= c <= '9' then c as int - '0' as int
    else if 'a' <= c <= 'f' then c as int - 'a' as int + 10
    else if 'A' <= c <= 'F' then c as int - 'A' as int + 10
    else -1
  }

  function UrlDecode(encoded: string): Option<string> {
    if encoded == "" then Some("")
    else if encoded[0] != '%' then After([if encoded[0] == '+' then ' ' else encoded[0]], UrlDecode(encoded[1..]))
    else if |encoded| < 3 || HexValue(encoded[1]) < 0 || HexValue(encoded[2]) < 0 then None
    else After([(HexValue(encoded[1]) * 16 + HexValue(encoded[2])) as char], UrlDecode(encoded[3..]))
  }

  function After(text: string, rest: Option<string>): Option<string> {
    if rest == None then None else Some(text + rest.value)
  }

  lemma AfterSteps(text: string, c: char, rest: Option<string>)
    ensures After(text, After([c], rest)) == After(text + [c], rest)
    ensures After("", rest) == rest
  {
    if rest.Some? {
      assert text + ([c] + rest.value) == text + [c] + rest.value && "" + rest.value == rest.value;
    }
  }

  // The loop of urlDecode, with the same early returns.
  method ComputeUrlDecode(encoded: string) returns (decoded: Option<string>)
    ensures decoded == UrlDecode(encoded)
  {
    var text := "";
    var index := 0;
    AfterSteps("", 'x', UrlDecode(encoded));
    assert encoded[0..] == encoded;
    while index < |encoded|
      invariant index <= |encoded|
      invariant UrlDecode(encoded) == After(text, UrlDecode(encoded[index..]))
    {
      ghost var rest := encoded[index..];
      var character := encoded[index];
      if character == '+' {
        assert rest[1..] == encoded[index + 1..];
        AfterSteps(text, ' ', UrlDecode(rest[1..]));
        text := text + " ";
        index := index + 1;
        continue;
      }
      if character != '%' {
        assert rest[1..] == encoded[index + 1..];
        AfterSteps(text, character, UrlDecode(rest[1..]));
        text := text + [character];
        index := index + 1;
        continue;
      }
      if index + 2 >= |encoded| {
        return None;
      }
      var (high, low) := (HexValue(encoded[index + 1]), HexValue(encoded[index + 2]));
      if high < 0 || low < 0 {
        return None;
      }
      assert rest[3..] == encoded[index + 3..];
      AfterSteps(text, (high * 16 + low) as char, UrlDecode(rest[3..]));
      text := text + [(high * 16 + low) as char];
      index := index + 3;
    }
    assert text + "" == text;
    return Some(text);
  }

  // The relation a client's encoder is free to choose from: every byte stands for itself
  // (except '%' and '+'), or is a '+' for a space, or '%' and two hexadecimal digits.
  ghost predicate Encodes(encoded: string, plain: string)
    decreases |encoded|
  {
    if plain == "" then encoded == ""
    else
      || (|encoded| >= 1 && encoded[0] == plain[0] && encoded[0] != '%' && encoded[0] != '+' && Encodes(encoded[1..], plain[1..]))
      || (|encoded| >= 1 && encoded[0] == '+' && plain[0] == ' ' && Encodes(encoded[1..], plain[1..]))
      || (|encoded| >= 3 && encoded[0] == '%' && HexValue(encoded[1]) >= 0 && HexValue(encoded[2]) >= 0
          && HexValue(encoded[1]) * 16 + HexValue(encoded[2]) == plain[0] as int && Encodes(encoded[3..], plain[1..]))
  }

  // Decoding inverts every encoder and accepts nothing else.
  lemma {:induction false} DecodesExactly(encoded: string, plain: string)
    ensures UrlDecode(encoded) == Some(plain) <==> Encodes(encoded, plain)
    decreases |encoded|
  {
    if plain != "" && encoded != "" {
      DecodesExactly(encoded[1..], plain[1..]);
      assert plain == [plain[0]] + plain[1..];
      if |encoded| >= 3 {
        DecodesExactly(encoded[3..], plain[1..]);
      }
    }
  }

  lemma {:induction false} DecodingNeverLengthens(encoded: string)
    ensures UrlDecode(encoded).Some? ==> |UrlDecode(encoded).value| <= |encoded|
    decreases |encoded|
  {
    if encoded != "" {
      DecodingNeverLengthens(encoded[1..]);
      if |encoded| >= 3 {
        DecodingNeverLengthens(encoded[3..]);
      }
    }
  }

  // --- key=value lists --------------------------------------------------------------------

  // Index of the first occurrence of a character at or after `from`, or the length.
  function Find(s: string, c: char, from: nat): (i: nat)
    requires from <= |s|
    ensures from <= i <= |s| && (i < |s| ==> s[i] == c) && forall j :: from <= j < i ==> s[j] != c
    decreases |s| - from
  {
    if from == |s| || s[from] == c then from else Find(s, c, from + 1)
  }

  type Params = map<string, string>

  function Emplace(params: Params, key: string, value: string): Params {
    if key in params then params else params[key := value]
  }

  // One item between two '&': without '=', or with nothing before it, it is ignored.
  function ParseItem(item: string, params: Params): Option<Params> {
    var equal := Find(item, '=', 0);
    if equal == |item| || equal == 0 then Some(params)
    else
      var (key, value) := (UrlDecode(item[..equal]), UrlDecode(item[equal + 1..]));
      if key == None || value == None then None else Some(Emplace(params, key.value, value.value))
  }

  function ParseQuery(query: string, params: Params): Option<Params>
    decreases |query|
  {
    if query == "" then Some(params)
    else
      var end := Find(query, '&', 0);
      var parsed := ParseItem(query[..end], params);
      if parsed == None then None
      else if end == |query| then parsed
      else ParseQuery(query[end + 1..], parsed.value)
  }

  lemma FindUnique(s: string, c: char, from: nat, i: nat)
    requires from <= i <= |s| && (i < |s| ==> s[i] == c) && forall j :: from <= j < i ==> s[j] != c
    ensures Find(s, c, from) == i
  {
  }

  lemma FindShifted(s: string, c: char, from: nat)
    requires from <= |s|
    ensures Find(s[from..], c, 0) == Find(s, c, from) - from
  {
    FindUnique(s[from..], c, 0, Find(s, c, from) - from);
  }

  // One turn of the cursor loop.
  lemma QueryStep(query: string, cursor: nat, params: Params)
    requires cursor < |query|
    ensures var end := Find(query, '&', cursor);
      var parsed := ParseItem(query[cursor..end], params);
      ParseQuery(query[cursor..], params) ==
        if parsed == None || end == |query| then parsed else ParseQuery(query[end + 1..], parsed.value)
  {
    hide ParseItem;
    FindShifted(query, '&', cursor);
    var (rest, end) := (query[cursor..], Find(query, '&', cursor));
    assert rest[..end - cursor] == query[cursor..end];
    assert end < |query| ==> rest[end - cursor + 1..] == query[end + 1..];
  }

  // The cursor loop of parseQueryString.
  method ParseQueryString(query: string) returns (params: Option<Params>)
    ensures params == ParseQuery(query, map[])
  {
    hide ParseQuery, UrlDecode;
    var found: Params := map[];
    var cursor := 0;
    assert query[0..] == query;
    while cursor < |query|
      invariant cursor <= |query| && ParseQuery(query, map[]) == ParseQuery(query[cursor..], found)
    {
      QueryStep(query, cursor, found);
      var cursorEnd := Find(query, '&', cursor);
      var item := query[cursor..cursorEnd];
      var equalPos := Find(item, '=', 0);
      if equalPos != |item| && equalPos != 0 {
        var key := ComputeUrlDecode(item[..equalPos]);
        var value := ComputeUrlDecode(item[equalPos + 1..]);
        if key == None || value == None {
          return None;
        }
        found := Emplace(found, key.value, value.value);
      }
      if cursorEnd == |query| {
        return Some(found);
      }
      cursor := cursorEnd + 1;
    }
    assert query[cursor..] == "";
    QueryEnd(found);
    return Some(found);
  }

  lemma QueryEnd(params: Params)
    ensures ParseQuery("", params) == Some(params)
  {
  }

  datatype Pair = Pair(key: string, value: string)

  // A serialized pair: no '&' inside, and the first '=' is the separator.
  ghost predicate EncodesPair(item: string, pair: Pair) {
    && '&' !in item && pair.key != ""
    && exists k, v :: item == k + "=" + v && '=' !in k && Encodes(k, pair.key) && Encodes(v, pair.value)
  }

  ghost predicate EncodesPairs(items: seq<string>, pairs: seq<Pair>) {
    |items| == |pairs| && forall i :: 0 <= i < |items| ==> EncodesPair(items[i], pairs[i])
  }

  function Join(items: seq<string>): string {
    if items == [] then "" else if |items| == 1 then items[0] else items[0] + "&" + Join(items[1..])
  }

  // The value of a key is that of its first pair.
  function FirstWins(params: Params, pairs: seq<Pair>): Params
    decreases |pairs|
  {
    if pairs == [] then params else FirstWins(Emplace(params, pairs[0].key, pairs[0].value), pairs[1..])
  }

  ghost predicate IsFirst(pairs: seq<Pair>, key: string, i: int) {
    0 <= i < |pairs| && pairs[i].key == key && forall j :: 0 <= j < i ==> pairs[j].key != key
  }

  lemma {:induction false} FirstWinsMeaning(params: Params, pairs: seq<Pair>, key: string)
    ensures key in FirstWins(params, pairs) <==> key in params || exists i :: 0 <= i < |pairs| && pairs[i].key == key
    ensures key in params ==> key in FirstWins(params, pairs) && FirstWins(params, pairs)[key] == params[key]
    ensures key !in params ==> forall i :: IsFirst(pairs, key, i) ==>
      key in FirstWins(params, pairs) && FirstWins(params, pairs)[key] == pairs[i].value
    decreases |pairs|
  {
    if pairs != [] {
      FirstWinsMeaning(Emplace(params, pairs[0].key, pairs[0].value), pairs[1..], key);
      assert pairs == [pairs[0]] + pairs[1..];
      forall i | IsFirst(pairs, key, i) && i > 0 ensures IsFirst(pairs[1..], key, i - 1) {
      }
    }
  }

  lemma PairParsed(item: string, pair: Pair, params: Params)
    requires EncodesPair(item, pair)
    ensures ParseItem(item, params) == Some(Emplace(params, pair.key, pair.value))
    ensures item != "" && Find(item, '&', 0) == |item|
  {
    var k, v :| item == k + "=" + v && '=' !in k && Encodes(k, pair.key) && Encodes(v, pair.value);
    DecodesExactly(k, pair.key);
    DecodesExactly(v, pair.value);
    assert k != "";
    hide Encodes, UrlDecode, Emplace;
    FindUnique(item, '=', 0, |k|);
    assert item[..|k|] == k && item[|k| + 1..] == v;
  }

  lemma FirstAmpersand(item: string, rest: string)
    requires Find(item, '&', 0) == |item|
    ensures Find(item + "&" + rest, '&', 0) == |item|
  {
    FindUnique(item + "&" + rest, '&', 0, |item|);
  }

  // Whatever encoder a client uses for its pairs, the parser recovers exactly the map in
  // which the first value of each key wins.
  lemma {:induction false} QueryRoundTrip(items: seq<string>, pairs: seq<Pair>, params: Params)
    requires EncodesPairs(items, pairs)
    ensures ParseQuery(Join(items), params) == Some(FirstWins(params, pairs))
    decreases |items|
  {
    if items != [] {
      PairParsed(items[0], pairs[0], params);
      var parsed := Emplace(params, pairs[0].key, pairs[0].value);
      if |items| == 1 {
        assert items[0][..|items[0]|] == items[0];
        assert FirstWins(parsed, pairs[1..]) == parsed;
      } else {
        var query := Join(items);
        FirstAmpersand(items[0], Join(items[1..]));
        assert query[..|items[0]|] == items[0] && query[|items[0]| + 1..] == Join(items[1..]);
        QueryRoundTrip(items[1..], pairs[1..], parsed);
      }
    }
  }

  // --- malformed and ignored items ----------------------------------------------------------

  // No '=', or nothing before it.
  predicate Ignored(item: string) {
    '=' !in item || item[0] == '='
  }

  ghost predicate Undecodable(encoded: string) {
    forall plain :: !Encodes(encoded, plain)
  }

  // A key, '=' and a value, one of which is no encoding of anything.
  ghost predicate MalformedAt(item: string, k: string, v: string) {
    item == k + "=" + v && '=' !in k && k != "" && (Undecodable(k) || Undecodable(v))
  }

  ghost predicate Malformed(item: string) {
    exists k, v :: MalformedAt(item, k, v)
  }

  lemma DecodesOrNot(encoded: string)
    ensures UrlDecode(encoded) == None <==> Undecodable(encoded)
  {
    hide UrlDecode, Encodes;
    forall plain ensures UrlDecode(encoded) == Some(plain) <==> Encodes(encoded, plain) {
      DecodesExactly(encoded, plain);
    }
    if UrlDecode(encoded).Some? {
      assert Encodes(encoded, UrlDecode(encoded).value);
    }
  }

  lemma SplitsAt(item: string, k: string, v: string)
    requires item == k + "=" + v && '=' !in k
    ensures Find(item, '=', 0) == |k| < |item| && item[..|k|] == k && item[|k| + 1..] == v
  {
    FindUnique(item, '=', 0, |k|);
  }

  lemma FirstEqual(item: string, i: nat)
    requires !Ignored(item) && i == Find(item, '=', 0)
    ensures 0 < i < |item| && '=' !in item[..i] && item == item[..i] + "=" + item[i + 1..]
  {
    hide Find;
    var j :| 0 <= j < |item| && item[j] == '=';
    assert item[i] == '=';
  }

  // An item is refused exactly when it is malformed; an ignored one changes nothing.
  lemma ItemMeaning(item: string, params: Params)
    ensures Ignored(item) ==> ParseItem(item, params) == Some(params)
    ensures ParseItem(item, params) == None <==> Malformed(item)
  {
    hide UrlDecode, Encodes, Emplace, Find, Ignored, Undecodable;
    var i := Find(item, '=', 0);
    if !Ignored(item) {
      FirstEqual(item, i);
      DecodesOrNot(item[..i]);
      DecodesOrNot(item[i + 1..]);
      if ParseItem(item, params) == None {
        assert MalformedAt(item, item[..i], item[i + 1..]);
      }
    } else {
      FindIgnored(item);
    }
    if k, v :| MalformedAt(item, k, v) {
      SplitsAt(item, k, v);
      DecodesOrNot(k);
      DecodesOrNot(v);
    }
  }

  lemma FindIgnored(item: string)
    requires Ignored(item)
    ensures Find(item, '=', 0) == |item| || Find(item, '=', 0) == 0
  {
  }

  // A query is refused exactly when one of its items is malformed.
  lemma {:induction false} QueryRefused(items: seq<string>, params: Params)
    requires forall item <- items :: '&' !in item
    ensures ParseQuery(Join(items), params) == None <==> exists item <- items :: Malformed(item)
    decreases |items|
  {
    hide ParseItem, Malformed, Ignored;
    if items != [] {
      ItemMeaning(items[0], params);
      JoinTurn(items, params);
      var parsed := ParseItem(items[0], params);
      if parsed.Some? {
        QueryRefused(items[1..], parsed.value);
      }
      assert items == [items[0]] + items[1..];
    }
  }

  lemma JoinTurn(items: seq<string>, params: Params)
    requires items != [] && '&' !in items[0]
    ensures var parsed := ParseItem(items[0], params);
      ParseQuery(Join(items), params) == if parsed == None then None else ParseQuery(Join(items[1..]), parsed.value)
  {
    hide UrlDecode;
    var (item, query) := (items[0], Join(items));
    FindUnique(item, '&', 0, |item|);
    assert item[..|item|] == item;
    if |items| > 1 {
      FirstAmpersand(item, Join(items[1..]));
      assert query[..|item|] == item && query[|item| + 1..] == Join(items[1..]);
    }
  }

  function Kept(items: seq<string>): seq<string> {
    if items == [] then [] else (if Ignored(items[0]) then [] else [items[0]]) + Kept(items[1..])
  }

  lemma KeptFront(items: seq<string>)
    requires items != []
    ensures Kept(items) == if Ignored(items[0]) then Kept(items[1..]) else [items[0]] + Kept(items[1..])
  {
  }

  lemma NothingParsed(params: Params)
    ensures ParseQuery(Join([]), params) == Some(params) && Kept([]) == []
  {
  }

  // Around the encoded pairs of a query any number of items may stand that are ignored.
  lemma {:induction false} QueryMeaning(items: seq<string>, pairs: seq<Pair>, params: Params)
    requires (forall item <- items :: '&' !in item) && EncodesPairs(Kept(items), pairs)
    ensures ParseQuery(Join(items), params) == Some(FirstWins(params, pairs))
    decreases |items|
  {
    hide ParseItem, ParseQuery, EncodesPair, Ignored, Join, Kept;
    if items == [] {
      NothingParsed(params);
    } else {
      JoinTurn(items, params);
      KeptFront(items);
      if Ignored(items[0]) {
        ItemMeaning(items[0], params);
        QueryMeaning(items[1..], pairs, params);
      } else {
        PairParsed(items[0], pairs[0], params);
        assert Kept(items)[1..] == Kept(items[1..]);
        QueryMeaning(items[1..], pairs[1..], Emplace(params, pairs[0].key, pairs[0].value));
      }
    }
  }

  // --- a client's encoder -----------------------------------------------------------------

  function UpperHexDigit(v: nat): char
    requires v < 16
  {
    if v < 10 then ('0' as int + v) as char else ('A' as int + v - 10) as char
  }

  predicate IsByte(c: char) {
    c as int < 256
  }

  function PercentEncodeChar(c: char): string
    requires IsByte(c)
  {
    if c == ' ' then "+"
    else if 'a' <= c <= 'z' || 'A' <= c <= 'Z' || '0' <= c <= '9' then [c]
    else ['%', UpperHexDigit(c as int / 16), UpperHexDigit(c as int % 16)]
  }

  ghost predicate IsBytes(s: string) {
    forall i :: 0 <= i < |s| ==> IsByte(s[i])
  }

  // The form encoding of section 5.2 of the WHATWG URL Standard, with every byte escaped
  // that is neither a letter nor a digit.
  ghost function PercentEncode(plain: string): string
    requires IsBytes(plain)
  {
    if plain == "" then "" else PercentEncodeChar(plain[0]) + PercentEncode(plain[1..])
  }

  predicate Unreserved(s: string) {
    forall i :: 0 <= i < |s| ==> s[i] == '+' || s[i] == '%' || 'a' <= s[i] <= 'z' || 'A' <= s[i] <= 'Z' || '0' <= s[i] <= '9'
  }

  lemma EncodedChar(c: char)
    requires IsByte(c)
    ensures var e := PercentEncodeChar(c);
      && Unreserved(e)
      && if c == ' ' then e == "+"
         else if |e| == 1 then e[0] == c && c != '%' && c != '+'
         else |e| == 3 && e[0] == '%' && HexValue(e[1]) == c as int / 16 && HexValue(e[2]) == c as int % 16
  {
  }

  lemma {:induction false} PercentEncodes(plain: string)
    requires IsBytes(plain)
    ensures Encodes(PercentEncode(plain), plain) && Unreserved(PercentEncode(plain))
  {
    if plain != "" {
      EncodedChar(plain[0]);
      PercentEncodes(plain[1..]);
      var (e, rest) := (PercentEncodeChar(plain[0]), PercentEncode(plain[1..]));
      assert PercentEncode(plain)[|e|..] == rest;
      hide PercentEncodeChar;
    }
  }

  ghost function EncodePair(pair: Pair): string
    requires IsBytes(pair.key) && IsBytes(pair.value)
  {
    PercentEncode(pair.key) + "=" + PercentEncode(pair.value)
  }

  lemma UnreservedIsClean(s: string)
    requires Unreserved(s)
    ensures ' ' !in s && '\r' !in s && '&' !in s && '=' !in s
  {
  }

  lemma PairEncoded(pair: Pair)
    requires pair.key != "" && IsBytes(pair.key) && IsBytes(pair.value)
    ensures EncodesPair(EncodePair(pair), pair)
    ensures ' ' !in EncodePair(pair) && '\r' !in EncodePair(pair)
  {
    PercentEncodes(pair.key);
    PercentEncodes(pair.value);
    var (k, v) := (PercentEncode(pair.key), PercentEncode(pair.value));
    UnreservedIsClean(k);
    UnreservedIsClean(v);
    hide PercentEncode, Encodes, Unreserved;
  }

  // Pairs a form can send: any byte strings, with keys that are not empty.
  ghost predicate Sendable(pairs: seq<Pair>) {
    forall pair <- pairs :: pair.key != "" && IsBytes(pair.key) && IsBytes(pair.value)
  }

  ghost function EncodePairs(pairs: seq<Pair>): seq<string>
    requires Sendable(pairs)
  {
    seq(|pairs|, i requires 0 <= i < |pairs| => EncodePair(pairs[i]))
  }

  ghost function Serialize(pairs: seq<Pair>): string
    requires Sendable(pairs)
  {
    Join(EncodePairs(pairs))
  }

  lemma PairsEncoded(pairs: seq<Pair>)
    requires Sendable(pairs)
    ensures EncodesPairs(EncodePairs(pairs), pairs)
    ensures forall item <- EncodePairs(pairs) :: ' ' !in item && '\r' !in item
  {
    hide EncodePair, EncodesPair;
    forall i | 0 <= i < |pairs|
      ensures EncodesPair(EncodePairs(pairs)[i], pairs[i])
      ensures ' ' !in EncodePairs(pairs)[i] && '\r' !in EncodePairs(pairs)[i]
    {
      PairEncoded(pairs[i]);
    }
  }

  // Every list of pairs survives serializing and parsing: the parser succeeds and the first
  // value of each key is the one that counts.
  lemma SerializedRoundTrip(pairs: seq<Pair>)
    requires Sendable(pairs)
    ensures ParseQuery(Serialize(pairs), map[]) == Some(FirstWins(map[], pairs))
  {
    PairsEncoded(pairs);
    QueryRoundTrip(EncodePairs(pairs), pairs, map[]);
  }

  lemma {:induction false} JoinedIsClean(items: seq<string>)
    requires forall item <- items :: ' ' !in item && '\r' !in item
    ensures ' ' !in Join(items) && '\r' !in Join(items)
    decreases |items|
  {
    if |items| > 1 {
      JoinedIsClean(items[1..]);
    }
  }

  // Hexadecimal digits of either case count the same.
  lemma HexDigits(v: nat)
    requires v < 16
    ensures HexValue("0123456789ABCDEF"[v]) == v && HexValue("0123456789abcdef"[v]) == v
  {
  }
}
