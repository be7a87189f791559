/**
 The auth-param list of a challenge (sections 11.2 and 11.6.1 of RFC 9110): name="value" or
 name=token pairs, consumed sequentially.
 */
module AuthParams {
  import opened Wrappers
  import opened TextScan
  import opened QuotedString

  const MAX_AUTHORIZATION_SIZE: nat := 64 * 1024

  type Params = map<string, string>

  predicate IsKeyChar(c: char) {
    'a' <= c <= 'z' || 'A' <= c <= 'Z' || '0' <= c <= '9' || c == '_' || c == '-'
  }

  /** The characters of an auth-param name, by code point: those of the base64url alphabet. */
  lemma KeyCharsAre(c: char)
    ensures var n := c as int;
            IsKeyChar(c) <==> n == 0x2D || 0x30 <= n <= 0x39 || 0x41 <= n <= 0x5A || n == 0x5F || 0x61 <= n <= 0x7A
  {
  }

  function SkipSeparators(s: string): (r: string)
    ensures |r| <= |s|
  {
    if s != "" && (IsSpace(s[0]) || s[0] == ',') then SkipSeparators(s[1..]) else s
  }

  function KeyLength(s: string): (n: nat)
    ensures n <= |s|
  {
    if s != "" && IsKeyChar(s[0]) then 1 + KeyLength(s[1..]) else 0
  }

  /** The text after an auth-param name, from its '=' on; None when no '=' follows. */
  function ValueText(s: string): (r: Option<string>)
    ensures r.Some? ==> |r.value| < |s|
  {
    var u := LStrip(s);
    if u == "" || u[0] != '=' then None else Some(LStrip(u[1..]))
  }

  /** A value, quoted or a token up to the next comma, and what follows it. */
  function ReadValue(v: string): (r: Result<(string, string), ParseError>)
    ensures r.Success? ==> |r.value.1| <= |v|
  {
    if v != "" && v[0] == '"' then ReadQuoted(v[1..])
    else
      var end := IndexOf(v, ',');
      Success((Strip(v[..end]), v[end..]))
  }

  /** What the text at one position holds: no further parameter, an error, or a parameter. */
  datatype Item =
    | End
    | Bad(error: ParseError)
    | Pair(key: string, value: string, rest: string)

  function ReadParam(s: string): (item: Item)
    ensures item.Pair? ==> |item.rest| < |s|
  {
    var t := SkipSeparators(s);
    if t == "" then End
    else
      var n := KeyLength(t);
      if n == 0 then Bad(MalformedParam)
      else
        var v := ValueText(t[n..]);
        if v.None? then End
        else
          var read := ReadValue(v.value);
          if read.Failure? then Bad(read.error)
          else Pair(LowerAll(t[..n]), read.value.0, read.value.1)
  }

  /** The parameters of `s` added to `params`; the rest is ignored from a name without '=' on. */
  function ParseFrom(s: string, params: Params): Result<Params, ParseError>
    decreases |s|
  {
    match ReadParam(s)
    case End => Success(params)
    case Bad(error) => Failure(error)
    case Pair(key, value, rest) =>
      if key in params then Failure(DuplicateParam(key)) else ParseFrom(rest, params[key := value])
  }

  // ---------- The parser's loops ----------

  method SkipSeparatorsAt(text: string, start: nat) returns (index: nat)
    requires start <= |text|
    ensures start <= index <= |text| && text[index..] == SkipSeparators(text[start..])
  {
    index := start;
    while index < |text| && (IsSpace(text[index]) || text[index] == ',')
      invariant start <= index <= |text|
      invariant SkipSeparators(text[start..]) == SkipSeparators(text[index..])
    {
      TailOf(text, index);
      index := index + 1;
    }
    if index < |text| {
      TailOf(text, index);
    }
  }

  method SkipSpacesAt(text: string, start: nat) returns (index: nat)
    requires start <= |text|
    ensures start <= index <= |text| && text[index..] == LStrip(text[start..])
  {
    index := start;
    while index < |text| && IsSpace(text[index])
      invariant start <= index <= |text|
      invariant LStrip(text[start..]) == LStrip(text[index..])
    {
      TailOf(text, index);
      index := index + 1;
    }
    if index < |text| {
      TailOf(text, index);
    }
  }

  method KeyEnd(text: string, start: nat) returns (index: nat)
    requires start <= |text|
    ensures start <= index <= |text| && index == start + KeyLength(text[start..])
  {
    index := start;
    while index < |text| && IsKeyChar(text[index])
      invariant start <= index <= |text|
      invariant start + KeyLength(text[start..]) == index + KeyLength(text[index..])
    {
      TailOf(text, index);
      index := index + 1;
    }
    if index < |text| {
      TailOf(text, index);
    }
  }

  method ReadValueAt(text: string, start: nat) returns (r: Result<(string, nat), ParseError>)
    requires start <= |text|
    ensures r.Success? ==> start <= r.value.1 <= |text|
    ensures ReadValue(text[start..])
            == if r.Success? then Success((r.value.0, text[r.value.1..])) else Failure(r.error)
  {
    hide *;
    ghost var v := text[start..];
    if start < |text| && text[start] == '"' {
      TailOf(text, start);
      QuotedValue(v);
      r := ReadQuotedAuthParam(text, start + 1);
    } else {
      var n := IndexOf(text[start..], ',');
      SplitAt(text, start, start + n);
      TokenValue(v);
      r := Success((Strip(text[start..start + n]), start + n));
    }
  }

  lemma QuotedValue(v: string)
    requires v != "" && v[0] == '"'
    ensures ReadValue(v) == ReadQuoted(v[1..])
  {
  }

  lemma TokenValue(v: string)
    requires v == "" || v[0] != '"'
    ensures var n := IndexOf(v, ','); ReadValue(v) == Success((Strip(v[..n]), v[n..]))
  {
  }

  /** One round of the parser's loop; `next` is where the following round starts. */
  method ReadParamAt(text: string, index: nat) returns (item: Item, next: nat)
    requires index <= |text|
    ensures item == ReadParam(text[index..])
    ensures item.Pair? ==> index < next <= |text| && item.rest == text[next..]
  {
    hide SkipSeparators, KeyLength, LStrip, ReadValue, LowerAll;
    next := index;
    var start := SkipSeparatorsAt(text, index);
    if start >= |text| {
      return End, next;
    }
    var keyEnd := KeyEnd(text, start);
    if keyEnd == start {
      return Bad(MalformedParam), next;
    }
    SplitAt(text, start, keyEnd);
    var key := LowerAll(text[start..keyEnd]);
    var mark := SkipSpacesAt(text, keyEnd);
    if mark >= |text| || text[mark] != '=' {
      return End, next;
    }
    TailOf(text, mark);
    var valueStart := SkipSpacesAt(text, mark + 1);
    var read := ReadValueAt(text, valueStart);
    if read.Failure? {
      return Bad(read.error), next;
    }
    return Pair(key, read.value.0, text[read.value.1..]), read.value.1;
  }

  method ParseAuthParams(text: string) returns (r: Result<Params, ParseError>)
    ensures r == if |text| > MAX_AUTHORIZATION_SIZE then Failure(TooLong) else ParseFrom(text, map[])
  {
    if |text| > MAX_AUTHORIZATION_SIZE {
      return Failure(TooLong);
    }
    hide ReadParam;
    var params: Params := map[];
    var index := 0;
    assert text[0..] == text;
    while index < |text|
      invariant 0 <= index <= |text|
      invariant ParseFrom(text, map[]) == ParseFrom(text[index..], params)
    {
      var item, next := ReadParamAt(text, index);
      match item
      case End => return Success(params);
      case Bad(error) => return Failure(error);
      case Pair(key, value, _) =>
        if key in params {
          return Failure(DuplicateParam(key));
        }
        params, index := params[key := value], next;
    }
    EmptyParses(text[index..], params);
    return Success(params);
  }

  lemma EmptyParses(s: string, params: Params)
    requires |s| == 0
    ensures ParseFrom(s, params) == Success(params)
  {
  }

  // ---------- Printing ----------

  /** One parameter to print. */
  datatype Param = Param(name: string, value: string)

  predicate ValidName(name: string) {
    name != "" && forall i :: 0 <= i < |name| ==> IsKeyChar(name[i]) && !('A' <= name[i] <= 'Z')
  }

  function Print(p: Param): string {
    p.name + ("=\"" + (Escape(p.value) + "\""))
  }

  function Join(parts: seq<string>): string {
    if parts == [] then ""
    else if |parts| == 1 then parts[0]
    else parts[0] + (", " + Join(parts[1..]))
  }

  function PrintAll(ps: seq<Param>): seq<string> {
    if ps == [] then [] else [Print(ps[0])] + PrintAll(ps[1..])
  }

  /** No name printed twice, and none already present. */
  predicate Distinct(ps: seq<Param>, params: Params) {
    ps == [] || (ps[0].name !in params && Distinct(ps[1..], params[ps[0].name := ps[0].value]))
  }

  function AddAll(ps: seq<Param>, params: Params): Params {
    if ps == [] then params else AddAll(ps[1..], params[ps[0].name := ps[0].value])
  }

  lemma {:induction false} KeyLengthOf(name: string, rest: string)
    requires ValidName(name) && (rest == "" || !IsKeyChar(rest[0]))
    ensures KeyLength(name + rest) == |name|
  {
    assert (name + rest)[1..] == name[1..] + rest;
    if |name| > 1 {
      KeyLengthOf(name[1..], rest);
    } else {
      assert name[1..] + rest == rest;
    }
  }

  lemma LowerOfValidName(name: string)
    requires ValidName(name)
    ensures LowerAll(name) == name
  {
  }

  lemma KeyCharIsNotSeparator(c: char)
    requires IsKeyChar(c)
    ensures !IsSpace(c) && c != ','
  {
  }

  /** The text of a printed parameter after its name reads back as its value. */
  lemma PrintedValueReads(value: string, rest: string)
    ensures ValueText("=\"" + (Escape(value) + "\"") + rest) == Some("\"" + (Escape(value) + ("\"" + rest)))
    ensures ReadValue("\"" + (Escape(value) + ("\"" + rest))) == Success((value, rest))
  {
    hide Escape, ReadQuoted;
    var body := Escape(value) + ("\"" + rest);
    assert "=\"" + (Escape(value) + "\"") + rest == "=\"" + body by {
      Assoc(Escape(value), "\"", rest);
      Assoc("=\"", Escape(value) + "\"", rest);
    }
    assert ("=\"" + body)[1..] == "\"" + body;
    assert ("\"" + body)[1..] == body;
    ReadQuotedEscape(value, rest);
  }

  /** One printed parameter is read whole, whatever its value contains. */
  lemma ReadPrinted(p: Param, rest: string)
    requires ValidName(p.name)
    ensures ReadParam(Print(p) + rest) == Pair(p.name, p.value, rest)
  {
    hide Escape, KeyLength, ValueText, ReadValue, LowerAll, IsSpace;
    var tail := "=\"" + (Escape(p.value) + "\"") + rest;
    var text := Print(p) + rest;
    Assoc(p.name, "=\"" + (Escape(p.value) + "\""), rest);
    KeyCharIsNotSeparator(p.name[0]);
    SplitAt(text, 0, |p.name|);
    KeyLengthOf(p.name, tail);
    LowerOfValidName(p.name);
    PrintedValueReads(p.value, rest);
  }

  lemma ReadAfterComma(s: string)
    ensures ReadParam(", " + s) == ReadParam(s)
  {
    hide KeyLength, ValueText, ReadValue, LowerAll;
    assert (", " + s)[1..] == " " + s;
    assert (" " + s)[1..] == s && IsSpace(' ');
    assert SkipSeparators(" " + s) == SkipSeparators(s);
    assert SkipSeparators(", " + s) == SkipSeparators(" " + s);
  }

  /** Parsing a printed list gives back exactly the printed parameters. */
  lemma {:induction false} ParseJoined(ps: seq<Param>, params: Params)
    requires forall p :: p in ps ==> ValidName(p.name)
    requires Distinct(ps, params)
    ensures ParseFrom(Join(PrintAll(ps)), params) == Success(AddAll(ps, params))
  {
    hide Print, ReadParam;
    if |ps| == 0 {
      EmptyParses(Join(PrintAll(ps)), params);
    } else {
      ParseJoined(ps[1..], params[ps[0].name := ps[0].value]);
      if |ps| == 1 {
        ReadPrinted(ps[0], "");
        assert Print(ps[0]) + "" == Print(ps[0]);
        EmptyParses("", params[ps[0].name := ps[0].value]);
      } else {
        var rest := Join(PrintAll(ps[1..]));
        ReadPrinted(ps[0], ", " + rest);
        ReadAfterComma(rest);
      }
    }
  }

  /** A text that begins with a key character and ends with a quote, as printed parameters do. */
  predicate Framed(s: string) {
    s != "" && IsKeyChar(s[0]) && s[|s| - 1] == '"'
  }

  lemma PrintIsFramed(p: Param)
    requires ValidName(p.name)
    ensures Framed(Print(p))
  {
  }

  lemma FramedStrips(s: string)
    requires Framed(s)
    ensures Strip(s) == s
  {
    KeyCharIsNotSeparator(s[0]);
    StripKeeps(s);
  }

  lemma {:induction false} JoinIsFramed(ps: seq<Param>)
    requires ps != [] && forall p :: p in ps ==> ValidName(p.name)
    ensures Framed(Join(PrintAll(ps)))
  {
    hide Print, ValidName;
    PrintIsFramed(ps[0]);
    if |ps| > 1 {
      JoinIsFramed(ps[1..]);
      assert PrintAll(ps)[1..] == PrintAll(ps[1..]);
    } else {
      assert PrintAll(ps) == [Print(ps[0])];
    }
  }
}
