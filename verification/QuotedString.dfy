/**
 Quoted strings of the Payment header syntax: the printer, which writes characters above
 U+00FF as UTF-16 escapes (sections 2.1 and 2.2 of RFC 2781), the scanner for the closing
 quote and the decoder of quoted-pairs (section 5.6.4 of RFC 9110).
 */
module QuotedString {
  import opened Wrappers
  import opened TextScan

  datatype ParseError =
    | CrLf
    | Unterminated
    | MalformedParam
    | DuplicateParam(name: string)
    | TooLong
    | WrongScheme
    | MissingField(name: string)
    | InvalidMethod
    | InvalidPayload
    | InvalidHeaderName
    | InvalidDigest
    | InvalidExpires

  const REPLACEMENT: char := '\U{FFFD}'

  // ---------- Printing ----------

  function HighSurrogate(code: nat): (unit: nat)
    requires 0x10000 <= code <= 0x10FFFF
    ensures 0xD800 <= unit <= 0xDBFF
  {
    0xD800 + (code - 0x10000) / 0x400
  }

  function LowSurrogate(code: nat): (unit: nat)
    requires 0x10000 <= code <= 0x10FFFF
    ensures 0xDC00 <= unit <= 0xDFFF
  {
    0xDC00 + (code - 0x10000) % 0x400
  }

  function EscapeChar(c: char): string {
    var code := c as int;
    if c == '\\' then "\\\\"
    else if c == '"' then "\\\""
    else if code <= 0xFF then [c]
    else if code <= 0xFFFF then "\\u" + Hex4(code)
    else "\\u" + Hex4(HighSurrogate(code)) + "\\u" + Hex4(LowSurrogate(code))
  }

  function Escape(s: string): string {
    if s == "" then "" else EscapeChar(s[0]) + Escape(s[1..])
  }

  lemma EscapeCons(s: string)
    requires s != ""
    ensures Escape(s) == EscapeChar(s[0]) + Escape(s[1..])
  {
  }

  lemma EscapeNil(s: string)
    requires |s| == 0
    ensures Escape(s) == ""
  {
  }

  predicate HasCrLf(s: string) {
    '\r' in s || '\n' in s
  }

  predicate OneLine(s: string) {
    forall i :: 0 <= i < |s| ==> s[i] != '\r' && s[i] != '\n'
  }

  lemma {:induction false} EscapeIsOneLine(s: string)
    requires OneLine(s)
    ensures OneLine(Escape(s))
  {
    if s != "" {
      EscapeIsOneLine(s[1..]);
      CharIsOneLine(s[0]);
      hide EscapeChar;
    }
  }

  lemma CharIsOneLine(c: char)
    requires c != '\r' && c != '\n'
    ensures OneLine(EscapeChar(c))
  {
    hide Hex4;
    var code := c as int;
    if 0xFF < code <= 0xFFFF {
      HexIsOneLine(Hex4(code));
    } else if 0xFFFF < code {
      HexIsOneLine(Hex4(HighSurrogate(code)));
      HexIsOneLine(Hex4(LowSurrogate(code)));
    }
  }

  lemma HexIsOneLine(s: string)
    requires AllHex(s)
    ensures OneLine(s)
  {
  }

  /** Escape `s` for a quoted-string: exactly texts of one line are printed, and on one line. */
  method EscapeQuoted(s: string) returns (r: Result<string, ParseError>)
    ensures r == if HasCrLf(s) then Failure(CrLf) else Success(Escape(s))
    ensures r.Success? <==> OneLine(s)
    ensures r.Success? ==> OneLine(r.value)
  {
    if HasCrLf(s) {
      return Failure(CrLf);
    }
    EscapeIsOneLine(s);
    hide Escape, EscapeChar;
    var escaped := "";
    assert s[0..] == s;
    for index := 0 to |s|
      invariant escaped + Escape(s[index..]) == Escape(s)
    {
      TailOf(s, index);
      EscapeCons(s[index..]);
      Assoc(escaped, EscapeChar(s[index]), Escape(s[index + 1..]));
      escaped := escaped + EscapeChar(s[index]);
    }
    EscapeNil(s[|s|..]);
    assert escaped + Escape(s[|s|..]) == escaped;
    return Success(escaped);
  }

  predicate Latin1(s: string) {
    forall i :: 0 <= i < |s| ==> s[i] as int <= 0xFF
  }

  lemma HexIsLatin1(n: nat)
    requires n < 0x10000
    ensures Latin1(Hex4(n))
  {
  }

  /** All printed output stays at or below U+00FF. */
  lemma {:induction false} EscapeIsLatin1(s: string)
    ensures Latin1(Escape(s))
  {
    hide Hex4;
    if s != "" {
      var code := s[0] as int;
      if 0xFF < code <= 0xFFFF {
        HexIsLatin1(code);
      } else if 0xFFFF < code {
        HexIsLatin1(HighSurrogate(code));
        HexIsLatin1(LowSurrogate(code));
      }
      assert Latin1(EscapeChar(s[0]));
      EscapeIsLatin1(s[1..]);
    }
  }

  // ---------- Decoding ----------

  /** The unit that a u and four hex digits at `index` stand for, if they are there. */
  function ReadUnicodeEscape(s: string, index: nat): (r: Option<nat>)
    ensures r.Some? ==> index + 5 <= |s| && r.value < 0x10000
  {
    if index + 5 <= |s| && s[index] == 'u' && AllHex(s[index + 1..index + 5])
    then Some(Hex4Value(s[index + 1..index + 5]))
    else None
  }

  function Combine(high: nat, low: nat): char
    requires 0xD800 <= high <= 0xDBFF && 0xDC00 <= low <= 0xDFFF
  {
    (0x10000 + (high - 0xD800) * 0x400 + (low - 0xDC00)) as char
  }

  /** The low half of a surrogate pair that starts `s`, if there is one. */
  function LowHalf(s: string): (r: Option<nat>)
    ensures r.Some? ==> 6 <= |s| && 0xDC00 <= r.value <= 0xDFFF
  {
    if s != "" && s[0] == '\\' then
      var low := ReadUnicodeEscape(s, 1);
      if low.Some? && 0xDC00 <= low.value <= 0xDFFF then low else None
    else None
  }

  /** What the first character or escape of `s` decodes to, and how much text it takes. */
  function Unit(s: string): (u: (string, nat))
    requires s != ""
    ensures 0 < u.1 <= |s|
  {
    if s[0] != '\\' then ([s[0]], 1)
    else if |s| == 1 then ("", 1)
    else
      var code := ReadUnicodeEscape(s, 1);
      if code.None? then ([s[1]], 2)
      else if 0xD800 <= code.value <= 0xDBFF then
        var low := LowHalf(s[6..]);
        if low.Some? then ([Combine(code.value, low.value)], 12) else ([REPLACEMENT], 6)
      else if 0xDC00 <= code.value <= 0xDFFF then ([REPLACEMENT], 6)
      else ([code.value as char], 6)
  }

  /** Decode quoted-pairs and UTF-16 escapes; a lone surrogate becomes U+FFFD. */
  function Unescape(s: string): string {
    if s == "" then "" else Unit(s).0 + Unescape(s[Unit(s).1..])
  }

  lemma ReadsAlike(s: string, start: nat, index: nat)
    requires start <= index <= |s|
    ensures ReadUnicodeEscape(s, index) == ReadUnicodeEscape(s[start..], index - start)
  {
    if index + 5 <= |s| {
      assert s[start..][index - start + 1..index - start + 5] == s[index + 1..index + 5];
    }
  }

  /** One round of the decoder: a character, a quoted-pair, a backslash at the end, or an escape and its low half. */
  method DecodeAt(s: string, start: nat) returns (piece: string, index: nat)
    requires start < |s|
    ensures start < index <= |s| && (piece, index - start) == Unit(s[start..])
  {
    hide ReadUnicodeEscape;
    if s[start] != '\\' {
      return [s[start]], start + 1;
    }
    index := start + 1;
    if index == |s| {
      return "", index;
    }
    ReadsAlike(s, start, index);
    var code := ReadUnicodeEscape(s, index);
    if code.None? {
      return [s[index]], index + 1;
    }
    index := index + 5;
    if 0xD800 <= code.value <= 0xDBFF {
      assert s[start..][6..] == s[index..];
      var low := None;
      if index < |s| && s[index] == '\\' {
        ReadsAlike(s, index, index + 1);
        low := ReadUnicodeEscape(s, index + 1);
      }
      if low.Some? && 0xDC00 <= low.value <= 0xDFFF {
        return [(0x10000 + (code.value - 0xD800) * 0x400 + (low.value - 0xDC00)) as char], index + 6;
      }
      return ['\U{FFFD}'], index;
    }
    if 0xDC00 <= code.value <= 0xDFFF {
      return ['\U{FFFD}'], index;
    }
    return [code.value as char], index;
  }

  /** The decoder's loop computes the decoding. */
  method UnescapeQuoted(s: string) returns (r: string)
    ensures r == Unescape(s)
  {
    hide Unit;
    r := "";
    var index := 0;
    while index < |s|
      invariant 0 <= index <= |s|
      invariant r + Unescape(s[index..]) == Unescape(s)
    {
      var piece, next := DecodeAt(s, index);
      assert s[index..][next - index..] == s[next..];
      r, index := r + piece, next;
    }
  }

  // ---------- Scanning ----------

  /** How many characters precede the quote that closes a quoted-string body. */
  function CloseQuote(s: string, escaped: bool): (n: Option<nat>)
    ensures n.Some? ==> n.value < |s| && s[n.value] == '"'
  {
    if s == "" then None
    else if !escaped && s[0] == '"' then Some(0)
    else
      var rest := CloseQuote(s[1..], !escaped && s[0] == '\\');
      if rest.None? then None else Some(rest.value + 1)
  }

  /** A quoted-string body at the start of `s`: its decoded value and what follows the quote. */
  function ReadQuoted(s: string): (r: Result<(string, string), ParseError>)
    ensures r.Success? ==> |r.value.1| < |s|
  {
    var n := CloseQuote(s, false);
    if n.None? then Failure(Unterminated)
    else Success((Unescape(s[..n.value]), s[n.value + 1..]))
  }

  method ReadQuotedAuthParam(params: string, start: nat) returns (r: Result<(string, nat), ParseError>)
    requires start <= |params|
    ensures r.Success? ==> start < r.value.1 <= |params|
    ensures ReadQuoted(params[start..])
            == if r.Success? then Success((r.value.0, params[r.value.1..])) else Failure(r.error)
  {
    hide Unescape;
    var index, escaped := start, false;
    while index < |params|
      invariant start <= index <= |params|
      invariant CloseQuote(params[start..], false)
                == var n := CloseQuote(params[index..], escaped);
                   if n.None? then None else Some(n.value + (index - start))
    {
      var character := params[index];
      TailOf(params, index);
      index := index + 1;
      if escaped {
        escaped := false;
      } else if character == '\\' {
        escaped := true;
      } else if character == '"' {
        assert params[start..][..index - 1 - start] == params[start..index - 1];
        assert params[start..][index - start..] == params[index..];
        var value := UnescapeQuoted(params[start..index - 1]);
        return Success((value, index));
      }
    }
    return Failure(Unterminated);
  }

  // ---------- Round trip ----------

  lemma ReadHex4(n: nat, rest: string)
    requires n < 0x10000
    ensures ReadUnicodeEscape("\\u" + Hex4(n) + rest, 1) == Some(n)
    ensures ("\\u" + Hex4(n) + rest)[6..] == rest
  {
    hide Hex4;
    var s := "\\u" + Hex4(n) + rest;
    assert s[2..6] == Hex4(n);
  }

  /** The four digits of an escape may be in either case. */
  lemma ReadsEitherCase(h: string, n: nat, rest: string)
    requires n < 0x10000 && |h| == 4 && LowerAll(h) == Hex4(n)
    ensures ReadUnicodeEscape("\\u" + h + rest, 1) == Some(n)
  {
    hide Hex4, HexValue, IsHex;
    var s := "\\u" + h + rest;
    assert s[2..6] == h;
    forall i | 0 <= i < 4
      ensures IsHex(h[i]) && HexValue(h[i]) == HexValue(LowerAll(h)[i])
    {
      assert IsHex(LowerAll(h)[i]);
      SameDigit(h[i]);
    }
  }

  lemma SameDigit(c: char)
    requires IsHex(Lower(c))
    ensures IsHex(c) && HexValue(c) == HexValue(Lower(c))
  {
  }

  lemma LowHalfReads(low: nat, rest: string)
    requires 0xDC00 <= low <= 0xDFFF
    ensures LowHalf("\\u" + Hex4(low) + rest) == Some(low)
  {
    ReadHex4(low, rest);
    hide Hex4, ReadUnicodeEscape;
  }

  lemma UnitOfPair(high: nat, low: nat, rest: string)
    requires 0xD800 <= high <= 0xDBFF && 0xDC00 <= low <= 0xDFFF
    ensures Unit("\\u" + Hex4(high) + "\\u" + Hex4(low) + rest) == ([Combine(high, low)], 12)
    ensures ("\\u" + Hex4(high) + "\\u" + Hex4(low) + rest)[12..] == rest
  {
    hide Hex4, ReadUnicodeEscape, Combine, LowHalf;
    var first, tail := "\\u" + Hex4(high), "\\u" + Hex4(low) + rest;
    assert first + "\\u" + Hex4(low) + rest == first + tail by {
      Assoc(first, "\\u", Hex4(low));
      Assoc(first, "\\u" + Hex4(low), rest);
    }
    ReadHex4(high, tail);
    ReadHex4(low, rest);
    LowHalfReads(low, rest);
    assert (first + tail)[12..] == (first + tail)[6..][6..];
  }

  lemma UnescapeUnit(s: string)
    requires s != ""
    ensures Unescape(s) == Unit(s).0 + Unescape(s[Unit(s).1..])
  {
    hide Unit;
  }

  /** A printed character is one unit of the decoder, whatever follows. */
  lemma UnitOfEscape(c: char, rest: string)
    ensures Unit(EscapeChar(c) + rest) == ([c], |EscapeChar(c)|)
  {
    hide Hex4, ReadUnicodeEscape;
    var code := c as int;
    if c == '\\' || c == '"' {
      EscapedMark(EscapeChar(c) + rest);
    } else if 0xFF < code <= 0xFFFF {
      ReadHex4(code, rest);
    } else if 0xFFFF < code {
      hide Unit;
      UnitOfPair(HighSurrogate(code), LowSurrogate(code), rest);
    }
  }

  lemma UnescapeEscapeChar(c: char, rest: string)
    ensures Unescape(EscapeChar(c) + rest) == [c] + Unescape(rest)
  {
    UnitOfEscape(c, rest);
    UnescapeUnit(EscapeChar(c) + rest);
    hide EscapeChar, Unit, Unescape;
    assert (EscapeChar(c) + rest)[|EscapeChar(c)|..] == rest;
  }

  lemma EscapedMark(s: string)
    requires |s| >= 2 && (s[1] == '\\' || s[1] == '"')
    ensures ReadUnicodeEscape(s, 1).None?
  {
  }

  /** Decoding undoes printing, for every string of Unicode scalar values. */
  lemma {:induction false} UnescapeEscape(s: string)
    ensures Unescape(Escape(s)) == s
  {
    hide EscapeChar;
    if s != "" {
      UnescapeEscapeChar(s[0], Escape(s[1..]));
      UnescapeEscape(s[1..]);
    }
  }

  /** Text the scanner walks over without closing the string or leaving an escape open. */
  lemma {:induction false} ScanPlain(w: string, rest: string)
    requires forall i :: 0 <= i < |w| ==> w[i] != '\\' && w[i] != '"'
    ensures CloseQuote(w + rest, false)
            == var n := CloseQuote(rest, false); if n.None? then None else Some(n.value + |w|)
  {
    if w == "" {
      assert w + rest == rest;
    } else {
      assert (w + rest)[1..] == w[1..] + rest;
      ScanPlain(w[1..], rest);
    }
  }

  lemma ScanUnicode(n: nat, rest: string)
    requires n < 0x10000
    ensures CloseQuote("\\u" + Hex4(n) + rest, false)
            == var n := CloseQuote(rest, false); if n.None? then None else Some(n.value + 6)
  {
    hide Hex4;
    var s := "\\u" + Hex4(n) + rest;
    assert s[1..][1..] == Hex4(n) + rest;
    ScanPlain(Hex4(n), rest);
  }

  lemma ScanPair(c: char, rest: string)
    ensures CloseQuote(['\\', c] + rest, false)
            == var n := CloseQuote(rest, false); if n.None? then None else Some(n.value + 2)
  {
  }

  /** Two units in a row, as characters above U+FFFF print. */
  lemma ScanUnicodePair(high: nat, low: nat, rest: string)
    requires high < 0x10000 && low < 0x10000
    ensures CloseQuote("\\u" + Hex4(high) + "\\u" + Hex4(low) + rest, false)
            == var n := CloseQuote(rest, false); if n.None? then None else Some(n.value + 12)
  {
    hide Hex4, CloseQuote;
    var first, second := "\\u" + Hex4(high), "\\u" + Hex4(low);
    Assoc(first, "\\u", Hex4(low));
    Assoc(first, second, rest);
    ScanUnicode(high, second + rest);
    ScanUnicode(low, rest);
  }

  lemma ScanEscapeChar(c: char, rest: string)
    ensures CloseQuote(EscapeChar(c) + rest, false)
            == var n := CloseQuote(rest, false);
               if n.None? then None else Some(n.value + |EscapeChar(c)|)
  {
    hide Hex4, CloseQuote, HighSurrogate, LowSurrogate;
    var code := c as int;
    if c == '\\' || c == '"' {
      ScanPair(c, rest);
    } else if code <= 0xFF {
      ScanPlain([c], rest);
    } else if code <= 0xFFFF {
      ScanUnicode(code, rest);
    } else {
      ScanUnicodePair(HighSurrogate(code), LowSurrogate(code), rest);
    }
  }

  lemma CloseAtOnce(rest: string)
    ensures CloseQuote("\"" + rest, false) == Some(0)
  {
  }

  /** The scanner stops exactly at the quote printed after an escaped string. */
  lemma {:induction false} ScanEscape(s: string, rest: string)
    ensures CloseQuote(Escape(s) + ("\"" + rest), false) == Some(|Escape(s)|)
  {
    hide Escape, EscapeChar, CloseQuote;
    if |s| == 0 {
      EscapeNil(s);
      assert Escape(s) + ("\"" + rest) == "\"" + rest;
      CloseAtOnce(rest);
    } else {
      var tail := Escape(s[1..]) + ("\"" + rest);
      EscapeCons(s);
      Assoc(EscapeChar(s[0]), Escape(s[1..]), "\"" + rest);
      ScanEscapeChar(s[0], tail);
      ScanEscape(s[1..], rest);
    }
  }

  /** Reading a printed quoted-string gives the string back and leaves the rest. */
  lemma ReadQuotedEscape(s: string, rest: string)
    ensures ReadQuoted(Escape(s) + ("\"" + rest)) == Success((s, rest))
  {
    hide Escape, CloseQuote, Unescape;
    var text := Escape(s) + ("\"" + rest);
    ScanEscape(s, rest);
    UnescapeEscape(s);
    assert text[..|Escape(s)|] == Escape(s);
    assert text[|Escape(s)| + 1..] == rest;
  }
}
