/**
 Several challenges in one header value: the client's splitter, which must find them again
 although quoted values may contain commas, quotes, backslashes and scheme names.
 */
module ChallengeList {
  import opened Wrappers
  import opened TextScan
  import opened QuotedString
  import opened AuthParams
  import opened PaymentHeader

  // ---------- The splitter ----------

  /** The text between commas outside quotes; `field` is the current field so far. */
  function SplitFields(s: string, field: string, quoted: bool, escaped: bool): seq<string> {
    if s == "" then [field]
    else if escaped then SplitFields(s[1..], field + [s[0]], quoted, false)
    else if quoted && s[0] == '\\' then SplitFields(s[1..], field + [s[0]], quoted, true)
    else if s[0] == '"' then SplitFields(s[1..], field + [s[0]], !quoted, false)
    else if s[0] == ',' && !quoted then [field] + SplitFields(s[1..], "", quoted, false)
    else SplitFields(s[1..], field + [s[0]], quoted, false)
  }

  /** Whether a field begins another scheme: no '=' before its first space, none after it. */
  predicate BeginsScheme(field: string) {
    var n := IndexOf(field, ' ');
    var remainder := if n < |field| then LStrip(field[n + 1..]) else "";
    '=' !in field[..n] && !(remainder != "" && remainder[0] == '=')
  }

  /** A parameter stays with its challenge, whatever white space stands around its '='. */
  lemma SpacedParamContinues(name: string, before: string, rest: string)
    requires '=' !in name && ' ' !in name && AllSpace(before)
    ensures !BeginsScheme(name + before + ("=" + rest))
  {
    var field, tail := name + before + ("=" + rest), "=" + rest;
    var n := IndexOf(field, ' ');
    assert field[|name| + |before|] == '=';
    if n < |name| + |before| {
      assert |name| <= n && field[n + 1..] == before[n + 1 - |name|..] + tail;
      LStripPadded(before[n + 1 - |name|..], tail);
      assert LStrip(tail) == tail;
    } else {
      assert field[..n][|name| + |before|] == '=';
    }
  }

  /** Any other text after a name and a space makes that name a scheme. */
  lemma OtherTextBegins(name: string, rest: string)
    requires '=' !in name && ' ' !in name && (LStrip(rest) == "" || LStrip(rest)[0] != '=')
    ensures BeginsScheme(name + (" " + rest))
  {
    var field := name + (" " + rest);
    var n := IndexOf(field, ' ');
    assert field[|name|] == ' ';
    assert forall i :: 0 <= i < |name| ==> field[i] == name[i];
    assert n == |name| && field[..n] == name && field[n + 1..] == rest;
  }

  predicate IsPaymentScheme(field: string) {
    LowerAll(field[..IndexOf(field, ' ')]) == "payment"
  }

  function Flush(current: seq<string>): seq<string> {
    if current == [] then [] else [Join(current)]
  }

  /** Fields collected into Payment challenges; `current` is empty outside of one. */
  function Group(fields: seq<string>, current: seq<string>): seq<string> {
    if fields == [] then Flush(current)
    else
      var field := Strip(fields[0]);
      if BeginsScheme(field)
      then Flush(current) + Group(fields[1..], if IsPaymentScheme(field) then [field] else [])
      else Group(fields[1..], if current != [] then current + [field] else [])
  }

  function Challenges(value: string): seq<string> {
    if |value| > MAX_AUTHORIZATION_SIZE then [] else Group(SplitFields(value, "", false, false), [])
  }

  lemma ConcatAssoc(a: seq<string>, b: seq<string>, c: seq<string>)
    ensures a + b + c == a + (b + c)
  {
  }

  lemma GrowSlice(s: string, start: nat, index: nat)
    requires start <= index < |s|
    ensures s[start..index] + [s[index]] == s[start..index + 1]
  {
  }

  method SplitAtCommas(value: string) returns (fields: seq<string>)
    ensures fields == SplitFields(value, "", false, false)
  {
    fields := [];
    var start := 0;
    var quoted, escaped := false, false;
    assert value[0..] == value && value[0..0] == "";
    for index := 0 to |value|
      invariant start <= index
      invariant fields + SplitFields(value[index..], value[start..index], quoted, escaped)
                == SplitFields(value, "", false, false)
    {
      var character := value[index];
      TailOf(value, index);
      GrowSlice(value, start, index);
      ConcatAssoc(fields, [value[start..index]], SplitFields(value[index + 1..], "", quoted, false));
      if escaped {
        escaped := false;
      } else if quoted && character == '\\' {
        escaped := true;
      } else if character == '"' {
        quoted := !quoted;
      } else if character == ',' && !quoted {
        fields := fields + [value[start..index]];
        start := index + 1;
        assert value[start..index + 1] == "";
      }
    }
    assert value[start..|value|] == value[start..] && value[|value|..] == "";
    fields := fields + [value[start..]];
  }

  /** The two loops of the splitter: commas first, then schemes. */
  method PaymentChallenges(value: string) returns (challenges: seq<string>)
    ensures challenges == Challenges(value)
  {
    if |value| > MAX_AUTHORIZATION_SIZE {
      return [];
    }
    hide BeginsScheme, IsPaymentScheme, Strip, SplitFields, Flush;
    var fields := SplitAtCommas(value);
    challenges := [];
    var current: seq<string> := [];
    assert fields[0..] == fields;
    for index := 0 to |fields|
      invariant challenges + Group(fields[index..], current) == Group(fields, [])
    {
      var field := Strip(fields[index]);
      assert fields[index..][1..] == fields[index + 1..];
      if BeginsScheme(field) {
        var next := if IsPaymentScheme(field) then [field] else [];
        ConcatAssoc(challenges, Flush(current), Group(fields[index + 1..], next));
        challenges, current := challenges + Flush(current), next;
      } else if current != [] {
        current := current + [field];
      }
    }
    assert fields[|fields|..] == [];
    challenges := challenges + Flush(current);
  }

  // ---------- Scanning printed parameters ----------

  /** The scanner's quoted and escaped flags after `s`; None if it saw a comma outside quotes. */
  function Scan(s: string, quoted: bool, escaped: bool): Option<(bool, bool)> {
    if s == "" then Some((quoted, escaped))
    else if escaped then Scan(s[1..], quoted, false)
    else if quoted && s[0] == '\\' then Scan(s[1..], quoted, true)
    else if s[0] == '"' then Scan(s[1..], !quoted, false)
    else if s[0] == ',' && !quoted then None
    else Scan(s[1..], quoted, false)
  }

  lemma {:induction false} ScanAppend(a: string, b: string, quoted: bool, escaped: bool)
    ensures Scan(a + b, quoted, escaped)
            == var r := Scan(a, quoted, escaped); if r.None? then None else Scan(b, r.value.0, r.value.1)
  {
    if a == "" {
      assert a + b == b;
    } else {
      assert (a + b)[1..] == a[1..] + b;
      if escaped {
        ScanAppend(a[1..], b, quoted, false);
      } else if quoted && a[0] == '\\' {
        ScanAppend(a[1..], b, quoted, true);
      } else if a[0] == '"' {
        ScanAppend(a[1..], b, !quoted, false);
      } else {
        ScanAppend(a[1..], b, quoted, false);
      }
    }
  }

  lemma {:induction false} ScanPlainText(s: string, quoted: bool)
    requires forall i :: 0 <= i < |s| ==> s[i] != '\\' && s[i] != '"' && s[i] != ','
    ensures Scan(s, quoted, false) == Some((quoted, false))
  {
    if s != "" {
      ScanPlainText(s[1..], quoted);
    }
  }

  lemma ScanUnicodeUnit(n: nat)
    requires n < 0x10000
    ensures Scan("\\u" + Hex4(n), true, false) == Some((true, false))
  {
    hide Hex4;
    var h := Hex4(n);
    forall i | 0 <= i < |h|
      ensures h[i] != '\\' && h[i] != '"' && h[i] != ','
    {
      assert IsHex(h[i]);
    }
    ScanPlainText(h, true);
    assert ("\\u" + h)[1..][1..] == h;
  }

  lemma ScanInside(c: char)
    ensures Scan(EscapeChar(c), true, false) == Some((true, false))
  {
    hide Hex4;
    var code := c as int;
    if c == '\\' || c == '"' {
      assert ['\\', c][1..] == [c] && [c][1..] == "";
      assert Scan([c], true, true) == Scan("", true, false);
    } else if code <= 0xFF {
      assert [c][1..] == "";
    } else {
      hide Scan;
      if code <= 0xFFFF {
        ScanUnicodeUnit(code);
      } else {
        var high, low := "\\u" + Hex4(HighSurrogate(code)), "\\u" + Hex4(LowSurrogate(code));
        Assoc(high, "\\u", Hex4(LowSurrogate(code)));
        ScanAppend(high, low, true, false);
        ScanUnicodeUnit(HighSurrogate(code));
        ScanUnicodeUnit(LowSurrogate(code));
      }
    }
  }

  lemma {:induction false} ScanEscaped(s: string)
    ensures Scan(Escape(s), true, false) == Some((true, false))
  {
    hide EscapeChar;
    if s != "" {
      ScanInside(s[0]);
      ScanEscaped(s[1..]);
      ScanAppend(EscapeChar(s[0]), Escape(s[1..]), true, false);
    }
  }

  /** Text whose quotes and escapes are closed and that shows no comma outside them. */
  predicate Closed(s: string) {
    Scan(s, false, false) == Some((false, false))
  }

  lemma ScanName(name: string)
    requires ValidName(name)
    ensures Closed(name)
  {
    ScanPlainText(name, false);
  }

  lemma ScanMarks()
    ensures Scan("=\"", false, false) == Some((true, false))
    ensures Scan("\"", true, false) == Some((false, false))
  {
  }

  /** A printed parameter is closed, whatever its value contains. */
  lemma PrintIsClosed(p: Param)
    requires ValidName(p.name)
    ensures Closed(Print(p))
  {
    hide Scan, Escape, ValidName;
    ScanName(p.name);
    ScanMarks();
    ScanEscaped(p.value);
    ScanAppend(Escape(p.value), "\"", true, false);
    ScanAppend("=\"", Escape(p.value) + "\"", false, false);
    ScanAppend(p.name, "=\"" + (Escape(p.value) + "\""), false, false);
  }

  /** The splitter takes closed text into the current field. */
  lemma {:induction false} SplitScanned(s: string, rest: string, field: string, quoted: bool, escaped: bool)
    requires Scan(s, quoted, escaped).Some?
    ensures var (q, e) := Scan(s, quoted, escaped).value;
            SplitFields(s + rest, field, quoted, escaped) == SplitFields(rest, field + s, q, e)
  {
    if s == "" {
      assert s + rest == rest && field + s == field;
    } else {
      assert (s + rest)[1..] == s[1..] + rest;
      assert field + [s[0]] + s[1..] == field + s;
      if escaped {
        SplitScanned(s[1..], rest, field + [s[0]], quoted, false);
      } else if quoted && s[0] == '\\' {
        SplitScanned(s[1..], rest, field + [s[0]], quoted, true);
      } else if s[0] == '"' {
        SplitScanned(s[1..], rest, field + [s[0]], !quoted, false);
      } else {
        SplitScanned(s[1..], rest, field + [s[0]], quoted, false);
      }
    }
  }

  // ---------- Printed lists ----------

  /** A challenge of any scheme, which may have no parameters. */
  datatype Printed = Printed(scheme: string, ps: seq<Param>)

  /** The comma-separated pieces of a printed challenge, the scheme on the first. */
  function Pieces(d: Printed): seq<string> {
    if d.ps == [] then [d.scheme] else [d.scheme + " " + Print(d.ps[0])] + PrintAll(d.ps[1..])
  }

  function Form(d: Printed): string {
    if d.ps == [] then d.scheme else d.scheme + " " + Join(PrintAll(d.ps))
  }

  function Forms(ds: seq<Printed>): seq<string> {
    if ds == [] then [] else [Form(ds[0])] + Forms(ds[1..])
  }

  /** The forms of the Payment scheme alone. */
  function PaymentForms(ds: seq<Printed>): seq<string> {
    if ds == [] then []
    else if IsPayment(ds[0].scheme) then [Form(ds[0])] + PaymentForms(ds[1..])
    else PaymentForms(ds[1..])
  }

  function AllPieces(ds: seq<Printed>): seq<string> {
    if ds == [] then [] else Pieces(ds[0]) + AllPieces(ds[1..])
  }

  /** The scheme is a token, and the parameters have valid names. */
  predicate Printable(d: Printed) {
    IsHeaderName(d.scheme) && forall p :: p in d.ps ==> ValidName(p.name)
  }

  predicate AllPrintable(ds: seq<Printed>) {
    forall i :: 0 <= i < |ds| ==> Printable(ds[i])
  }

  lemma {:induction false} JoinAppend(a: seq<string>, b: seq<string>)
    requires a != [] && b != []
    ensures Join(a + b) == Join(a) + (", " + Join(b))
  {
    assert (a + b)[1..] == a[1..] + b;
    if |a| == 1 {
      assert a[1..] + b == b;
    } else {
      JoinAppend(a[1..], b);
      Assoc(", ", Join(a[1..]), ", " + Join(b));
      Assoc(a[0], ", " + Join(a[1..]), ", " + Join(b));
    }
  }

  lemma JoinPieces(d: Printed)
    ensures Join(Pieces(d)) == Form(d)
  {
    hide Print;
    if d.ps != [] {
      var first, more := d.scheme + " " + Print(d.ps[0]), PrintAll(d.ps[1..]);
      assert PrintAll(d.ps)[1..] == more && Pieces(d)[1..] == more;
      if more != [] {
        Assoc(d.scheme + " ", Print(d.ps[0]), ", " + Join(more));
      }
    }
  }

  /** Joining the challenges is joining their pieces. */
  lemma {:induction false} JoinForms(ds: seq<Printed>)
    ensures Join(Forms(ds)) == Join(AllPieces(ds))
  {
    hide Form, Pieces;
    if ds != [] {
      JoinPieces(ds[0]);
      JoinForms(ds[1..]);
      PiecesNonEmpty(ds[0]);
      if |ds| == 1 {
        assert AllPieces(ds) == Pieces(ds[0]);
      } else {
        PiecesNonEmpty(ds[1]);
        assert AllPieces(ds[1..]) != [];
        JoinAppend(Pieces(ds[0]), AllPieces(ds[1..]));
        assert Forms(ds)[1..] == Forms(ds[1..]);
      }
    }
  }

  lemma PiecesNonEmpty(d: Printed)
    ensures Pieces(d) != []
  {
  }

  /** What the splitter sees: every piece but the first follows a space. */
  function Spaced(pieces: seq<string>): seq<string> {
    if pieces == [] then [] else [" " + pieces[0]] + Spaced(pieces[1..])
  }

  lemma {:induction false} SplitPieces(pieces: seq<string>, prefix: string)
    requires pieces != [] && forall t :: t in pieces ==> Closed(t)
    requires prefix == "" || prefix == " "
    ensures SplitFields(prefix + Join(pieces), "", false, false) == [prefix + pieces[0]] + Spaced(pieces[1..])
  {
    hide Scan;
    var t := prefix + pieces[0];
    SpaceKeepsClosed(prefix, pieces[0]);
    if |pieces| == 1 {
      SplitScanned(t, "", "", false, false);
      assert t + "" == t && "" + t == t;
    } else {
      var rest := ", " + Join(pieces[1..]);
      Assoc(prefix, pieces[0], rest);
      SplitScanned(t, rest, "", false, false);
      assert "" + t == t && rest[1..] == " " + Join(pieces[1..]);
      SplitPieces(pieces[1..], " ");
    }
  }

  lemma SpaceKeepsClosed(prefix: string, t: string)
    requires (prefix == "" || prefix == " ") && Closed(t)
    ensures Closed(prefix + t)
  {
    ScanPlainText(prefix, false);
    ScanAppend(prefix, t, false, false);
  }

  // ---------- Grouping ----------

  lemma {:induction false} IndexPast(s: string, m: nat)
    requires m <= |s| && forall i :: 0 <= i < m ==> s[i] != ' '
    ensures IndexOf(s, ' ') >= m
  {
  }

  lemma KeyCharFacts(c: char)
    requires IsKeyChar(c)
    ensures c != ' ' && c != '='
  {
  }

  /** A printed parameter continues the current challenge. */
  lemma ParamContinues(p: Param)
    requires ValidName(p.name)
    ensures !BeginsScheme(Print(p))
  {
    hide Escape;
    var s, n := Print(p), |p.name|;
    forall i | 0 <= i < n + 1
      ensures s[i] != ' '
    {
      if i < n {
        KeyCharFacts(s[i]);
      }
    }
    assert s[n] == '=';
    IndexPast(s, n + 1);
    assert s[..IndexOf(s, ' ')][n] == '=';
  }

  /** No character of a scheme's name means anything to the splitter. */
  lemma SchemeChars(scheme: string)
    requires IsHeaderName(scheme)
    ensures forall i :: 0 <= i < |scheme| ==> scheme[i] != ' ' && scheme[i] != '=' && !IsSpace(scheme[i])
    ensures forall i :: 0 <= i < |scheme| ==> scheme[i] != '\\' && scheme[i] != '"' && scheme[i] != ','
  {
  }

  /** A printed challenge begins its scheme, and is taken exactly if that is Payment. */
  lemma FormBegins(scheme: string, p: Param)
    requires IsHeaderName(scheme) && ValidName(p.name)
    ensures var s := scheme + " " + Print(p); BeginsScheme(s) && (IsPaymentScheme(s) <==> IsPayment(scheme))
  {
    hide Print, LStrip, LowerAll, IsPayment;
    PrintIsFramed(p);
    SchemeChars(scheme);
    hide IsHeaderName;
    var s, n := scheme + " " + Print(p), |scheme|;
    assert forall i :: 0 <= i < n ==> s[i] == scheme[i];
    IndexPast(s, n);
    assert s[n] == ' ';
    SpaceAt(s, n);
    assert s[..n] == scheme && s[n + 1..] == Print(p);
    FramedLStrips(Print(p));
    KeyCharFacts(Print(p)[0]);
    IsPaymentLowers(scheme);
  }

  /** So does a scheme on its own. */
  lemma BareBegins(scheme: string)
    requires IsHeaderName(scheme)
    ensures BeginsScheme(scheme) && (IsPaymentScheme(scheme) <==> IsPayment(scheme))
    ensures Strip(scheme) == scheme && Strip(" " + scheme) == scheme
  {
    hide LowerAll, IsPayment;
    SchemeChars(scheme);
    hide IsHeaderName;
    IndexPast(scheme, |scheme|);
    assert scheme[..|scheme|] == scheme;
    IsPaymentLowers(scheme);
    StripSpaced(scheme);
  }

  lemma StripSpaced(t: string)
    requires t != "" && !IsSpace(t[0]) && !IsSpace(t[|t| - 1])
    ensures Strip(t) == t && Strip(" " + t) == t
  {
    StripKeeps(t);
    assert (" " + t)[1..] == t && IsSpace(' ');
    assert LStrip(" " + t) == LStrip(t);
  }

  lemma {:induction false} SpaceAt(s: string, m: nat)
    requires m < |s| && s[m] == ' '
    ensures IndexOf(s, ' ') <= m
  {
    if m > 0 {
      SpaceAt(s[1..], m - 1);
    }
  }

  lemma FramedLStrips(s: string)
    requires Framed(s)
    ensures LStrip(s) == s
  {
  }

  lemma StripFramed(t: string, scheme: string)
    requires Framed(t) && IsHeaderName(scheme)
    ensures Strip(t) == t && Strip(" " + t) == t
    ensures Strip(scheme + " " + t) == scheme + " " + t && Strip(" " + (scheme + " " + t)) == scheme + " " + t
  {
    SchemeChars(scheme);
    KeyCharIsNotSeparator(t[0]);
    hide IsHeaderName, Strip;
    StripSpaced(t);
    StripSpaced(scheme + " " + t);
  }

  lemma GroupOne(field: string, rest: seq<string>, current: seq<string>)
    ensures Group([field] + rest, current)
            == var f := Strip(field);
               if BeginsScheme(f)
               then Flush(current) + Group(rest, if IsPaymentScheme(f) then [f] else [])
               else Group(rest, if current != [] then current + [f] else [])
  {
  }

  /** The further pieces of a challenge join it, if it is collected at all. */
  lemma {:induction false} GroupRest(ps: seq<Param>, rest: seq<string>, current: seq<string>)
    requires forall p :: p in ps ==> ValidName(p.name)
    ensures Group(Spaced(PrintAll(ps)) + rest, current)
            == Group(rest, if current == [] then [] else current + PrintAll(ps))
  {
    hide Print, Strip, BeginsScheme, IsPaymentScheme, Flush, ValidName, Group, Spaced, Framed;
    if ps == [] {
      assert PrintAll(ps) == [] && Spaced([]) == [] by { SpacedNil(); }
      assert Spaced(PrintAll(ps)) + rest == rest && current + PrintAll(ps) == current;
    } else {
      var p, more := Print(ps[0]), PrintAll(ps[1..]);
      hide PrintAll;
      SpacedCons(p, more);
      ConcatAssoc([" " + p], Spaced(more), rest);
      GroupOne(" " + p, Spaced(more) + rest, current);
      PrintIsFramed(ps[0]);
      StripFramed(p, "a");
      ParamContinues(ps[0]);
      GroupRest(ps[1..], rest, if current == [] then [] else current + [p]);
      ConcatAssoc(current, [p], more);
    }
  }

  lemma SpacedNil()
    ensures Spaced([]) == []
  {
  }

  lemma SpacedCons(t: string, ts: seq<string>)
    ensures Spaced([t] + ts) == [" " + t] + Spaced(ts)
  {
  }

  /** What is collected of a printed challenge. */
  function Collected(d: Printed): seq<string> {
    if IsPayment(d.scheme) then Pieces(d) else []
  }

  /** The first piece of a printed challenge, after white space or not. */
  lemma FirstPiece(d: Printed, lead: string)
    requires Printable(d) && (lead == "" || lead == " ")
    ensures var f := Pieces(d)[0];
            Strip(lead + f) == f && BeginsScheme(f) && (IsPaymentScheme(f) <==> IsPayment(d.scheme))
  {
    hide Print, Strip, BeginsScheme, IsPaymentScheme, ValidName, IsPayment, IsHeaderName, Framed;
    var f := Pieces(d)[0];
    assert "" + f == f;
    if d.ps == [] {
      BareBegins(d.scheme);
    } else {
      PrintIsFramed(d.ps[0]);
      StripFramed(Print(d.ps[0]), d.scheme);
      FormBegins(d.scheme, d.ps[0]);
    }
  }

  /** One printed challenge among the fields ends the current one, and is collected or dropped. */
  lemma GroupForm(d: Printed, lead: string, rest: seq<string>, current: seq<string>)
    requires Printable(d) && (lead == "" || lead == " ")
    ensures Group([lead + Pieces(d)[0]] + Spaced(Pieces(d)[1..]) + rest, current)
            == Flush(current) + Group(rest, Collected(d))
  {
    FirstPiece(d, lead);
    PiecesSplit(d);
    hide Pieces, PrintAll, Strip, BeginsScheme, IsPaymentScheme, Flush, ValidName, Group, IsPayment, IsHeaderName, Spaced;
    var first, ps := Pieces(d)[0], OtherParams(d);
    var more := PrintAll(ps);
    ConcatAssoc([lead + first], Spaced(more), rest);
    GroupOne(lead + first, Spaced(more) + rest, current);
    GroupRest(ps, rest, if IsPayment(d.scheme) then [first] else []);
  }

  function OtherParams(d: Printed): seq<Param> {
    if d.ps == [] then [] else d.ps[1..]
  }

  lemma PiecesSplit(d: Printed)
    ensures Pieces(d) != [] && Pieces(d)[1..] == PrintAll(OtherParams(d))
    ensures Pieces(d) == [Pieces(d)[0]] + PrintAll(OtherParams(d))
  {
    hide Print;
  }

  lemma {:induction false} SpacedAppend(a: seq<string>, b: seq<string>)
    ensures Spaced(a + b) == Spaced(a) + Spaced(b)
  {
    if a == [] {
      assert a + b == b;
    } else {
      assert (a + b)[1..] == a[1..] + b;
      SpacedAppend(a[1..], b);
    }
  }

  /** Grouping the pieces of several challenges gives those of the Payment scheme. */
  lemma {:induction false} GroupForms(ds: seq<Printed>, current: seq<string>)
    requires AllPrintable(ds)
    ensures Group(Spaced(AllPieces(ds)), current) == Flush(current) + PaymentForms(ds)
  {
    hide Pieces, Form, Flush, Printable, IsPayment, Collected;
    if ds == [] {
      assert Flush(current) + PaymentForms(ds) == Flush(current);
    } else {
      assert Printable(ds[0]);
      GroupNext(ds, current, " ");
      GroupForms(ds[1..], Collected(ds[0]));
      FlushCollected(ds[0]);
      ConcatAssoc(Flush(current), Flush(Collected(ds[0])), PaymentForms(ds[1..]));
      assert [] + PaymentForms(ds[1..]) == PaymentForms(ds[1..]);
    }
  }

  lemma FlushCollected(d: Printed)
    ensures Flush(Collected(d)) == if IsPayment(d.scheme) then [Form(d)] else []
  {
    JoinPieces(d);
    hide Form, IsPayment;
  }

  lemma GroupNext(ds: seq<Printed>, current: seq<string>, lead: string)
    requires ds != [] && AllPrintable(ds) && (lead == "" || lead == " ")
    ensures Group([lead + AllPieces(ds)[0]] + Spaced(AllPieces(ds)[1..]), current)
            == Flush(current) + Group(Spaced(AllPieces(ds[1..])), Collected(ds[0]))
    ensures [" " + AllPieces(ds)[0]] + Spaced(AllPieces(ds)[1..]) == Spaced(AllPieces(ds))
  {
    hide Pieces, Flush, Group, Collected;
    var mine, others := Pieces(ds[0]), AllPieces(ds[1..]);
    PiecesNonEmpty(ds[0]);
    assert AllPieces(ds) == mine + others;
    assert (mine + others)[1..] == mine[1..] + others;
    SpacedAppend(mine[1..], others);
    var fields := [lead + mine[0]] + Spaced(mine[1..]) + Spaced(others);
    assert fields == [lead + mine[0]] + (Spaced(mine[1..]) + Spaced(others));
    GroupForm(ds[0], lead, Spaced(others), current);
  }

  lemma {:induction false} PrintAllClosed(ps: seq<Param>)
    requires forall p :: p in ps ==> ValidName(p.name)
    ensures forall t :: t in PrintAll(ps) ==> Closed(t)
  {
    hide Print, Closed, ValidName;
    if ps != [] {
      PrintIsClosed(ps[0]);
      PrintAllClosed(ps[1..]);
    }
  }

  lemma PiecesClosed(d: Printed)
    requires Printable(d)
    ensures forall t :: t in Pieces(d) ==> Closed(t)
  {
    hide Print, Scan, ValidName;
    SchemeChars(d.scheme);
    ScanPlainText(d.scheme, false);
    if d.ps != [] {
      ScanPlainText(" ", false);
      ScanAppend(d.scheme, " ", false, false);
      PrintIsClosed(d.ps[0]);
      ScanAppend(d.scheme + " ", Print(d.ps[0]), false, false);
      PrintAllClosed(d.ps[1..]);
    }
  }

  lemma {:induction false} AllPiecesClosed(ds: seq<Printed>)
    requires AllPrintable(ds)
    ensures forall t :: t in AllPieces(ds) ==> Closed(t)
  {
    hide Pieces, Closed, Printable;
    if ds != [] {
      assert Printable(ds[0]);
      PiecesClosed(ds[0]);
      AllPiecesClosed(ds[1..]);
    }
  }

  /**
   The splitter finds exactly the Payment challenges, in order and whole, among printed challenges
   of any schemes in any order and any letter case.
   */
  lemma SplitJoined(ds: seq<Printed>)
    requires AllPrintable(ds)
    ensures Group(SplitFields(Join(Forms(ds)), "", false, false), []) == PaymentForms(ds)
  {
    hide Pieces, Form, Closed, Printable, IsPayment, Collected;
    if ds == [] {
      EmptyHeader();
    } else {
      hide Group, SplitFields, Spaced;
      assert Printable(ds[0]);
      JoinForms(ds);
      AllPiecesClosed(ds);
      PiecesNonEmpty(ds[0]);
      var pieces := AllPieces(ds);
      SplitPieces(pieces, "");
      assert "" + Join(pieces) == Join(pieces) && "" + pieces[0] == pieces[0];
      GroupNext(ds, [], "");
      GroupForms(ds[1..], Collected(ds[0]));
      FlushCollected(ds[0]);
      assert Flush([]) + (Flush(Collected(ds[0])) + PaymentForms(ds[1..])) == PaymentForms(ds);
    }
  }

  lemma EmptyHeader()
    ensures Group(SplitFields("", "", false, false), []) == []
  {
  }

  // ---------- Whole header values ----------

  /** What a header value may list: a printed Payment challenge, its scheme in any case, or another scheme's. */
  datatype Item<J> =
    | Ours(scheme: string, challenge: Challenge<J>, realm: string)
    | Other(printed: Printed)

  ghost predicate ValidItem<J(!new)>(codec: Codec<J>, item: Item<J>) {
    match item
    case Ours(scheme, c, realm) => IsPayment(scheme) && ValidChallenge(codec, c, realm) && Format(codec, c, realm).Success?
    case Other(d) => Printable(d) && !IsPayment(d.scheme)
  }

  function TextOf<J(==)>(codec: Codec<J>, item: Item<J>): string {
    match item
    case Ours(scheme, c, realm) =>
      var text := Format(codec, c, realm);
      if text.Success? then Recased(scheme, text.value) else ""
    case Other(d) => Form(d)
  }

  function Texts<J(==)>(codec: Codec<J>, items: seq<Item<J>>): seq<string> {
    if items == [] then [] else [TextOf(codec, items[0])] + Texts(codec, items[1..])
  }

  /** The Payment challenges alone. */
  function OurTexts<J(==)>(codec: Codec<J>, items: seq<Item<J>>): seq<string> {
    if items == [] then []
    else if items[0].Ours? then [TextOf(codec, items[0])] + OurTexts(codec, items[1..])
    else OurTexts(codec, items[1..])
  }

  function PrintedOf<J(==)>(codec: Codec<J>, item: Item<J>): Printed {
    match item
    case Ours(scheme, c, realm) => Printed(scheme, ShownParams(Entries(codec, c, realm)))
    case Other(d) => d
  }

  function AllPrinted<J(==)>(codec: Codec<J>, items: seq<Item<J>>): seq<Printed> {
    if items == [] then [] else [PrintedOf(codec, items[0])] + AllPrinted(codec, items[1..])
  }

  lemma PaymentIsToken(scheme: string)
    requires IsPayment(scheme)
    ensures IsHeaderName(scheme)
  {
  }

  lemma TextIsForm<J(!new)>(codec: Codec<J>, item: Item<J>)
    requires Inverse(codec) && ValidItem(codec, item)
    ensures TextOf(codec, item) == Form(PrintedOf(codec, item)) && Printable(PrintedOf(codec, item))
    ensures item.Ours? <==> IsPayment(PrintedOf(codec, item).scheme)
  {
    hide ValidName, PrintAll, Join, IsPayment, IsHeaderName, ValidChallenge, Format, ShownParams;
    if item.Ours? {
      PaymentIsToken(item.scheme);
      FormatIsPrinted(codec, item.challenge, item.realm);
      var body := Join(PrintAll(ShownParams(Entries(codec, item.challenge, item.realm))));
      assert Recased(item.scheme, "Payment " + body) == item.scheme + " " + body;
    }
  }

  lemma FormatIsPrinted<J(!new)>(codec: Codec<J>, c: Challenge<J>, realm: string)
    requires Inverse(codec) && ValidChallenge(codec, c, realm) && Format(codec, c, realm).Success?
    ensures var ps := ShownParams(Entries(codec, c, realm));
            && Format(codec, c, realm).value == "Payment " + Join(PrintAll(ps))
            && ps != [] && forall p :: p in ps ==> ValidName(p.name)
  {
    hide Parts, ValidName, Name, PrintAll, Join, ValidChallenge;
    var es := Entries(codec, c, realm);
    EntriesAreSound(codec, c, realm);
    PartsArePrinted(es);
    ShownNamed(es);
    assert es[0].Shown() && ShownParams(es) != [];
  }

  lemma {:induction false} TextsAreForms<J(!new)>(codec: Codec<J>, items: seq<Item<J>>)
    requires Inverse(codec) && forall i :: 0 <= i < |items| ==> ValidItem(codec, items[i])
    ensures Texts(codec, items) == Forms(AllPrinted(codec, items)) && AllPrintable(AllPrinted(codec, items))
    ensures OurTexts(codec, items) == PaymentForms(AllPrinted(codec, items))
  {
    hide ValidItem, TextOf, Form, PrintedOf, Printable, IsPayment;
    if items != [] {
      TextIsForm(codec, items[0]);
      TextsAreForms(codec, items[1..]);
      assert AllPrinted(codec, items)[1..] == AllPrinted(codec, items[1..]);
    }
  }

  lemma {:induction false} TextAt<J(!new)>(codec: Codec<J>, items: seq<Item<J>>, i: nat)
    requires i < |items|
    ensures |Texts(codec, items)| == |items| && Texts(codec, items)[i] == TextOf(codec, items[i])
    ensures |Texts(codec, items)[i]| <= |Join(Texts(codec, items))|
  {
    hide TextOf;
    if |items| > 1 {
      TextAt(codec, items[1..], if i > 0 then i - 1 else 0);
      assert Texts(codec, items)[1..] == Texts(codec, items[1..]);
    }
  }

  /**
   The wire round trip: valid challenges printed in one header value within the size limit, with
   challenges of other schemes anywhere among them, are split back into exactly the printed Payment
   challenges in order, and parsing each gives back its challenge.
   */
  lemma WireRoundTrip<J(!new)>(codec: Codec<J>, items: seq<Item<J>>)
    requires Inverse(codec) && forall i :: 0 <= i < |items| ==> ValidItem(codec, items[i])
    requires |Join(Texts(codec, items))| <= 65536
    ensures Challenges(Join(Texts(codec, items))) == OurTexts(codec, items)
    ensures forall i :: 0 <= i < |items| && items[i].Ours? ==>
      Parse(codec, TextOf(codec, items[i])) == Success(Seen(codec, items[i].challenge, items[i].realm))
  {
    hide ValidChallenge, Format, Seen, Parse, Join, Group, SplitFields, AllPrintable, IsPayment;
    TextsAreForms(codec, items);
    SplitJoined(AllPrinted(codec, items));
    forall i | 0 <= i < |items| && items[i].Ours?
      ensures Parse(codec, TextOf(codec, items[i])) == Success(Seen(codec, items[i].challenge, items[i].realm))
    {
      TextAt(codec, items, i);
      assert ValidItem(codec, items[i]);
      RecasedLength(codec, items[i]);
      ParseFormat(codec, items[i].challenge, items[i].realm, items[i].scheme);
    }
  }

  lemma RecasedLength<J(!new)>(codec: Codec<J>, item: Item<J>)
    requires item.Ours? && ValidItem(codec, item)
    ensures |TextOf(codec, item)| == |Format(codec, item.challenge, item.realm).value|
  {
    hide Parts, Join, ValidChallenge, Entries;
  }
}
