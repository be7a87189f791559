/**
 The value of one WWW-Authenticate field that carries a challenge: its printer and its parser. JSON and base64url
 are an inverse pair of unseen functions whose encodings are base64url tokens.
 */
module PaymentHeader {
  import opened Wrappers
  import opened TextScan
  import opened QuotedString
  import opened AuthParams

  const MAX_HEADER_PAYLOAD_SIZE: nat := 16 * 1024

  datatype Codec<!J(==)> = Codec(encode: J -> string, decode: string -> Option<J>)

  datatype Challenge<J> = Challenge(
    id: string, realm: string, methodId: string, intent: string, request: J, requestB64: string,
    digest: Option<string>, expires: Option<string>, description: Option<string>,
    header: Option<string>, opaqueData: Option<J>, opaqueB64: Option<string>)

  datatype Field =
    | Id | Realm | Method | Intent | Request | Digest | Expires | Description | Header | Opaque

  function Name(f: Field): string {
    match f
    case Id => "id"
    case Realm => "realm"
    case Method => "method"
    case Intent => "intent"
    case Request => "request"
    case Digest => "digest"
    case Expires => "expires"
    case Description => "description"
    case Header => "header"
    case Opaque => "opaque"
  }

  lemma NamesAreInjective()
    ensures forall f, g :: Name(f) == Name(g) ==> f == g
  {
  }

  lemma NamesAreValid(f: Field)
    ensures ValidName(Name(f))
  {
  }

  // ---------- Field syntax ----------

  predicate IsToken(s: string) {
    s != "" && forall i :: 0 <= i < |s| ==> IsKeyChar(s[i])
  }

  /** Strict base64url with up to two padding characters. */
  predicate IsBase64Url(s: string) {
    || IsToken(s)
    || (|s| > 1 && s[|s| - 1] == '=' && IsToken(s[..|s| - 1]))
    || (|s| > 2 && s[|s| - 1] == '=' && s[|s| - 2] == '=' && IsToken(s[..|s| - 2]))
  }

  /** That is a token with at most two padding characters after it. */
  lemma PaddedIsBase64Url(token: string, padding: string)
    requires padding == "" || padding == "=" || padding == "=="
    ensures IsToken(token) ==> IsBase64Url(token + padding)
  {
    assert (token + padding)[..|token|] == token;
  }

  lemma Base64UrlIsPadded(s: string) returns (token: string, padding: string)
    requires IsBase64Url(s)
    ensures IsToken(token) && s == token + padding && (padding == "" || padding == "=" || padding == "==")
  {
    token, padding := s, "";
    if !IsToken(s) {
      var n := if s[|s| - 2] != '=' || IsToken(s[..|s| - 1]) then |s| - 1 else |s| - 2;
      token, padding := s[..n], s[n..];
    }
  }

  predicate IsMethodId(s: string) {
    s != "" && 'a' <= s[0] <= 'z'
    && forall i :: 0 <= i < |s| ==>
         'a' <= s[i] <= 'z' || '0' <= s[i] <= '9' || s[i] == ':' || s[i] == '_' || s[i] == '-'
  }

  predicate IsHeaderName(s: string) {
    s != "" && forall i :: 0 <= i < |s| ==>
      'a' <= s[i] <= 'z' || 'A' <= s[i] <= 'Z' || '0' <= s[i] <= '9' || s[i] in "!#$%&'*+.^_`|~-"
  }

  predicate IsDefaultHeader(h: string) {
    h == "" || LowerAll(h) == "authorization"
  }

  /** Z or a numeric offset. */
  predicate IsZone(s: string) {
    s == "Z" || (|s| == 6 && (s[0] == '+' || s[0] == '-') && AllDigits(s[1..3]) && s[3] == ':' && AllDigits(s[4..]))
  }

  /** The date-time syntax of section 5.6 of RFC 3339, with an upper-case T. */
  predicate IsDateTime(s: string) {
    && |s| >= 20
    && AllDigits(s[..4]) && s[4] == '-' && AllDigits(s[5..7]) && s[7] == '-' && AllDigits(s[8..10])
    && s[10] == 'T' && AllDigits(s[11..13]) && s[13] == ':' && AllDigits(s[14..16]) && s[16] == ':'
    && AllDigits(s[17..19])
    && (IsZone(s[19..])
        || (s[19] == '.' && exists n :: 20 < n <= |s| && AllDigits(s[20..n]) && IsZone(s[n..])))
  }

  datatype Zone = Utc | Offset(ahead: bool, hours: string, minutes: string)

  /** The parts of a date-time, as they are written. */
  datatype DateTime = DateTime(
    year: string, month: string, day: string, hour: string, minute: string, second: string,
    fraction: Option<string>, zone: Zone)

  predicate Digits(s: string, n: nat) {
    |s| == n && AllDigits(s)
  }

  predicate ValidDateTime(d: DateTime) {
    && Digits(d.year, 4) && Digits(d.month, 2) && Digits(d.day, 2)
    && Digits(d.hour, 2) && Digits(d.minute, 2) && Digits(d.second, 2)
    && (d.fraction.Some? ==> d.fraction.value != "" && AllDigits(d.fraction.value))
    && (d.zone.Offset? ==> Digits(d.zone.hours, 2) && Digits(d.zone.minutes, 2))
  }

  function ZoneText(z: Zone): string {
    match z
    case Utc => "Z"
    case Offset(ahead, hours, minutes) => (if ahead then "+" else "-") + hours + ":" + minutes
  }

  lemma WrittenIsZone(z: Zone)
    requires z.Offset? ==> Digits(z.hours, 2) && Digits(z.minutes, 2)
    ensures IsZone(ZoneText(z))
  {
    if z.Offset? {
      assert ZoneText(z)[1..3] == z.hours && ZoneText(z)[4..] == z.minutes;
    }
  }

  lemma ZoneIsWritten(s: string) returns (z: Zone)
    requires IsZone(s)
    ensures ZoneText(z) == s && (z.Offset? ==> Digits(z.hours, 2) && Digits(z.minutes, 2))
  {
    z := if s == "Z" then Utc else Offset(s[0] == '+', s[1..3], s[4..]);
    if z.Offset? {
      assert ZoneText(z) == s;
    }
  }

  function Seconds(d: DateTime): string {
    d.year + "-" + d.month + "-" + d.day + "T" + d.hour + ":" + d.minute + ":" + d.second
  }

  function Tail(d: DateTime): string {
    (if d.fraction.Some? then "." + d.fraction.value else "") + ZoneText(d.zone)
  }

  lemma SecondsAreDateTime(d: DateTime, rest: string)
    requires ValidDateTime(d)
    ensures var s := Seconds(d) + rest;
            && |s| == 19 + |rest| && s[19..] == rest
            && AllDigits(s[..4]) && s[4] == '-' && AllDigits(s[5..7]) && s[7] == '-' && AllDigits(s[8..10])
            && s[10] == 'T' && AllDigits(s[11..13]) && s[13] == ':' && AllDigits(s[14..16]) && s[16] == ':'
            && AllDigits(s[17..19])
  {
    hide AllDigits, IsZone;
    var s := Seconds(d) + rest;
    assert s[..4] == d.year && s[5..7] == d.month && s[8..10] == d.day;
    assert s[11..13] == d.hour && s[14..16] == d.minute && s[17..19] == d.second;
  }

  /** Every date-time so written is accepted. */
  lemma WrittenIsDateTime(d: DateTime)
    requires ValidDateTime(d)
    ensures IsDateTime(Seconds(d) + Tail(d))
  {
    var s, rest, zone := Seconds(d) + Tail(d), Tail(d), ZoneText(d.zone);
    SecondsAreDateTime(d, rest);
    WrittenIsZone(d.zone);
    hide AllDigits, IsZone, Seconds, ZoneText;
    if d.fraction.Some? {
      var n := 20 + |d.fraction.value|;
      assert rest[1..n - 19] == d.fraction.value && rest[n - 19..] == zone;
      assert s[20..n] == rest[1..n - 19] && s[n..] == rest[n - 19..];
    } else {
      assert rest == zone;
    }
  }

  lemma Parted(s: string, i: nat, n: nat)
    requires i < n <= |s|
    ensures s[i..] == [s[i]] + s[i + 1..n] + s[n..]
  {
    assert s[i..] == [s[i]] + s[i + 1..];
    assert s[i + 1..] == s[i + 1..n] + s[n..];
  }

  /** Nothing else is. */
  lemma DateTimeIsWritten(s: string) returns (d: DateTime)
    requires IsDateTime(s)
    ensures ValidDateTime(d) && s == Seconds(d) + Tail(d)
  {
    hide AllDigits, IsZone, Seconds, ZoneText;
    var fraction, zone := None, s[19..];
    if !IsZone(s[19..]) {
      var n :| 20 < n <= |s| && AllDigits(s[20..n]) && IsZone(s[n..]);
      fraction, zone := Some(s[20..n]), s[n..];
      Parted(s, 19, n);
    }
    var z := ZoneIsWritten(zone);
    d := DateTime(s[..4], s[5..7], s[8..10], s[11..13], s[14..16], s[17..19], fraction, z);
    SecondsAre(s, d);
    assert s == s[..19] + s[19..];
    assert fraction.None? ==> Tail(d) == zone;
  }

  lemma SecondsAre(s: string, d: DateTime)
    requires |s| >= 19 && s[4] == s[7] == '-' && s[10] == 'T' && s[13] == s[16] == ':'
    requires d.year == s[..4] && d.month == s[5..7] && d.day == s[8..10]
    requires d.hour == s[11..13] && d.minute == s[14..16] && d.second == s[17..19]
    ensures Seconds(d) == s[..19]
  {
  }

  predicate IsDigest(s: string) {
    "sha-256=" <= s
  }

  // ---------- Printing ----------

  /** The encoding received is kept while it stands for the value held; otherwise the value is encoded. */
  function EncodedOpaque<J(==)>(codec: Codec<J>, c: Challenge<J>): Option<string> {
    if c.opaqueData.None? then None
    else if c.opaqueB64.Some? && c.opaqueB64.value != "" && codec.decode(c.opaqueB64.value) == c.opaqueData
    then c.opaqueB64
    else Some(codec.encode(c.opaqueData.value))
  }

  /** A field the printer may write: always, or only when it is not empty. */
  datatype Entry = Entry(field: Field, value: Option<string>, always: bool) {
    predicate Shown() {
      value.Some? && (always || value.value != "")
    }

    // The request and the opaque parameter are tokens, which are written as they are.
    predicate Raw() {
      field == Request || field == Opaque
    }
  }

  function Entries<J(==)>(codec: Codec<J>, c: Challenge<J>, realm: string): seq<Entry> {
    [Entry(Id, Some(c.id), true), Entry(Realm, Some(realm), true), Entry(Method, Some(c.methodId), true),
     Entry(Intent, Some(c.intent), true), Entry(Request, Some(codec.encode(c.request)), true),
     Entry(Digest, c.digest, false), Entry(Expires, c.expires, false),
     Entry(Description, c.description, false), Entry(Header, c.header, false),
     Entry(Opaque, EncodedOpaque(codec, c), true)]
  }

  function PrintRaw(name: string, token: string): string {
    name + ("=\"" + (token + "\""))
  }

  function Parts(es: seq<Entry>): seq<string> {
    if es == [] then []
    else
      var e := es[0];
      (if !e.Shown() then []
       else [if e.Raw() then PrintRaw(Name(e.field), e.value.value)
             else Print(Param(Name(e.field), e.value.value))])
      + Parts(es[1..])
  }

  predicate AnyCrLf(es: seq<Entry>) {
    exists i :: 0 <= i < |es| && es[i].Shown() && !es[i].Raw() && HasCrLf(es[i].value.value)
  }

  function Format<J(==)>(codec: Codec<J>, c: Challenge<J>, realm: string): Result<string, ParseError> {
    var es := Entries(codec, c, realm);
    if AnyCrLf(es) then Failure(CrLf) else Success("Payment " + Join(Parts(es)))
  }

  // ---------- Parsing ----------

  predicate Missing(v: Option<string>) {
    v.None? || v.value == ""
  }

  function Decode<J(==)>(codec: Codec<J>, encoded: string): Option<J> {
    if |encoded| > MAX_HEADER_PAYLOAD_SIZE then None else codec.decode(encoded)
  }

  function ParseFields<J(==)>(codec: Codec<J>, params: Params): Result<Challenge<J>, ParseError> {
    var id, realm, methodId := Lookup(params, Name(Id)), Lookup(params, Name(Realm)), Lookup(params, Name(Method));
    var intent, request, opaqueB64 := Lookup(params, Name(Intent)), Lookup(params, Name(Request)), Lookup(params, Name(Opaque));
    var header, digest, expires := Lookup(params, Name(Header)), Lookup(params, Name(Digest)), Lookup(params, Name(Expires));
    if Missing(id) then Failure(MissingField(Name(Id)))
    else if Missing(realm) then Failure(MissingField(Name(Realm)))
    else if Missing(methodId) then Failure(MissingField(Name(Method)))
    else if !IsMethodId(methodId.value) then Failure(InvalidMethod)
    else if Missing(intent) then Failure(MissingField(Name(Intent)))
    else if Missing(request) then Failure(MissingField(Name(Request)))
    else if Decode(codec, request.value).None? then Failure(InvalidPayload)
    else if !Missing(opaqueB64) && Decode(codec, opaqueB64.value).None? then Failure(InvalidPayload)
    else if header.Some? && !IsDefaultHeader(header.value) && !IsHeaderName(header.value)
    then Failure(InvalidHeaderName)
    else if !Missing(digest) && !IsDigest(digest.value) then Failure(InvalidDigest)
    else if !Missing(expires) && !IsDateTime(expires.value) then Failure(InvalidExpires)
    else Success(Challenge(
      id.value, realm.value, methodId.value, intent.value,
      Decode(codec, request.value).value, request.value,
      digest, expires, Lookup(params, Name(Description)),
      if header.Some? && !IsDefaultHeader(header.value) then header else None,
      if Missing(opaqueB64) then None else Decode(codec, opaqueB64.value),
      if !Missing(opaqueB64) && IsBase64Url(opaqueB64.value) then opaqueB64 else None))
  }

  predicate HasScheme(h: string) {
    |h| >= 8 && LowerAll(h[..8]) == "payment "
  }

  /** What parse_www_authenticate returns for a header value. */
  function Parse<J(==)>(codec: Codec<J>, text: string): Result<Challenge<J>, ParseError> {
    if |text| > MAX_AUTHORIZATION_SIZE then Failure(TooLong)
    else if !HasScheme(Strip(text)) then Failure(WrongScheme)
    else
      var params := ParseFrom(Strip(Strip(text)[8..]), map[]);
      if params.Failure? then Failure(params.error) else ParseFields(codec, params.value)
  }

  method ParseWwwAuthenticate<J(==)>(codec: Codec<J>, text: string)
    returns (r: Result<Challenge<J>, ParseError>)
    ensures r == Parse(codec, text)
  {
    hide Strip, ParseFrom, ParseFields, LowerAll;
    if |text| > MAX_AUTHORIZATION_SIZE {
      return Failure(TooLong);
    }
    var header := Strip(text);
    StripShortens(text);
    if !HasScheme(header) {
      return Failure(WrongScheme);
    }
    StripShortens(header[8..]);
    var params := ParseAuthParams(Strip(header[8..]));
    if params.Failure? {
      return Failure(params.error);
    }
    return ParseFields(codec, params.value);
  }

  lemma StripShortens(s: string)
    ensures |Strip(s)| <= |s|
  {
  }

  // ---------- What is accepted ----------

  /** The characters of a method name, by code point. */
  lemma MethodCharsAre(s: string)
    ensures IsMethodId(s) <==>
              && s != "" && 0x61 <= s[0] as int <= 0x7A
              && forall i :: 0 <= i < |s| ==>
                   var n := s[i] as int; n == 0x2D || 0x30 <= n <= 0x3A || n == 0x5F || 0x61 <= n <= 0x7A
  {
  }

  predicate IsDelimiter(c: char) {
    c in "\"(),/:;<=>?@[\\]{}"
  }

  lemma HeaderCharIs(c: char)
    ensures 'a' <= c <= 'z' || 'A' <= c <= 'Z' || '0' <= c <= '9' || c in "!#$%&'*+.^_`|~-"
            <==> 0x21 <= c as int <= 0x7E && !IsDelimiter(c)
  {
  }

  /** A header name has the visible ASCII characters but the delimiters of section 5.6.2 of RFC 9110. */
  lemma HeaderCharsAre(s: string)
    ensures IsHeaderName(s) <==> s != "" && forall i :: 0 <= i < |s| ==> 0x21 <= s[i] as int <= 0x7E && !IsDelimiter(s[i])
  {
    hide IsDelimiter;
    forall i | 0 <= i < |s|
      ensures 'a' <= s[i] <= 'z' || 'A' <= s[i] <= 'Z' || '0' <= s[i] <= '9' || s[i] in "!#$%&'*+.^_`|~-"
              <==> 0x21 <= s[i] as int <= 0x7E && !IsDelimiter(s[i])
    {
      HeaderCharIs(s[i]);
    }
  }

  predicate Given(params: Params, name: string) {
    name in params && params[name] != ""
  }

  function GivenValue(params: Params, name: string): Option<string> {
    if Given(params, name) then Some(params[name]) else None
  }

  /** What a reader can ask of the parameters of a challenge, in whatever order they are asked for. */
  predicate Acceptable<J(==)>(codec: Codec<J>, params: Params) {
    && Given(params, "id") && Given(params, "realm") && Given(params, "method") && Given(params, "intent")
    && Given(params, "request")
    && IsMethodId(params["method"])
    && |params["request"]| <= 16384 && codec.decode(params["request"]).Some?
    && (Given(params, "opaque") ==> |params["opaque"]| <= 16384 && codec.decode(params["opaque"]).Some?)
    && (Given(params, "header") && LowerAll(params["header"]) != "authorization" ==> IsHeaderName(params["header"]))
    && (Given(params, "digest") ==> "sha-256=" <= params["digest"])
    && (Given(params, "expires") ==> IsDateTime(params["expires"]))
  }

  /** A challenge is accepted if and only if each of its fields is, and then holds each of them in its place. */
  lemma AcceptedExactly<J>(codec: Codec<J>, params: Params)
    ensures ParseFields(codec, params).Success? <==> Acceptable(codec, params)
    ensures Acceptable(codec, params) ==>
              && var c := ParseFields(codec, params).value;
                 && c.id == params["id"] && c.realm == params["realm"] && c.methodId == params["method"]
                 && c.intent == params["intent"] && c.requestB64 == params["request"]
                 && Some(c.request) == codec.decode(params["request"])
                 && NonEmpty(c.digest) == GivenValue(params, "digest")
                 && NonEmpty(c.expires) == GivenValue(params, "expires")
                 && NonEmpty(c.description) == GivenValue(params, "description")
                 && (c.header.Some? <==> Given(params, "header") && LowerAll(params["header"]) != "authorization")
                 && (c.header.Some? ==> c.header.value == params["header"])
                 && (c.opaqueData == if Given(params, "opaque") then codec.decode(params["opaque"]) else None)
                 && (c.opaqueB64.Some? ==> c.opaqueData.Some? && c.opaqueB64.value == params["opaque"])
  {
    hide IsMethodId, IsHeaderName, IsDateTime, IsBase64Url, LowerAll;
  }

  /** A challenge that is read and printed again echoes its opaque text, if that is strict base64url. */
  lemma OpaqueIsEchoed<J>(codec: Codec<J>, params: Params)
    requires Acceptable(codec, params) && ParseFields(codec, params).Success?
    ensures var c := ParseFields(codec, params).value;
            EncodedOpaque(codec, c)
            == if !Given(params, "opaque") then None
               else if IsBase64Url(params["opaque"]) then Some(params["opaque"])
               else Some(codec.encode(codec.decode(params["opaque"]).value))
  {
    hide IsMethodId, IsHeaderName, IsDateTime, IsToken, LowerAll;
  }

  /** A refusal names what is wrong. */
  lemma RefusalIsJust<J>(codec: Codec<J>, params: Params)
    requires ParseFields(codec, params).Failure?
    ensures match ParseFields(codec, params).error
            case MissingField(name) => name in ["id", "realm", "method", "intent", "request"] && !Given(params, name)
            case InvalidMethod => Given(params, "method") && !IsMethodId(params["method"])
            case InvalidPayload =>
              exists name :: name in ["request", "opaque"] && Given(params, name)
                             && (|params[name]| > 16384 || codec.decode(params[name]).None?)
            case InvalidHeaderName => Given(params, "header") && !IsHeaderName(params["header"])
            case InvalidDigest => Given(params, "digest") && !("sha-256=" <= params["digest"])
            case InvalidExpires => Given(params, "expires") && !IsDateTime(params["expires"])
            case _ => false
  {
    hide IsMethodId, IsHeaderName, IsDateTime, IsBase64Url, LowerAll;
    if ParseFields(codec, params).error == InvalidPayload {
      assert "request" in ["request", "opaque"] && "opaque" in ["request", "opaque"];
    }
  }

  // ---------- Round trip ----------

  /** Encoding and decoding of JSON values are inverse, and encodings are base64url tokens. */
  ghost predicate Inverse<J(!new)>(codec: Codec<J>) {
    forall j :: IsToken(codec.encode(j)) && codec.decode(codec.encode(j)) == Some(j)
  }

  /** A challenge the library builds: its fields satisfy the syntax it advertises. */
  predicate ValidChallenge<J(==)>(codec: Codec<J>, c: Challenge<J>, realm: string) {
    && c.id != "" && realm != "" && IsMethodId(c.methodId) && c.intent != ""
    && (c.digest.Some? && c.digest.value != "" ==> IsDigest(c.digest.value))
    && (c.expires.Some? && c.expires.value != "" ==> IsDateTime(c.expires.value))
    && (c.header.Some? ==> IsHeaderName(c.header.value) && !IsDefaultHeader(c.header.value))
    && (c.opaqueB64.Some? ==> IsBase64Url(c.opaqueB64.value))
    && |codec.encode(c.request)| <= MAX_HEADER_PAYLOAD_SIZE
    && (var opaqueData := EncodedOpaque(codec, c); opaqueData.Some? ==> |opaqueData.value| <= MAX_HEADER_PAYLOAD_SIZE)
  }

  function NonEmpty(v: Option<string>): Option<string> {
    if Missing(v) then None else v
  }

  /** The challenge as its reader sees it: empty optional fields are absent. */
  function Seen<J(==)>(codec: Codec<J>, c: Challenge<J>, realm: string): Challenge<J> {
    c.(realm := realm,
       requestB64 := codec.encode(c.request),
       digest := NonEmpty(c.digest),
       expires := NonEmpty(c.expires),
       description := NonEmpty(c.description),
       opaqueB64 := EncodedOpaque(codec, c))
  }

  predicate PlainToken(s: string) {
    forall i :: 0 <= i < |s| ==> s[i] != '\\' && s[i] != '"' && s[i] as int <= 0xFF
  }

  lemma {:induction false} EscapePlain(s: string)
    requires PlainToken(s)
    ensures Escape(s) == s
  {
    if s != "" {
      EscapePlain(s[1..]);
    }
  }

  lemma Base64UrlIsPlain(s: string)
    requires IsBase64Url(s)
    ensures PlainToken(s) && s != ""
  {
  }

  lemma RawIsPrinted(name: string, token: string)
    requires IsBase64Url(token)
    ensures PrintRaw(name, token) == Print(Param(name, token))
  {
    Base64UrlIsPlain(token);
    EscapePlain(token);
  }

  /** The shown entries as parameters, tokens included. */
  function ShownParams(es: seq<Entry>): seq<Param> {
    if es == [] then []
    else (if es[0].Shown() then [Param(Name(es[0].field), es[0].value.value)] else []) + ShownParams(es[1..])
  }

  lemma {:induction false} PartsArePrinted(es: seq<Entry>)
    requires forall e :: e in es && e.Shown() && e.Raw() ==> IsBase64Url(e.value.value)
    ensures Parts(es) == PrintAll(ShownParams(es))
  {
    hide Print, PrintRaw, Name, IsBase64Url;
    if es != [] {
      var e := es[0];
      assert e in es;
      PartsArePrinted(es[1..]);
      if e.Shown() {
        if e.Raw() {
          RawIsPrinted(Name(e.field), e.value.value);
        }
        assert ShownParams(es)[1..] == ShownParams(es[1..]);
      } else {
        assert ShownParams(es) == ShownParams(es[1..]);
      }
    }
  }

  predicate DistinctFields(es: seq<Entry>) {
    forall i, j :: 0 <= i < j < |es| ==> es[i].field != es[j].field
  }

  function ShownValue(e: Entry): Option<string> {
    if e.Shown() then e.value else None
  }

  /** Collecting the shown entries gives each field its shown value, and changes no other field. */
  lemma {:induction false} CollectShown(es: seq<Entry>, m: Params)
    requires DistinctFields(es)
    requires forall e :: e in es ==> Name(e.field) !in m
    ensures Distinct(ShownParams(es), m)
    ensures forall e :: e in es ==> Lookup(AddAll(ShownParams(es), m), Name(e.field)) == ShownValue(e)
    ensures forall f :: (forall e :: e in es ==> e.field != f)
                        ==> Lookup(AddAll(ShownParams(es), m), Name(f)) == Lookup(m, Name(f))
  {
    NamesAreInjective();
    hide Name;
    if es != [] {
      var e := es[0];
      var m' := if e.Shown() then m[Name(e.field) := e.value.value] else m;
      assert e in es && DistinctFields(es[1..]);
      forall x | x in es[1..]
        ensures x in es && x.field != e.field && Name(x.field) !in m'
      {
      }
      CollectShown(es[1..], m');
      if e.Shown() {
        assert ShownParams(es)[1..] == ShownParams(es[1..]);
      } else {
        assert ShownParams(es) == ShownParams(es[1..]);
      }
      assert AddAll(ShownParams(es), m) == AddAll(ShownParams(es[1..]), m');
      assert Lookup(m', Name(e.field)) == if e.Shown() then e.value else None;
      forall f | forall x :: x in es ==> x.field != f
        ensures Lookup(m', Name(f)) == Lookup(m, Name(f))
      {
        assert e.field != f;
      }
    }
  }

  lemma {:induction false} ShownNamed(es: seq<Entry>)
    ensures forall p :: p in ShownParams(es) ==> ValidName(p.name)
  {
    hide Name, ValidName;
    if es != [] {
      NamesAreValid(es[0].field);
      ShownNamed(es[1..]);
    }
  }

  /** What the printer wrote parses to a map that holds each field's shown value. */
  lemma EntriesReadBack(es: seq<Entry>)
    requires DistinctFields(es)
    requires forall e :: e in es && e.Shown() && e.Raw() ==> IsBase64Url(e.value.value)
    ensures ParseFrom(Join(Parts(es)), map[]).Success?
    ensures forall e :: e in es ==> Lookup(ParseFrom(Join(Parts(es)), map[]).value, Name(e.field)) == ShownValue(e)
  {
    hide ParseFrom, ShownParams, Distinct, AddAll, Parts, ValidName, IsBase64Url;
    PartsArePrinted(es);
    CollectShown(es, map[]);
    ShownNamed(es);
    ParseJoined(ShownParams(es), map[]);
  }

  lemma EntriesAreSound<J(!new)>(codec: Codec<J>, c: Challenge<J>, realm: string)
    requires Inverse(codec) && ValidChallenge(codec, c, realm)
    ensures DistinctFields(Entries(codec, c, realm))
    ensures forall e :: e in Entries(codec, c, realm) && e.Shown() && e.Raw() ==> IsBase64Url(e.value.value)
  {
    hide IsMethodId, IsHeaderName, IsDateTime, IsToken, IsDigest, IsDefaultHeader;
    assert IsToken(codec.encode(c.request));
    if c.opaqueData.Some? {
      assert IsToken(codec.encode(c.opaqueData.value));
    }
  }

  lemma PrintIsOneLine(p: Param)
    requires OneLine(p.name) && OneLine(p.value)
    ensures OneLine(Print(p))
  {
    EscapeIsOneLine(p.value);
    assert OneLine("=\"") && OneLine("\"");
    hide Escape, OneLine;
    PrefixIsOneLine(Escape(p.value), "\"");
    PrefixIsOneLine("=\"", Escape(p.value) + "\"");
    PrefixIsOneLine(p.name, "=\"" + (Escape(p.value) + "\""));
  }

  lemma {:induction false} JoinIsOneLine(ps: seq<Param>)
    requires forall p :: p in ps ==> OneLine(p.name) && OneLine(p.value)
    ensures OneLine(Join(PrintAll(ps)))
  {
    assert OneLine("") && OneLine(", ");
    hide OneLine, Print;
    if ps != [] {
      JoinIsOneLine(ps[1..]);
      PrintIsOneLine(ps[0]);
      var rest := Join(PrintAll(ps[1..]));
      assert PrintAll(ps)[1..] == PrintAll(ps[1..]);
      PrefixIsOneLine(", ", rest);
      PrefixIsOneLine(Print(ps[0]), ", " + rest);
    }
  }

  lemma {:induction false} ShownAreOneLine(es: seq<Entry>)
    requires forall e :: e in es && e.Shown() ==> OneLine(e.value.value)
    ensures forall p :: p in ShownParams(es) ==> OneLine(p.name) && OneLine(p.value)
  {
    hide OneLine, Name;
    if es != [] {
      ShownAreOneLine(es[1..]);
      NameIsOneLine(es[0].field);
    }
  }

  lemma NameIsOneLine(f: Field)
    ensures OneLine(Name(f))
  {
  }

  lemma TokenIsOneLine(s: string)
    requires IsBase64Url(s)
    ensures OneLine(s)
  {
  }

  lemma CrLfIs(s: string)
    ensures HasCrLf(s) <==> !OneLine(s)
  {
  }

  lemma EntriesAreOneLine(es: seq<Entry>)
    requires forall e :: e in es && e.Shown() && e.Raw() ==> IsBase64Url(e.value.value)
    ensures !AnyCrLf(es) <==> forall e :: e in es && e.Shown() ==> OneLine(e.value.value)
  {
    hide OneLine, HasCrLf, IsBase64Url;
    forall e | e in es && e.Shown()
      ensures HasCrLf(e.value.value) <==> !OneLine(e.value.value)
      ensures e.Raw() ==> OneLine(e.value.value)
    {
      CrLfIs(e.value.value);
      if e.Raw() {
        TokenIsOneLine(e.value.value);
      }
    }
    if AnyCrLf(es) {
      var i :| 0 <= i < |es| && es[i].Shown() && !es[i].Raw() && HasCrLf(es[i].value.value);
      assert es[i] in es && !OneLine(es[i].value.value);
    } else {
      forall e | e in es && e.Shown()
        ensures OneLine(e.value.value)
      {
        var i :| 0 <= i < |es| && es[i] == e;
        assert e.Raw() || !HasCrLf(es[i].value.value);
      }
    }
  }

  /** A challenge is printed exactly if each field shown is on one line, and then the header value is too. */
  lemma FormatIsOneLine<J(!new)>(codec: Codec<J>, c: Challenge<J>, realm: string)
    requires Inverse(codec) && ValidChallenge(codec, c, realm)
    ensures Format(codec, c, realm).Success? <==>
              forall e :: e in Entries(codec, c, realm) && e.Shown() ==> OneLine(e.value.value)
    ensures Format(codec, c, realm).Success? ==> OneLine(Format(codec, c, realm).value)
  {
    var es := Entries(codec, c, realm);
    EntriesAreSound(codec, c, realm);
    hide ValidChallenge, Inverse, OneLine, Parts, Join, IsBase64Url, Entries, AnyCrLf;
    EntriesAreOneLine(es);
    if !AnyCrLf(es) {
      PrintedIsOneLine(es);
    }
  }

  lemma PrintedIsOneLine(es: seq<Entry>)
    requires forall e :: e in es && e.Shown() && e.Raw() ==> IsBase64Url(e.value.value)
    requires forall e :: e in es && e.Shown() ==> OneLine(e.value.value)
    ensures OneLine("Payment " + Join(Parts(es)))
  {
    assert OneLine("Payment ");
    hide OneLine, Parts, Join, PrintAll, ShownParams, IsBase64Url;
    PartsArePrinted(es);
    ShownAreOneLine(es);
    JoinIsOneLine(ShownParams(es));
    PrefixIsOneLine("Payment ", Join(Parts(es)));
  }

  lemma PrefixIsOneLine(a: string, b: string)
    ensures OneLine(a) && OneLine(b) ==> OneLine(a + b)
  {
  }

  /** The parameter map holds the challenge's fields. */
  predicate Holds<J(==)>(params: Params, codec: Codec<J>, c: Challenge<J>, realm: string) {
    && Lookup(params, Name(Id)) == Some(c.id) && Lookup(params, Name(Realm)) == Some(realm)
    && Lookup(params, Name(Method)) == Some(c.methodId) && Lookup(params, Name(Intent)) == Some(c.intent)
    && Lookup(params, Name(Request)) == Some(codec.encode(c.request))
    && Lookup(params, Name(Digest)) == NonEmpty(c.digest) && Lookup(params, Name(Expires)) == NonEmpty(c.expires)
    && Lookup(params, Name(Description)) == NonEmpty(c.description)
    && Lookup(params, Name(Header)) == NonEmpty(c.header)
    && Lookup(params, Name(Opaque)) == EncodedOpaque(codec, c)
  }

  lemma ShownValuesHold<J(!new)>(codec: Codec<J>, c: Challenge<J>, realm: string, params: Params)
    requires forall e :: e in Entries(codec, c, realm) ==> Lookup(params, Name(e.field)) == ShownValue(e)
    ensures Holds(params, codec, c, realm)
  {
    hide Name, Lookup, EncodedOpaque;
    forall i | 0 <= i < 10
      ensures Lookup(params, Name(Entries(codec, c, realm)[i].field)) == ShownValue(Entries(codec, c, realm)[i])
    {
      assert Entries(codec, c, realm)[i] in Entries(codec, c, realm);
    }
    var es := Entries(codec, c, realm);
    assert Lookup(params, Name(es[0].field)) == ShownValue(es[0]) && Lookup(params, Name(es[1].field)) == ShownValue(es[1]);
    assert Lookup(params, Name(es[2].field)) == ShownValue(es[2]) && Lookup(params, Name(es[3].field)) == ShownValue(es[3]);
    assert Lookup(params, Name(es[4].field)) == ShownValue(es[4]) && Lookup(params, Name(es[5].field)) == ShownValue(es[5]);
    assert Lookup(params, Name(es[6].field)) == ShownValue(es[6]) && Lookup(params, Name(es[7].field)) == ShownValue(es[7]);
    assert Lookup(params, Name(es[8].field)) == ShownValue(es[8]) && Lookup(params, Name(es[9].field)) == ShownValue(es[9]);
  }

  /** The fields read back from a printed challenge are those it carried. */
  lemma FieldsReadBack<J(!new)>(codec: Codec<J>, c: Challenge<J>, realm: string, params: Params)
    requires Inverse(codec) && ValidChallenge(codec, c, realm) && Holds(params, codec, c, realm)
    ensures ParseFields(codec, params) == Success(Seen(codec, c, realm))
  {
    hide Name, Lookup, IsMethodId, IsHeaderName, IsDateTime, IsToken, IsDigest, IsDefaultHeader, IsBase64Url,
         EncodedOpaque;
    HeaderFacts(codec, c, realm);
  }

  lemma HeaderFacts<J(!new)>(codec: Codec<J>, c: Challenge<J>, realm: string)
    requires Inverse(codec) && ValidChallenge(codec, c, realm)
    ensures c.methodId != "" && codec.encode(c.request) != ""
    ensures c.header.Some? ==> c.header.value != ""
    ensures EncodedOpaque(codec, c).None? <==> c.opaqueData.None?
    ensures var sent := EncodedOpaque(codec, c);
            sent.Some? ==> sent.value != "" && IsBase64Url(sent.value) && codec.decode(sent.value) == c.opaqueData
  {
  }

  lemma BodyIsFramed<J(!new)>(codec: Codec<J>, c: Challenge<J>, realm: string)
    requires Inverse(codec) && ValidChallenge(codec, c, realm)
    ensures Framed(Join(Parts(Entries(codec, c, realm))))
  {
    hide Name, ValidName, Framed, Join, IsMethodId, IsHeaderName, IsDateTime, IsDigest, IsDefaultHeader, IsBase64Url;
    var es := Entries(codec, c, realm);
    EntriesAreSound(codec, c, realm);
    PartsArePrinted(es);
    ShownNamed(es);
    assert es[0].Shown() && ShownParams(es)[0] == Param(Name(Id), c.id);
    JoinIsFramed(ShownParams(es));
  }

  /** The Payment scheme, its letters in any case. */
  predicate IsPayment(scheme: string) {
    && |scheme| == 7 && (scheme[0] == 'P' || scheme[0] == 'p') && (scheme[1] == 'A' || scheme[1] == 'a')
    && (scheme[2] == 'Y' || scheme[2] == 'y') && (scheme[3] == 'M' || scheme[3] == 'm')
    && (scheme[4] == 'E' || scheme[4] == 'e') && (scheme[5] == 'N' || scheme[5] == 'n')
    && (scheme[6] == 'T' || scheme[6] == 't')
  }

  lemma IsPaymentLowers(scheme: string)
    ensures IsPayment(scheme) <==> LowerAll(scheme) == "payment"
  {
    var low := LowerAll(scheme);
    if |scheme| == 7 {
      assert low == "payment" <==> && low[0] == 'p' && low[1] == 'a' && low[2] == 'y' && low[3] == 'm' && low[4] == 'e'
                                   && low[5] == 'n' && low[6] == 't';
    }
  }

  /** Only a text of the scheme, whatever the case of its letters, and of at most 64 KiB is read any further. */
  lemma SchemeIsChecked<J>(codec: Codec<J>, text: string)
    ensures |text| > 65536 ==> Parse(codec, text) == Failure(TooLong)
    ensures |text| <= 65536 ==>
            var h := Strip(text);
            !(|h| >= 8 && IsPayment(h[..7]) && h[7] == ' ') ==> Parse(codec, text) == Failure(WrongScheme)
  {
    var h := Strip(text);
    hide Strip, ParseFields;
    if HasScheme(h) {
      IsPaymentLowers(h[..7]);
      assert LowerAll(h[..8])[..7] == LowerAll(h[..7]) == "payment";
      assert LowerAll(h[..8])[7] == "payment "[7] == ' ';
    }
  }

  lemma PaymentPrefix(scheme: string, body: string)
    requires IsPayment(scheme) && Framed(body)
    ensures Strip(scheme + " " + body) == scheme + " " + body
    ensures HasScheme(scheme + " " + body) && (scheme + " " + body)[8..] == body
  {
    var s := scheme + " " + body;
    StripKeeps(s);
    assert s[..8] == scheme + " ";
    IsPaymentLowers(scheme);
    assert LowerAll(s[..8]) == LowerAll(scheme) + " ";
  }

  /** A printed challenge with the letters of its scheme in the case given. */
  function Recased(scheme: string, text: string): string {
    scheme + (if |text| >= 7 then text[7..] else "")
  }

  /**
   Parsing undoes printing: empty optional fields become absent, everything else survives; and the
   case of the scheme does not matter.
   */
  lemma ParseFormat<J(!new)>(codec: Codec<J>, c: Challenge<J>, realm: string, scheme: string)
    requires Inverse(codec) && ValidChallenge(codec, c, realm) && IsPayment(scheme)
    requires Format(codec, c, realm).Success?
    requires |Format(codec, c, realm).value| <= 65536
    ensures Parse(codec, Recased(scheme, Format(codec, c, realm).value)) == Success(Seen(codec, c, realm))
    ensures Parse(codec, Format(codec, c, realm).value) == Success(Seen(codec, c, realm))
  {
    hide Strip, Join, Parts, ParseFrom, ParseFields, HasScheme, ValidChallenge, Framed, Entries, Holds;
    var es := Entries(codec, c, realm);
    var body := Join(Parts(es));
    BodyIsFramed(codec, c, realm);
    var text := "Payment " + body;
    assert Recased(scheme, text) == scheme + " " + body && "Payment " + body == "Payment" + " " + body;
    PaymentPrefix(scheme, body);
    PaymentPrefix("Payment", body);
    hide IsPayment;
    FramedStrips(body);
    EntriesAreSound(codec, c, realm);
    EntriesReadBack(es);
    ShownValuesHold(codec, c, realm, ParseFrom(body, map[]).value);
    FieldsReadBack(codec, c, realm, ParseFrom(body, map[]).value);
  }
}
