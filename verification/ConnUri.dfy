/** Percent escapes and connection URIs: crates/ownpg-core/src/config/libpq.rs. */
module ConnUri {
  import opened Basics

  datatype Fault =
    | BadEscape             // a percent escape without two digits
    | NotUtf8
    | NoPrefix
    | NoClosingBracket
    | NoParameterValue

  // Percent escapes. The text of a connection URI is taken as its UTF-8 bytes.

  type Bytes = seq<byte>

  const PERCENT: byte := 0x25
  const PLUS: byte := 0x2b

  function HexDigit(c: byte): Option<byte> {
    if 0x30 <= c <= 0x39 then Some(c - 0x30)
    else if 0x41 <= c <= 0x46 then Some(c - 0x41 + 10)
    else if 0x61 <= c <= 0x66 then Some(c - 0x61 + 10)
    else None
  }

  /** The number reader the code uses for the two characters of an escape: it also takes a plus sign. */
  function HexPair(a: byte, b: byte): Option<byte> {
    if HexDigit(b).None? then None
    else if a == PLUS then HexDigit(b)
    else if HexDigit(a).None? then None
    else Some(16 * HexDigit(a).value + HexDigit(b).value)
  }

  /** Well-formed UTF-8: section 4 of RFC 3629. */
  predicate Utf8Valid(b: Bytes)
    decreases |b|
  {
    if b == [] then true
    else if b[0] <= 0x7f then Utf8Valid(b[1..])
    else if 0xc2 <= b[0] <= 0xdf then |b| >= 2 && 0x80 <= b[1] <= 0xbf && Utf8Valid(b[2..])
    else if 0xe0 <= b[0] <= 0xef then
      && |b| >= 3
      && (if b[0] == 0xe0 then 0xa0 else 0x80) <= b[1] <= (if b[0] == 0xed then 0x9f else 0xbf)
      && 0x80 <= b[2] <= 0xbf && Utf8Valid(b[3..])
    else
      && 0xf0 <= b[0] <= 0xf4 && |b| >= 4
      && (if b[0] == 0xf0 then 0x90 else 0x80) <= b[1] <= (if b[0] == 0xf4 then 0x8f else 0xbf)
      && 0x80 <= b[2] <= 0xbf && 0x80 <= b[3] <= 0xbf && Utf8Valid(b[4..])
  }

  function Unescaped(text: Bytes): (r: Result<Bytes, Fault>)
    decreases |text|
  {
    if text == [] then Ok([])
    else if text[0] != PERCENT then Put(text[0], Unescaped(text[1..]))
    else if |text| < 3 || HexPair(text[1], text[2]).None? then Err(BadEscape)
    else Put(HexPair(text[1], text[2]).value, Unescaped(text[3..]))
  }

  function Put(b: byte, r: Result<Bytes, Fault>): (s: Result<Bytes, Fault>)
    ensures s.Ok? <==> r.Ok?
    ensures s.Ok? ==> s.value == [b] + r.value
    ensures s.Err? ==> s == r
  {
    if r.Ok? then Ok([b] + r.value) else r
  }

  function PutAll(out: Bytes, r: Result<Bytes, Fault>): (s: Result<Bytes, Fault>)
  {
    if r.Ok? then Ok(out + r.value) else r
  }

  lemma PutAllPut(out: Bytes, b: byte, r: Result<Bytes, Fault>)
    ensures PutAll(out, Put(b, r)) == PutAll(out + [b], r)
    ensures PutAll([], r) == r
  {
    if r.Ok? {
      assert out + ([b] + r.value) == out + [b] + r.value;
      assert [] + r.value == r.value;
    }
  }

  function Decoded(text: Bytes): Result<Bytes, Fault> {
    var r := Unescaped(text);
    if r.Ok? && !Utf8Valid(r.value) then Err(NotUtf8) else r
  }

  method PercentDecode(text: Bytes) returns (r: Result<Bytes, Fault>)
    ensures r == Decoded(text)
  {
    var out: Bytes := [];
    var index := 0;
    assert text[0..] == text;
    PutAllPut([], 0, Unescaped(text));
    while index < |text|
      invariant 0 <= index <= |text|
      invariant Unescaped(text) == PutAll(out, Unescaped(text[index..]))
    {
      var b := text[index];
      if b == PERCENT {
        assert |text| - index >= 3 ==>
          && text[index..][1] == text[index + 1] && text[index..][2] == text[index + 2]
          && text[index..][3..] == text[index + 3..];
        if index + 3 > |text| || HexPair(text[index + 1], text[index + 2]).None? {
          return Err(BadEscape);
        }
        PutAllPut(out, HexPair(text[index + 1], text[index + 2]).value, Unescaped(text[index + 3..]));
        out := out + [HexPair(text[index + 1], text[index + 2]).value];
        index := index + 3;
      } else {
        assert text[index..][1..] == text[index + 1..];
        PutAllPut(out, b, Unescaped(text[index + 1..]));
        out := out + [b];
        index := index + 1;
      }
    }
    assert text[|text|..] == [];
    assert out + [] == out;
    if !Utf8Valid(out) {
      return Err(NotUtf8);
    }
    return Ok(out);
  }

  /** Every escape has the form section 2.1 of RFC 3986 requires: a percent sign and two hex digits. */
  predicate StrictEscapes(text: Bytes)
    decreases |text|
  {
    if text == [] then true
    else if text[0] != PERCENT then StrictEscapes(text[1..])
    else |text| >= 3 && HexDigit(text[1]).Some? && HexDigit(text[2]).Some? && StrictEscapes(text[3..])
  }

  /** Some escape is a percent sign, a plus sign and one hex digit. */
  predicate HasPlusEscape(text: Bytes)
    decreases |text|
  {
    if text == [] then false
    else if text[0] != PERCENT then HasPlusEscape(text[1..])
    else |text| >= 3 && ((text[1] == PLUS && HexDigit(text[2]).Some?) || HasPlusEscape(text[3..]))
  }

  /** The decoder's message asks for two hex digits. Among texts without a plus escape it accepts exactly the
      strict ones; with one it accepts what it should refuse. */
  lemma {:induction false} AcceptedEscapes(text: Bytes)
    ensures StrictEscapes(text) ==> Unescaped(text).Ok?
    ensures Unescaped(text).Ok? ==> (StrictEscapes(text) <==> !HasPlusEscape(text))
    decreases |text|
  {
    if text != [] {
      if text[0] != PERCENT {
        AcceptedEscapes(text[1..]);
      } else if |text| >= 3 {
        AcceptedEscapes(text[3..]);
      }
    }
  }

  /** A hex digit, or a plus sign, which is worth nothing. */
  function Worth(c: byte): Option<byte> {
    if c == PLUS then Some(0) else HexDigit(c)
  }

  /** Every escape is a percent sign, a hex digit or a plus sign, and a hex digit. */
  predicate LooseEscapes(text: Bytes)
    decreases |text|
  {
    if text == [] then true
    else if text[0] != PERCENT then LooseEscapes(text[1..])
    else |text| >= 3 && Worth(text[1]).Some? && HexDigit(text[2]).Some? && LooseEscapes(text[3..])
  }

  /** The bytes that the text stands for. */
  function BytesOf(text: Bytes): Bytes
    requires LooseEscapes(text)
    decreases |text|
  {
    if text == [] then []
    else if text[0] != PERCENT then [text[0]] + BytesOf(text[1..])
    else [16 * Worth(text[1]).value + HexDigit(text[2]).value] + BytesOf(text[3..])
  }

  lemma {:induction false} UnescapedExactlyWhen(text: Bytes)
    ensures Unescaped(text).Ok? <==> LooseEscapes(text)
    ensures LooseEscapes(text) ==> Unescaped(text) == Ok(BytesOf(text))
    decreases |text|
  {
    if text != [] {
      if text[0] != PERCENT {
        UnescapedExactlyWhen(text[1..]);
      } else if |text| >= 3 {
        UnescapedExactlyWhen(text[3..]);
      }
    }
  }

  /** What the decoder accepts: texts in which every escape is two hex digits, or a plus sign and one, and that stand for
      well-formed UTF-8. */
  lemma DecodedExactlyWhen(text: Bytes)
    ensures Decoded(text).Ok? <==> LooseEscapes(text) && Utf8Valid(BytesOf(text))
    ensures Decoded(text).Ok? ==> Decoded(text).value == BytesOf(text)
  {
    UnescapedExactlyWhen(text);
  }

  /** "%+5" is read as the byte 5. */
  lemma PlusEscapeIsAccepted()
    ensures Decoded([PERCENT, PLUS, 0x35]) == Ok([5]) && !StrictEscapes([PERCENT, PLUS, 0x35])
  {
    var text: Bytes := [PERCENT, PLUS, 0x35];
    assert text[3..] == [];
    assert Unescaped(text[3..]) == Ok([]);
    assert HexPair(PLUS, 0x35) == Some(5);
    assert Unescaped(text) == Put(5, Unescaped(text[3..]));
    var five: Bytes := [5];
    assert five[1..] == [] && Utf8Valid(five[1..]) && Utf8Valid(five);
    assert five + [] == five;
    assert Unescaped(text) == Ok(five);
  }

  function HexChar(n: byte, upper: bool): byte
    requires n < 16
  {
    if n < 10 then 0x30 + n else if upper then 0x41 + n - 10 else 0x61 + n - 10
  }

  /** Percent encoding: a byte is left as it is where plain allows it, and written as an escape otherwise. */
  function Encoded(b: Bytes, plain: byte -> bool, upper: bool): Bytes {
    if b == [] then []
    else (if plain(b[0]) && b[0] != PERCENT then [b[0]] else [PERCENT, HexChar(b[0] / 16, upper), HexChar(b[0] % 16, upper)])
         + Encoded(b[1..], plain, upper)
  }

  lemma HexPairUndoesHexChar(n: byte, upper: bool)
    ensures HexPair(HexChar(n / 16, upper), HexChar(n % 16, upper)) == Some(n)
  {
  }

  /** Decoding undoes encoding, whichever bytes are escaped and whichever case the digits have. */
  lemma {:induction false} DecodeUndoesEncode(b: Bytes, plain: byte -> bool, upper: bool)
    ensures Unescaped(Encoded(b, plain, upper)) == Ok(b)
    ensures Utf8Valid(b) ==> Decoded(Encoded(b, plain, upper)) == Ok(b)
  {
    if b != [] {
      DecodeUndoesEncode(b[1..], plain, upper);
      var rest := Encoded(b[1..], plain, upper);
      assert [b[0]] + b[1..] == b;
      if plain(b[0]) && b[0] != PERCENT {
        assert ([b[0]] + rest)[1..] == rest;
      } else {
        var head := [PERCENT, HexChar(b[0] / 16, upper), HexChar(b[0] % 16, upper)];
        HexPairUndoesHexChar(b[0], upper);
        assert (head + rest)[1] == head[1] && (head + rest)[2] == head[2];
        assert (head + rest)[3..] == rest;
      }
    }
  }

  // Connection URIs.

  /** The table the URI fills; its keys are the UTF-8 bytes of the setting names. */
  type Fields = map<Bytes, Bytes>

  const USER: Bytes := [0x75, 0x73, 0x65, 0x72]
  const PASSWORD: Bytes := [0x70, 0x61, 0x73, 0x73, 0x77, 0x6f, 0x72, 0x64]
  const HOST: Bytes := [0x68, 0x6f, 0x73, 0x74]
  const PORT: Bytes := [0x70, 0x6f, 0x72, 0x74]
  const DBNAME: Bytes := [0x64, 0x62, 0x6e, 0x61, 0x6d, 0x65]

  /** The index of the first c from i on. */
  function Find(s: Bytes, c: byte, i: nat): (k: Option<nat>)
    requires i <= |s|
    ensures k.Some? ==> i <= k.value < |s| && s[k.value] == c && forall j :: i <= j < k.value ==> s[j] != c
    ensures k.None? ==> forall j :: i <= j < |s| ==> s[j] != c
    decreases |s| - i
  {
    if i == |s| then None else if s[i] == c then Some(i) else Find(s, c, i + 1)
  }

  /** The index of the last c before i. */
  function FindLast(s: Bytes, c: byte, i: nat): (k: Option<nat>)
    requires i <= |s|
    ensures k.Some? ==> k.value < i && s[k.value] == c && forall j :: k.value < j < i ==> s[j] != c
    ensures k.None? ==> forall j :: 0 <= j < i ==> s[j] != c
  {
    if i == 0 then None else if s[i - 1] == c then Some(i - 1) else FindLast(s, c, i - 1)
  }

  /** The text before the first c, and the text after it if there is one. */
  function SplitOnce(s: Bytes, c: byte): (Bytes, Option<Bytes>) {
    match Find(s, c, 0)
    case None => (s, None)
    case Some(k) => (s[..k], Some(s[k + 1..]))
  }

  /** The text before the last c if there is one, and the text after it. */
  function SplitLast(s: Bytes, c: byte): (Option<Bytes>, Bytes) {
    match FindLast(s, c, |s|)
    case None => (None, s)
    case Some(k) => (Some(s[..k]), s[k + 1..])
  }

  lemma SplitOnceAt(a: Bytes, c: byte, b: Bytes)
    requires c !in a
    ensures SplitOnce(a + [c] + b, c) == (a, Some(b))
    ensures SplitOnce(a, c) == (a, None)
  {
    var s := a + [c] + b;
    assert s[|a|] == c && forall j :: 0 <= j < |a| ==> s[j] == a[j];
    assert Find(s, c, 0) == Some(|a|);
    assert s[..|a|] == a && s[|a| + 1..] == b;
  }

  lemma SplitLastAt(a: Bytes, c: byte, b: Bytes)
    requires c !in b
    ensures SplitLast(a + [c] + b, c) == (Some(a), b)
    ensures SplitLast(b, c) == (None, b)
  {
    var s := a + [c] + b;
    assert s[|a|] == c && forall j :: |a| < j < |s| ==> s[j] == b[j - |a| - 1];
    assert FindLast(s, c, |s|) == Some(|a|);
    assert s[..|a|] == a && s[|a| + 1..] == b;
  }

  // The characters of the URI syntax, in ASCII.
  const AT: byte := 0x40
  const COLON: byte := 0x3a
  const SLASH: byte := 0x2f
  const QUESTION: byte := 0x3f
  const AMPERSAND: byte := 0x26
  const EQUALS: byte := 0x3d
  const OPENING: byte := 0x5b
  const CLOSING: byte := 0x5d

  /** postgresql:// and postgres:// */
  const LONG_PREFIX: Bytes := [0x70, 0x6f, 0x73, 0x74, 0x67, 0x72, 0x65, 0x73, 0x71, 0x6c, 0x3a, 0x2f, 0x2f]
  const SHORT_PREFIX: Bytes := [0x70, 0x6f, 0x73, 0x74, 0x67, 0x72, 0x65, 0x73, 0x3a, 0x2f, 0x2f]

  function WithField(fields: Fields, key: Bytes, text: Bytes): Result<Fields, Fault> {
    match Decoded(text)
    case Err(fault) => Err(fault)
    case Ok(value) => Ok(fields[key := value])
  }

  function WithUserinfo(fields: Fields, userinfo: Option<Bytes>): Result<Fields, Fault> {
    if userinfo.None? then Ok(fields)
    else
      var (user, password) := SplitOnce(userinfo.value, COLON);
      var named := if user == [] then Ok(fields) else WithField(fields, USER, user);
      if named.Err? || password.None? then named else WithField(named.value, PASSWORD, password.value)
  }

  /** The host and port of the authority; an address in brackets keeps its colons. */
  function HostAndPort(hostport: Bytes): Result<(Bytes, Option<Bytes>), Fault> {
    if hostport != [] && hostport[0] == OPENING then
      var (host, tail) := SplitOnce(hostport[1..], CLOSING);
      if tail.None? then Err(NoClosingBracket)
      else Ok((host, if tail.value != [] && tail.value[0] == COLON then Some(tail.value[1..]) else None))
    else
      var (host, last) := SplitLast(hostport, COLON);
      if host.None? then Ok((hostport, None)) else Ok((host.value, Some(last)))
  }

  function WithHost(fields: Fields, hostport: Bytes): Result<Fields, Fault> {
    if hostport == [] then Ok(fields)
    else
      match HostAndPort(hostport)
      case Err(fault) => Err(fault)
      case Ok((host, port)) =>
        var named := if host == [] then Ok(fields) else WithField(fields, HOST, host);
        if named.Err? || port.None? || port.value == [] then named else Ok(named.value[PORT := port.value])
  }

  function WithPath(fields: Fields, path: Option<Bytes>): Result<Fields, Fault> {
    if path.None? || path.value == [] then Ok(fields) else WithField(fields, DBNAME, path.value)
  }

  /** A parameter of the query, its name and its value decoded. */
  function Parameter(pair: Bytes): Result<(Bytes, Bytes), Fault> {
    var (key, value) := SplitOnce(pair, EQUALS);
    if value.None? then Err(NoParameterValue)
    else
      match Decoded(key)
      case Err(fault) => Err(fault)
      case Ok(name) =>
        match Decoded(value.value)
        case Err(fault) => Err(fault)
        case Ok(decoded) => Ok((name, decoded))
  }

  function ParametersFrom(pairs: seq<Bytes>, fields: Fields): Result<Fields, Fault> {
    if pairs == [] then Ok(fields)
    else if pairs[0] == [] then ParametersFrom(pairs[1..], fields)
    else
      match Parameter(pairs[0])
      case Err(fault) => Err(fault)
      case Ok((name, value)) => ParametersFrom(pairs[1..], fields[name := value])
  }

  function UriOf(text: Bytes): Result<Fields, Fault> {
    if LONG_PREFIX <= text then UriAfterPrefix(text[|LONG_PREFIX|..])
    else if SHORT_PREFIX <= text then UriAfterPrefix(text[|SHORT_PREFIX|..])
    else Err(NoPrefix)
  }

  function UriAfterPrefix(rest: Bytes): Result<Fields, Fault> {
    var (head, query) := SplitOnce(rest, QUESTION);
    var (authority, path) := SplitOnce(head, SLASH);
    var (userinfo, hostport) := SplitLast(authority, AT);
    var user := WithUserinfo(map[], userinfo);
    if user.Err? then Err(user.error)
    else
      var host := WithHost(user.value, hostport);
      if host.Err? then Err(host.error)
      else
        var fields := WithPath(host.value, path);
        if fields.Err? then Err(fields.error)
        else if query.None? then fields
        else ParametersFrom(SplitOn(query.value, AMPERSAND), fields.value)
  }

  method ParseUri(text: Bytes) returns (r: Result<Fields, Fault>)
    ensures r == UriOf(text)
  {
    var rest: Bytes;
    if LONG_PREFIX <= text {
      rest := text[|LONG_PREFIX|..];
    } else if SHORT_PREFIX <= text {
      rest := text[|SHORT_PREFIX|..];
    } else {
      return Err(NoPrefix);
    }
    var (head, query) := SplitOnce(rest, QUESTION);
    var (authority, path) := SplitOnce(head, SLASH);
    var (userinfo, hostport) := SplitLast(authority, AT);
    var step := WithUserinfo(map[], userinfo);
    if step.Err? { return Err(step.error); }
    step := WithHost(step.value, hostport);
    if step.Err? { return Err(step.error); }
    step := WithPath(step.value, path);
    if step.Err? { return Err(step.error); }
    var fields := step.value;
    if query.Some? {
      var pairs := SplitOn(query.value, AMPERSAND);
      assert pairs[0..] == pairs;
      for i := 0 to |pairs|
        invariant ParametersFrom(pairs, step.value) == ParametersFrom(pairs[i..], fields)
      {
        assert pairs[i..][1..] == pairs[i + 1..];
        if pairs[i] != [] {
          var parameter := Parameter(pairs[i]);
          if parameter.Err? { return Err(parameter.error); }
          fields := fields[parameter.value.0 := parameter.value.1];
        }
      }
    }
    return Ok(fields);
  }

  // Printing a URI.

  /** An empty user, host, port or database name is left out. */
  datatype Target = Target(
    user: Bytes, password: Option<Bytes>, host: Bytes, bracketed: bool, port: Bytes, dbname: Bytes,
    params: seq<(Bytes, Bytes)>)

  const DELIMITERS: set<byte> := {PERCENT, AT, COLON, SLASH, QUESTION, AMPERSAND, EQUALS, OPENING, CLOSING}

  predicate KeepsDelimitersOut(plain: byte -> bool) {
    forall c :: c in DELIMITERS ==> !plain(c)
  }

  predicate PrintableTarget(t: Target) {
    && Utf8Valid(t.user) && (t.password.Some? ==> Utf8Valid(t.password.value)) && Utf8Valid(t.host) && Utf8Valid(t.dbname)
    && (forall c :: c in t.port ==> c !in DELIMITERS)
    && (forall i :: 0 <= i < |t.params| ==> Utf8Valid(t.params[i].0) && Utf8Valid(t.params[i].1))
  }

  function ParamText(param: (Bytes, Bytes), plain: byte -> bool, upper: bool): Bytes {
    Encoded(param.0, plain, upper) + [EQUALS] + Encoded(param.1, plain, upper)
  }

  function ParamTexts(params: seq<(Bytes, Bytes)>, plain: byte -> bool, upper: bool): seq<Bytes> {
    if params == [] then [] else [ParamText(params[0], plain, upper)] + ParamTexts(params[1..], plain, upper)
  }

  function UserinfoText(t: Target, plain: byte -> bool, upper: bool): Bytes {
    Encoded(t.user, plain, upper) + if t.password.None? then [] else [COLON] + Encoded(t.password.value, plain, upper)
  }

  function HostText(t: Target, plain: byte -> bool, upper: bool): Bytes {
    (if t.bracketed then [OPENING] + Encoded(t.host, plain, upper) + [CLOSING] else Encoded(t.host, plain, upper))
    + if t.port == [] then [] else [COLON] + t.port
  }

  function AuthorityText(t: Target, plain: byte -> bool, upper: bool): Bytes {
    if t.user == [] && t.password.None? then HostText(t, plain, upper)
    else UserinfoText(t, plain, upper) + [AT] + HostText(t, plain, upper)
  }

  function HeadText(t: Target, plain: byte -> bool, upper: bool): Bytes {
    if t.dbname == [] then AuthorityText(t, plain, upper)
    else AuthorityText(t, plain, upper) + [SLASH] + Encoded(t.dbname, plain, upper)
  }

  function TargetText(t: Target, plain: byte -> bool, upper: bool): Bytes {
    LONG_PREFIX + if t.params == [] then HeadText(t, plain, upper)
                  else HeadText(t, plain, upper) + [QUESTION] + Joined(ParamTexts(t.params, plain, upper), AMPERSAND)
  }

  function Present(fields: Fields, key: Bytes, value: Bytes): Fields {
    if value == [] then fields else fields[key := value]
  }

  function UserinfoFields(t: Target): Fields {
    var named := Present(map[], USER, t.user);
    if t.password.None? then named else named[PASSWORD := t.password.value]
  }

  function TargetFields(t: Target): Fields {
    Present(Present(Present(UserinfoFields(t), HOST, t.host), PORT, t.port), DBNAME, t.dbname)
  }

  function TargetParams(params: seq<(Bytes, Bytes)>, found: Fields): Fields {
    if params == [] then found else TargetParams(params[1..], found[params[0].0 := params[0].1])
  }

  lemma {:induction false} EncodedHoldsNo(b: Bytes, plain: byte -> bool, upper: bool, c: byte)
    requires c in DELIMITERS && c != PERCENT && KeepsDelimitersOut(plain)
    ensures c !in Encoded(b, plain, upper)
    ensures b != [] <==> Encoded(b, plain, upper) != []
  {
    if b != [] { EncodedHoldsNo(b[1..], plain, upper, c); }
  }

  lemma UserinfoIsSplit(t: Target, plain: byte -> bool, upper: bool)
    requires KeepsDelimitersOut(plain)
    ensures SplitOnce(UserinfoText(t, plain, upper), COLON)
            == (Encoded(t.user, plain, upper), if t.password.None? then None else Some(Encoded(t.password.value, plain, upper)))
  {
    var user := Encoded(t.user, plain, upper);
    EncodedHoldsNo(t.user, plain, upper, COLON);
    if t.password.None? {
      assert UserinfoText(t, plain, upper) == user;
      SplitOnceAt(user, COLON, []);
    } else {
      var password := Encoded(t.password.value, plain, upper);
      assert UserinfoText(t, plain, upper) == user + [COLON] + password;
      SplitOnceAt(user, COLON, password);
    }
  }

  lemma UserinfoIsRead(t: Target, plain: byte -> bool, upper: bool)
    requires PrintableTarget(t) && KeepsDelimitersOut(plain)
    ensures WithUserinfo(map[], Some(UserinfoText(t, plain, upper))) == Ok(UserinfoFields(t))
  {
    UserinfoIsSplit(t, plain, upper);
    EncodedHoldsNo(t.user, plain, upper, COLON);
    DecodeUndoesEncode(t.user, plain, upper);
    if t.password.Some? {
      DecodeUndoesEncode(t.password.value, plain, upper);
    }
  }

  lemma HostAndPortIsRead(t: Target, plain: byte -> bool, upper: bool)
    requires PrintableTarget(t) && KeepsDelimitersOut(plain) && HostText(t, plain, upper) != []
    ensures HostAndPort(HostText(t, plain, upper))
            == Ok((Encoded(t.host, plain, upper), if t.port == [] then None else Some(t.port)))
  {
    var host := Encoded(t.host, plain, upper);
    var tail := if t.port == [] then [] else [COLON] + t.port;
    EncodedHoldsNo(t.host, plain, upper, CLOSING);
    EncodedHoldsNo(t.host, plain, upper, COLON);
    EncodedHoldsNo(t.host, plain, upper, OPENING);
    if t.bracketed {
      assert HostText(t, plain, upper) == [OPENING] + (host + [CLOSING] + tail);
      assert ([OPENING] + (host + [CLOSING] + tail))[1..] == host + [CLOSING] + tail;
      SplitOnceAt(host, CLOSING, tail);
      assert t.port != [] ==> tail[1..] == t.port;
    } else {
      assert host != [] ==> HostText(t, plain, upper)[0] in host;
      assert host == [] ==> HostText(t, plain, upper)[0] == COLON;
      if t.port == [] {
        assert HostText(t, plain, upper) == host;
        SplitLastAt([], COLON, host);
      } else {
        assert HostText(t, plain, upper) == host + [COLON] + t.port;
        SplitLastAt(host, COLON, t.port);
      }
    }
  }

  lemma AuthorityHoldsNo(t: Target, plain: byte -> bool, upper: bool, c: byte)
    requires PrintableTarget(t) && KeepsDelimitersOut(plain)
    requires c == SLASH || c == QUESTION || c == AT
    ensures c !in HostText(t, plain, upper)
    ensures c != AT ==> c !in AuthorityText(t, plain, upper)
    ensures c == QUESTION ==> c !in HeadText(t, plain, upper)
  {
    EncodedHoldsNo(t.host, plain, upper, c);
    EncodedHoldsNo(t.user, plain, upper, c);
    EncodedHoldsNo(t.dbname, plain, upper, c);
    if t.password.Some? { EncodedHoldsNo(t.password.value, plain, upper, c); }
  }

  lemma {:induction false} ParametersAreRead(params: seq<(Bytes, Bytes)>, plain: byte -> bool, upper: bool, found: Fields)
    requires KeepsDelimitersOut(plain)
    requires forall i :: 0 <= i < |params| ==> Utf8Valid(params[i].0) && Utf8Valid(params[i].1)
    ensures ParametersFrom(ParamTexts(params, plain, upper), found) == Ok(TargetParams(params, found))
    ensures forall text :: text in ParamTexts(params, plain, upper) ==> AMPERSAND !in text
    ensures params != [] ==> ParamTexts(params, plain, upper) != []
  {
    if params != [] {
      var (key, value) := params[0];
      EncodedHoldsNo(key, plain, upper, EQUALS);
      EncodedHoldsNo(key, plain, upper, AMPERSAND);
      EncodedHoldsNo(value, plain, upper, AMPERSAND);
      SplitOnceAt(Encoded(key, plain, upper), EQUALS, Encoded(value, plain, upper));
      DecodeUndoesEncode(key, plain, upper);
      DecodeUndoesEncode(value, plain, upper);
      ParametersAreRead(params[1..], plain, upper, found[key := value]);
      var texts := ParamTexts(params, plain, upper);
      assert texts[0] == ParamText(params[0], plain, upper) && texts[1..] == ParamTexts(params[1..], plain, upper);
    }
  }

  function Userinfo(t: Target, plain: byte -> bool, upper: bool): Option<Bytes> {
    if t.user == [] && t.password.None? then None else Some(UserinfoText(t, plain, upper))
  }

  function Path(t: Target, plain: byte -> bool, upper: bool): Option<Bytes> {
    if t.dbname == [] then None else Some(Encoded(t.dbname, plain, upper))
  }

  lemma HostIsRead(fields: Fields, t: Target, plain: byte -> bool, upper: bool)
    requires PrintableTarget(t) && KeepsDelimitersOut(plain)
    ensures WithHost(fields, HostText(t, plain, upper)) == Ok(Present(Present(fields, HOST, t.host), PORT, t.port))
  {
    EncodedHoldsNo(t.host, plain, upper, COLON);
    DecodeUndoesEncode(t.host, plain, upper);
    if HostText(t, plain, upper) != [] {
      HostAndPortIsRead(t, plain, upper);
    }
  }

  lemma PathIsRead(fields: Fields, t: Target, plain: byte -> bool, upper: bool)
    requires PrintableTarget(t) && KeepsDelimitersOut(plain)
    ensures WithPath(fields, Path(t, plain, upper)) == Ok(Present(fields, DBNAME, t.dbname))
  {
    EncodedHoldsNo(t.dbname, plain, upper, COLON);
    DecodeUndoesEncode(t.dbname, plain, upper);
  }

  lemma HeadIsSplit(t: Target, plain: byte -> bool, upper: bool)
    requires PrintableTarget(t) && KeepsDelimitersOut(plain)
    ensures SplitOnce(HeadText(t, plain, upper), SLASH)
            == (AuthorityText(t, plain, upper), Path(t, plain, upper))
    ensures SplitLast(AuthorityText(t, plain, upper), AT)
            == (Userinfo(t, plain, upper), HostText(t, plain, upper))
  {
    AuthorityHoldsNo(t, plain, upper, SLASH);
    AuthorityHoldsNo(t, plain, upper, AT);
    SplitOnceAt(AuthorityText(t, plain, upper), SLASH, Encoded(t.dbname, plain, upper));
    SplitLastAt(UserinfoText(t, plain, upper), AT, HostText(t, plain, upper));
  }

  lemma HeadIsRead(t: Target, plain: byte -> bool, upper: bool)
    requires PrintableTarget(t) && KeepsDelimitersOut(plain)
    ensures UriAfterPrefix(HeadText(t, plain, upper)) == Ok(TargetFields(t))
    ensures t.params != [] ==>
              UriAfterPrefix(HeadText(t, plain, upper) + [QUESTION] + Joined(ParamTexts(t.params, plain, upper), AMPERSAND))
              == Ok(TargetParams(t.params, TargetFields(t)))
  {
    AuthorityHoldsNo(t, plain, upper, QUESTION);
    SplitOnceAt(HeadText(t, plain, upper), QUESTION, Joined(ParamTexts(t.params, plain, upper), AMPERSAND));
    HeadIsSplit(t, plain, upper);
    if t.user == [] && t.password.None? {} else { UserinfoIsRead(t, plain, upper); }
    HostIsRead(UserinfoFields(t), t, plain, upper);
    PathIsRead(Present(Present(UserinfoFields(t), HOST, t.host), PORT, t.port), t, plain, upper);
    ParametersAreRead(t.params, plain, upper, TargetFields(t));
    if t.params != [] {
      SplitUndoesJoined(ParamTexts(t.params, plain, upper), AMPERSAND);
    }
  }

  /** Reading a printed URI returns its user, password, host, port and database name, and its parameters, which replace
      a field of the same name. */
  lemma ParseUndoesPrintUri(t: Target, plain: byte -> bool, upper: bool)
    requires PrintableTarget(t) && KeepsDelimitersOut(plain)
    ensures UriOf(TargetText(t, plain, upper)) == Ok(TargetParams(t.params, TargetFields(t)))
  {
    var head := HeadText(t, plain, upper);
    var rest := if t.params == [] then head else head + [QUESTION] + Joined(ParamTexts(t.params, plain, upper), AMPERSAND);
    var text := TargetText(t, plain, upper);
    assert text == LONG_PREFIX + rest;
    assert text[..|LONG_PREFIX|] == LONG_PREFIX && text[|LONG_PREFIX|..] == rest;
    HeadIsRead(t, plain, upper);
  }
}
