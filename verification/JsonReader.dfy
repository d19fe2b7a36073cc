/** Json::Reader (src/json/jsoncpp.cpp) as functions of the text that is still unread.
    Errors recovery only collects more messages and always reports failure, so a failed read is None. */
module JsonReader {
  import opened Bytes
  import opened Json

  /** What the reader depends on besides its text: the byte found at *end_, which readArray looks at,
      and whether sscanf("%lf") accepts a text. */
  datatype Env = Env(past: byte, scans: bytes -> bool)

  datatype TokenKind =
    | EndOfStream | ObjectBegin | ObjectEnd | ArrayBegin | ArrayEnd | String | Number
    | True | False | NullToken | ArraySeparator | MemberSeparator | Comment | Error

  datatype Token = Token(kind: TokenKind, text: bytes)

  /** A token and the text behind it. */
  datatype Lexeme = Lexeme(token: Token, rest: bytes)

  datatype Scan = Scan(ok: bool, rest: bytes)

  datatype Read = Fail | Done(value: Value, rest: bytes)

  // ---- tokens ------------------------------------------------------------------------------

  predicate IsSpace(c: byte) { c == SPACE || c == TAB || c == RETURN || c == NEWLINE }

  function SkipSpaces(s: bytes): (r: bytes)
    ensures |r| <= |s|
  {
    if s != [] && IsSpace(s[0]) then SkipSpaces(s[1..]) else s
  }

  /** readString, from behind the opening quote. */
  function ScanString(s: bytes): (r: Scan)
    ensures |r.rest| <= |s| && (r.ok ==> |r.rest| < |s|)
  {
    if s == [] then Scan(false, [])
    else if s[0] == BACKSLASH then (if |s| == 1 then Scan(false, []) else ScanString(s[2..]))
    else if s[0] == QUOTE then Scan(true, s[1..])
    else ScanString(s[1..])
  }

  /** readCStyleComment, from behind the opening. */
  function ScanCComment(s: bytes): (r: Scan)
    ensures |r.rest| <= |s|
  {
    if s == [] then Scan(false, [])
    else if |s| > 1 && s[0] == STAR && s[1] == SLASH then Scan(true, s[2..])
    else ScanCComment(s[1..])
  }

  /** readCppStyleComment, from behind the opening. */
  function ScanCppComment(s: bytes): (r: bytes)
    ensures |r| <= |s|
  {
    if s == [] then []
    else if s[0] == RETURN || s[0] == NEWLINE then s[1..]
    else ScanCppComment(s[1..])
  }

  /** readComment, from behind the first slash. */
  function ScanComment(s: bytes): (r: Scan)
    ensures |r.rest| <= |s|
  {
    if s == [] then Scan(false, [])
    else if s[0] == STAR then ScanCComment(s[1..])
    else if s[0] == SLASH then Scan(true, ScanCppComment(s[1..]))
    else Scan(false, s[1..])
  }

  /** The bytes that belong to a number: digits and . e E + - */
  predicate IsNumberByte(c: byte) { IsDigit(c) || c == DOT || c == 101 || c == 69 || c == PLUS || c == MINUS }

  function ScanNumber(s: bytes): (r: bytes)
    ensures |r| <= |s|
  {
    if s != [] && IsNumberByte(s[0]) then ScanNumber(s[1..]) else s
  }

  function Match(s: bytes, pattern: bytes): (r: Scan)
    ensures |r.rest| <= |s|
  {
    if pattern <= s then Scan(true, s[|pattern|..]) else Scan(false, s)
  }

  /** The switch of readToken, from behind the first byte c of the token. */
  function TokenFrom(c: byte, s: bytes): (r: (TokenKind, bytes))
    ensures |r.1| <= |s| && (r.0 == String ==> |r.1| < |s|)
  {
    if c == OPEN_BRACE then (ObjectBegin, s)
    else if c == CLOSE_BRACE then (ObjectEnd, s)
    else if c == OPEN_BRACKET then (ArrayBegin, s)
    else if c == CLOSE_BRACKET then (ArrayEnd, s)
    else if c == QUOTE then Checked(String, ScanString(s))
    else if c == SLASH then Checked(Comment, ScanComment(s))
    else if IsDigit(c) || c == MINUS then (Number, ScanNumber(s))
    else if c == 116 then Checked(True, Match(s, TRUE_TEXT[1..]))
    else if c == 102 then Checked(False, Match(s, FALSE_TEXT[1..]))
    else if c == 110 then Checked(NullToken, Match(s, NULL_TEXT[1..]))
    else if c == COMMA then (ArraySeparator, s)
    else if c == COLON then (MemberSeparator, s)
    else if c == 0 then (EndOfStream, s)
    else (Error, s)
  }

  function Checked(kind: TokenKind, scan: Scan): (TokenKind, bytes) {
    (if scan.ok then kind else Error, scan.rest)
  }

  function ReadToken(s: bytes): (r: Lexeme)
    ensures |r.rest| <= |s|
    ensures r.token.kind == EndOfStream || |r.rest| < |s|
    ensures r.token.text != [] || r.token.kind == EndOfStream
    ensures r.token.kind == String ==> |r.token.text| >= 2
  {
    var t := SkipSpaces(s);
    if t == [] then Lexeme(Token(EndOfStream, []), [])
    else
      var (kind, rest) := TokenFrom(t[0], t[1..]);
      Lexeme(Token(kind, t[..|t| - |rest|]), rest)
  }

  /** skipCommentTokens. */
  function SkipComments(s: bytes): (r: Lexeme)
    ensures |r.rest| <= |s|
    ensures r.token.kind == EndOfStream || |r.rest| < |s|
    ensures r.token.text != [] || r.token.kind == EndOfStream
    ensures r.token.kind == String ==> |r.token.text| >= 2
    decreases |s|
  {
    var l := ReadToken(s);
    if l.token.kind == Comment then SkipComments(l.rest) else l
  }

  // ---- numbers -----------------------------------------------------------------------------

  datatype DigitsResult = Natural(n: nat) | TooLarge | NotANumber

  /** The loop of decodeNumber: digits are accumulated while the value cannot exceed max. */
  function DecodeDigits(s: bytes, value: nat, max: nat): DigitsResult
    decreases |s|
  {
    if s == [] then Natural(value)
    else if !IsDigit(s[0]) then NotANumber
    else
      var digit := s[0] - ZERO;
      var threshold := max / 10;
      if value >= threshold && (value > threshold || |s| > 1 || digit > max % 10) then TooLarge
      else DecodeDigits(s[1..], value * 10 + digit, max)
  }

  predicate IsDoubleMark(s: bytes, i: nat)
    requires i < |s|
  {
    s[i] == DOT || s[i] == 101 || s[i] == 69 || s[i] == PLUS || (s[i] == MINUS && i > 0)
  }

  predicate LooksLikeDouble(s: bytes) {
    exists i :: 0 <= i < |s| && IsDoubleMark(s, i)
  }

  function DecodeDouble(env: Env, s: bytes): Option<Value> {
    if env.scans(s) then Some(Real(s)) else None
  }

  function DecodeNumber(env: Env, s: bytes): Option<Value>
    requires s != []
  {
    if LooksLikeDouble(s) then DecodeDouble(env, s)
    else
      var negative := s[0] == MINUS;
      var max := if negative then -MIN_LARGEST_INT else MAX_LARGEST_UINT;
      match DecodeDigits(if negative then s[1..] else s, 0, max)
      case Natural(n) => Some(Int(if negative then -(n as int) else n))
      case TooLarge => DecodeDouble(env, s)
      case NotANumber => None
  }

  // ---- strings -----------------------------------------------------------------------------

  function HexValue(c: byte): Option<nat> {
    if IsDigit(c) then Some(c - ZERO)
    else if 97 <= c <= 102 then Some(c - 87)
    else if 65 <= c <= 70 then Some(c - 55)
    else None
  }

  datatype CodePoint = BadEscape | CodePoint(cp: nat, rest: bytes)

  /** decodeUnicodeEscapeSequence. */
  function DecodeHex4(s: bytes): (r: CodePoint)
    ensures r.CodePoint? ==> |r.rest| == |s| - 4
  {
    if |s| < 4 then BadEscape
    else
      var h := seq(4, i requires 0 <= i < 4 => HexValue(s[i]));
      if h[0].None? || h[1].None? || h[2].None? || h[3].None? then BadEscape
      else CodePoint(((h[0].value * 16 + h[1].value) * 16 + h[2].value) * 16 + h[3].value, s[4..])
  }

  /** decodeUnicodeCodePoint: a high surrogate takes the following escape with it. */
  function DecodeCodePoint(s: bytes): (r: CodePoint)
    ensures r.CodePoint? ==> |r.rest| < |s|
  {
    match DecodeHex4(s)
    case BadEscape => BadEscape
    case CodePoint(high, rest) =>
      if 0xD800 <= high <= 0xDBFF then
        if |rest| < 6 || rest[0] != BACKSLASH || rest[1] != 117 then BadEscape
        else
          match DecodeHex4(rest[2..])
          case BadEscape => BadEscape
          case CodePoint(low, rest') => CodePoint(0x10000 + high % 0x400 * 0x400 + low % 0x400, rest')
      else CodePoint(high, rest)
  }

  function CodePointToUtf8(cp: nat): bytes {
    if cp <= 0x7F then [cp]
    else if cp <= 0x7FF then [0xC0 + cp / 0x40 % 0x20, 0x80 + cp % 0x40]
    else if cp <= 0xFFFF then [0xE0 + cp / 0x1000 % 0x10, 0x80 + cp / 0x40 % 0x40, 0x80 + cp % 0x40]
    else if cp <= 0x10FFFF then
      [0xF0 + cp / 0x40000 % 8, 0x80 + cp / 0x1000 % 0x40, 0x80 + cp / 0x40 % 0x40, 0x80 + cp % 0x40]
    else []
  }

  /** The byte a one-letter escape stands for. */
  function SimpleEscape(c: byte): Option<byte> {
    if c == QUOTE || c == SLASH || c == BACKSLASH then Some(c)
    else if c == 98 then Some(8)
    else if c == 102 then Some(12)
    else if c == 110 then Some(NEWLINE)
    else if c == 114 then Some(RETURN)
    else if c == 116 then Some(TAB)
    else None
  }

  /** The loop of decodeString, over the text between the quotes. */
  function DecodeBody(s: bytes): Option<bytes>
    decreases |s|
  {
    if s == [] || s[0] == QUOTE then Some([])
    else if s[0] != BACKSLASH then Prepend([s[0]], DecodeBody(s[1..]))
    else if |s| == 1 then None
    else if s[1] == 117 then
      match DecodeCodePoint(s[2..])
      case BadEscape => None
      case CodePoint(cp, rest) => Prepend(CodePointToUtf8(cp), DecodeBody(rest))
    else
      match SimpleEscape(s[1])
      case None => None
      case Some(c) => Prepend([c], DecodeBody(s[2..]))
  }

  function Prepend(a: bytes, b: Option<bytes>): Option<bytes> {
    if b.Some? then Some(a + b.value) else None
  }

  function DecodeString(text: bytes): Option<bytes>
    requires |text| >= 2
  {
    DecodeBody(text[1..|text| - 1])
  }

  // ---- values ------------------------------------------------------------------------------

  /** currentValue()[key] = v. */
  function Insert(ms: seq<Member>, key: bytes, v: Value): seq<Member> {
    if ms == [] || KeyLess(key, ms[0].key) then [Member(key, v)] + ms
    else if ms[0].key == key then [Member(key, v)] + ms[1..]
    else [ms[0]] + Insert(ms[1..], key, v)
  }

  function ReadValue(env: Env, s: bytes): (r: Read)
    ensures r.Done? ==> |r.rest| < |s|
    decreases |s|, 2
  {
    var Lexeme(token, rest) := SkipComments(s);
    match token.kind
    case ObjectBegin => ReadObject(env, rest, [], [])
    case ArrayBegin => ReadArray(env, rest)
    case Number =>
      (match DecodeNumber(env, token.text) case Some(v) => Done(v, rest) case None => Fail)
    case String =>
      (match DecodeString(token.text) case Some(d) => Done(Str(CString(d)), rest) case None => Fail)
    case True => Done(Bool(true), rest)
    case False => Done(Bool(false), rest)
    case NullToken => Done(Null, rest)
    case _ => Fail
  }

  /** The loop of readObject; `name` is the last member name, which decides whether } may come next. */
  function ReadObject(env: Env, s: bytes, ms: seq<Member>, name: bytes): (r: Read)
    ensures r.Done? ==> |r.rest| < |s|
    decreases |s|, 0
  {
    var Lexeme(token, afterName) := SkipComments(s);
    if token.kind == ObjectEnd && name == [] then Done(Obj(ms), afterName)
    else if token.kind != String then Fail
    else
      match DecodeString(token.text)
      case None => Fail
      case Some(key) =>
        var colon := ReadToken(afterName);
        if colon.token.kind != MemberSeparator then Fail
        else
          match ReadValue(env, colon.rest)
          case Fail => Fail
          case Done(v, rest) =>
            var first := ReadToken(rest);
            if first.token.kind !in {ObjectEnd, ArraySeparator, Comment} then Fail
            else
              var comma := if first.token.kind == Comment then SkipComments(first.rest) else first;
              var ms' := Insert(ms, CString(key), v);
              if comma.token.kind == ObjectEnd then Done(Obj(ms'), comma.rest)
              else ReadObject(env, comma.rest, ms', key)
  }

  function ReadArray(env: Env, s: bytes): (r: Read)
    ensures r.Done? ==> |r.rest| <= |s|
    decreases |s|, 4
  {
    var t := SkipSpaces(s);
    if (if t == [] then env.past else t[0]) == CLOSE_BRACKET then Done(Arr([]), ReadToken(t).rest)
    else ReadItems(env, t, [])
  }

  function ReadItems(env: Env, s: bytes, vs: seq<Value>): (r: Read)
    ensures r.Done? ==> |r.rest| < |s|
    decreases |s|, 3
  {
    match ReadValue(env, s)
    case Fail => Fail
    case Done(v, rest) =>
      var l := SkipComments(rest);
      if l.token.kind == ArrayEnd then Done(Arr(vs + [v]), l.rest)
      else if l.token.kind == ArraySeparator then ReadItems(env, l.rest, vs + [v])
      else Fail
  }

  /** Reader::parse without comment collection: text behind the first value is not looked at. */
  function Parse(env: Env, doc: bytes): Option<Value> {
    match ReadValue(env, doc) case Done(v, _) => Some(v) case Fail => None
  }
}
