/** What Json::Reader accepts beyond JSON: families of texts, each with the value the reader makes of it. */
module JsonLeniency {
  import opened Bytes
  import opened Json
  import opened JsonReader
  import opened JsonRoundTrip
  import JsonText
  import JsonConformance

  /** A minus sign without digits is the number 0. */
  lemma LoneMinusIsZero(env: Env, suffix: bytes)
    requires Terminated(suffix)
    ensures Parse(env, [MINUS] + suffix) == Some(Int(0))
  {
    var s := [MINUS] + suffix;
    assert [MINUS][1..] + suffix == suffix;
    ScanNumberStops([], suffix);
    assert [] + suffix == suffix;
    TokenIs([MINUS], suffix, Number);
    NotComment(s);
    assert [MINUS][1..] == [];
  }

  /** Text behind the first value is ignored, whatever it is. */
  lemma RestIsIgnored(env: Env, v: Value, suffix: bytes)
    requires Printable(v) && Terminated(suffix)
    ensures Parse(env, Print(v) + suffix) == Some(v)
  {
    ValueReads(env, v, suffix);
  }

  /** Any digits are a number, leading zeros included. */
  lemma LeadingZeros(env: Env, s: bytes, suffix: bytes)
    requires AllDigits(s) && s != [] && Terminated(suffix)
    ensures Parse(env, s + suffix) ==
      if NumberValue(s, 0) <= MAX_LARGEST_UINT then Some(Int(NumberValue(s, 0))) else DecodeDouble(env, s)
  {
    ScanNumberStops(s[1..], suffix);
    TokenIs(s, suffix, Number);
    NotComment(s + suffix);
    IntegersAreExact(env, s, false);
  }

  /** Bytes that may stand in a string as they are: all but the quote and the backslash. */
  predicate AllRaw(s: bytes) {
    forall i :: 0 <= i < |s| ==> s[i] != QUOTE && s[i] != BACKSLASH
  }

  lemma {:induction false} RawScans(s: bytes, suffix: bytes)
    requires AllRaw(s)
    ensures ScanString(s + ([QUOTE] + suffix)) == Scan(true, suffix)
    decreases |s|
  {
    var end := [QUOTE] + suffix;
    if s == [] {
      assert s + end == end && end[1..] == suffix;
    } else {
      RawScans(s[1..], suffix);
      assert (s + end)[1..] == s[1..] + end;
    }
  }

  lemma {:induction false} RawDecodes(s: bytes)
    requires AllRaw(s)
    ensures DecodeBody(s) == Some(s)
    decreases |s|
  {
    if s != [] {
      RawDecodes(s[1..]);
      assert [s[0]] + s[1..] == s;
    }
  }

  /** Control characters, line ends and bytes that are no UTF-8 are taken as they are; a NUL ends the value. */
  lemma RawBytesInString(env: Env, s: bytes, suffix: bytes, text: bytes)
    requires AllRaw(s) && text == [QUOTE] + s + [QUOTE]
    ensures ReadValue(env, text + suffix) == Done(Str(CString(s)), suffix)
  {
    RawScans(s, suffix);
    RawDecodes(s);
    assert text[1..] + suffix == s + ([QUOTE] + suffix);
    TokenIs(text, suffix, String);
    NotComment(text + suffix);
    assert text[1..|text| - 1] == s;
  }

  /** The letters of the escapes are those of JSON. */
  lemma EscapeLetters(c: byte, rest: bytes)
    requires c != 117
    ensures DecodeBody([BACKSLASH, c] + rest) ==
      if c in JsonText.SHORT then Prepend([JsonText.SHORT[c]], DecodeBody(rest)) else None
  {
    assert ([BACKSLASH, c] + rest)[2..] == rest;
  }

  /** Four hexadecimal digits, and nothing else. */
  lemma Hex4Iff(s: bytes)
    ensures DecodeHex4(s) ==
      if |s| >= 4 && JsonText.IsHex4(s[..4]) then CodePoint(JsonText.Hex4Of(s[..4]), s[4..]) else BadEscape
  {
    if |s| >= 4 && JsonText.IsHex4(s[..4]) {
      assert s == s[..4] + s[4..];
      JsonConformance.Hex4Is(s[..4], s[4..]);
    }
  }

  /** A high surrogate takes any escape behind it for its other half, and fails exactly when there is none. */
  lemma HighSurrogateIff(high: bytes, rest: bytes)
    requires JsonText.IsHex4(high) && 0xD800 <= JsonText.Hex4Of(high) <= 0xDBFF
    ensures DecodeCodePoint(high + rest) ==
      if |rest| >= 6 && rest[..2] == [BACKSLASH, 117] && JsonText.IsHex4(rest[2..6])
      then CodePoint(0x10000 + 1024 * (JsonText.Hex4Of(high) - 0xD800) + JsonText.Hex4Of(rest[2..6]) % 1024, rest[6..])
      else BadEscape
  {
    var h := JsonText.Hex4Of(high);
    JsonConformance.Hex4Is(high, rest);
    assert h % 1024 == h - 0xD800;
    if |rest| >= 6 {
      Hex4Iff(rest[2..]);
      assert rest[2..][..4] == rest[2..6] && rest[2..][4..] == rest[6..];
    }
  }

  /** A low surrogate on its own stands for itself. */
  lemma LoneLowSurrogate(hex: bytes, rest: bytes)
    requires JsonText.IsHex4(hex) && 0xDC00 <= JsonText.Hex4Of(hex) <= 0xDFFF
    ensures DecodeCodePoint(hex + rest) == CodePoint(JsonText.Hex4Of(hex), rest)
  {
    JsonConformance.Hex4Is(hex, rest);
  }

  /** A comma may end an object exactly when the last member name is empty, whatever stands before that member. */
  lemma TrailingComma(env: Env, m: Member, suffix: bytes, before: seq<Member>, name: bytes)
    requires 0 !in m.key && Printable(m.value)
    ensures ReadObject(env, PrintMember(m) + ([COMMA] + ([CLOSE_BRACE] + suffix)), before, name) ==
      if m.key == [] then Done(Obj(Insert(before, m.key, m.value)), suffix) else Fail
  {
    var close := [CLOSE_BRACE] + suffix;
    var end := [COMMA] + close;
    PrintMemberSplits(m, end);
    ValueReads(env, m.value, end);
    StringToken(m.key, [COLON] + (Print(m.value) + end));
    PunctuationToken(COLON, Print(m.value) + end, MemberSeparator);
    PunctuationToken(COMMA, close, ArraySeparator);
    PunctuationToken(CLOSE_BRACE, suffix, ObjectEnd);
  }

  const COMMENT: bytes := [SLASH, STAR, STAR, SLASH]

  lemma CommentToken(rest: bytes)
    ensures ReadToken(COMMENT + rest) == Lexeme(Token(Comment, COMMENT), rest)
  {
    var body := [STAR, SLASH] + rest;
    assert COMMENT[1..] + rest == [STAR] + body && ([STAR] + body)[1..] == body;
    assert body[2..] == rest && ScanCComment(body) == Scan(true, rest);
    TokenIs(COMMENT, rest, Comment);
  }

  /** Behind a comment that follows a member, any token but a closing brace does for the comma. */
  lemma CommentReplacesComma(env: Env, m: Member, rest: bytes, l: Lexeme, before: seq<Member>, name: bytes)
    requires 0 !in m.key && Printable(m.value) && l == SkipComments(rest) && l.token.kind != ObjectEnd
    ensures ReadObject(env, PrintMember(m) + (COMMENT + rest), before, name) ==
      ReadObject(env, l.rest, Insert(before, m.key, m.value), m.key)
  {
    var end := COMMENT + rest;
    PrintMemberSplits(m, end);
    ValueReads(env, m.value, end);
    StringToken(m.key, [COLON] + (Print(m.value) + end));
    PunctuationToken(COLON, Print(m.value) + end, MemberSeparator);
    CommentToken(rest);
  }

  /** For instance a colon, between any two members. */
  lemma ColonAsComma(env: Env, m: Member, n: Member, suffix: bytes, text: bytes)
    requires 0 !in m.key && Printable(m.value) && 0 !in n.key && Printable(n.value) && KeyLess(m.key, n.key)
    requires text == [OPEN_BRACE] + (PrintMember(m) + (COMMENT + ([COLON] + (PrintMember(n) + ([CLOSE_BRACE] + suffix)))))
    ensures ReadValue(env, text) == Done(Obj([m, n]), suffix)
  {
    var second := PrintMember(n) + ([CLOSE_BRACE] + suffix);
    PunctuationToken(OPEN_BRACE, PrintMember(m) + (COMMENT + ([COLON] + second)), ObjectBegin);
    PunctuationToken(COLON, second, MemberSeparator);
    CommentReplacesComma(env, m, [COLON] + second, Lexeme(Token(MemberSeparator, [COLON]), second), [], []);
    assert Insert([], m.key, m.value) == [m] && [m] + [n] == [m, n];
    MemberReads(env, n, [m], m.key, CLOSE_BRACE, suffix);
  }
}
