/** Json::Reader in the form of the source: a cursor current_ over the document, moved by loops.
    Every method is proved against the function of the unread text in JsonReader. */
module JsonParser {
  import opened Bytes
  import opened Json
  import opened JsonReader

  /** A method result agrees with the specification of the read. */
  ghost predicate Agrees(r: Read, ok: bool, v: Value, rest: bytes) {
    if r.Done? then ok && v == r.value && rest == r.rest else !ok
  }

  lemma PrependTwice(a: bytes, b: bytes, c: Option<bytes>)
    ensures Prepend(a, Prepend(b, c)) == Prepend(a + b, c)
  {
    if c.Some? { assert a + (b + c.value) == a + b + c.value; }
  }

  lemma PrependNothing(a: bytes, c: Option<bytes>)
    ensures Prepend([], c) == c && Prepend(a, Some([])) == Some(a)
  {
    assert a + [] == a;
    if c.Some? { assert [] + c.value == c.value; }
  }

  class Reader {
    const text: bytes        // begin_ .. end_
    const env: Env
    var current: nat         // current_ - begin_

    constructor (text: bytes, env: Env)
      ensures this.text == text && this.env == env && current == 0
    {
      this.text, this.env, this.current := text, env, 0;
    }

    ghost predicate Valid()
      reads this
    {
      current <= |text|
    }

    ghost function Rest(): bytes
      requires Valid()
      reads this
    {
      text[current..]
    }

    method GetNextChar() returns (c: byte)
      requires Valid()
      modifies this
      ensures Valid()
      ensures if old(Rest()) == [] then c == 0 && current == old(current) else c == old(Rest())[0] && Rest() == old(Rest())[1..]
    {
      if current == |text| { return 0; }
      c := text[current];
      current := current + 1;
    }

    method SkipBlanks()
      requires Valid()
      modifies this
      ensures Valid() && Rest() == SkipSpaces(old(Rest()))
    {
      while current != |text|
        invariant Valid() && SkipSpaces(Rest()) == SkipSpaces(old(Rest()))
        decreases |text| - current
      {
        if !IsSpace(text[current]) { break; }
        assert Rest()[1..] == text[current + 1..];
        current := current + 1;
      }
    }

    /** Compares from the end of the pattern, as the source does. */
    method MatchPattern(pattern: bytes) returns (ok: bool)
      requires Valid()
      modifies this
      ensures Valid() && Scan(ok, Rest()) == Match(old(Rest()), pattern)
    {
      if |text| - current < |pattern| { return false; }
      var index := |pattern|;
      while index > 0
        invariant 0 <= index <= |pattern|
        invariant forall i :: index <= i < |pattern| ==> text[current + i] == pattern[i]
      {
        index := index - 1;
        if text[current + index] != pattern[index] {
          assert Rest()[index] != pattern[index];
          return false;
        }
      }
      assert pattern == Rest()[..|pattern|];
      assert text[current + |pattern|..] == Rest()[|pattern|..];
      current := current + |pattern|;
      ok := true;
    }

    method ReadStringToken() returns (ok: bool)
      requires Valid()
      modifies this
      ensures Valid() && Scan(ok, Rest()) == ScanString(old(Rest()))
    {
      var c: byte := 0;
      while current != |text|
        invariant Valid() && c != QUOTE && ScanString(Rest()) == ScanString(old(Rest()))
        decreases |text| - current
      {
        ghost var rest := Rest();
        c := GetNextChar();
        if c == BACKSLASH {
          var _ := GetNextChar();
          assert |rest| > 1 ==> Rest() == rest[1..][1..] == rest[2..];
        } else if c == QUOTE {
          return true;
        }
      }
      ok := c == QUOTE;
    }

    method ReadCStyleComment() returns (ok: bool)
      requires Valid()
      modifies this
      ensures Valid() && Scan(ok, Rest()) == ScanCComment(old(Rest()))
    {
      while current != |text|
        invariant Valid() && ScanCComment(Rest()) == ScanCComment(old(Rest()))
        decreases |text| - current
      {
        ghost var rest := Rest();
        var c := GetNextChar();
        // *current_ is read even at the end; there both outcomes of the test fail the comment
        if c == STAR && (if current == |text| then env.past else text[current]) == SLASH {
          if current != |text| { assert rest[1..][1..] == rest[2..] && rest[1] == text[current]; }
          break;
        }
      }
      var slash := GetNextChar();
      ok := slash == SLASH;
    }

    method ReadCppStyleComment()
      requires Valid()
      modifies this
      ensures Valid() && Rest() == ScanCppComment(old(Rest()))
    {
      while current != |text|
        invariant Valid() && ScanCppComment(Rest()) == ScanCppComment(old(Rest()))
        decreases |text| - current
      {
        var c := GetNextChar();
        if c == RETURN || c == NEWLINE { return; }
      }
    }

    method ReadComment() returns (ok: bool)
      requires Valid()
      modifies this
      ensures Valid() && Scan(ok, Rest()) == ScanComment(old(Rest()))
    {
      var c := GetNextChar();
      ok := false;
      if c == STAR {
        ok := ReadCStyleComment();
      } else if c == SLASH {
        ReadCppStyleComment();
        ok := true;
      }
    }

    method ReadNumber()
      requires Valid()
      modifies this
      ensures Valid() && Rest() == ScanNumber(old(Rest()))
    {
      while current != |text|
        invariant Valid() && ScanNumber(Rest()) == ScanNumber(old(Rest()))
        decreases |text| - current
      {
        if !IsNumberByte(text[current]) { break; }
        assert Rest()[1..] == text[current + 1..];
        current := current + 1;
      }
    }

    method ReadTokenAt() returns (token: Token)
      requires Valid()
      modifies this
      ensures Valid() && Lexeme(token, Rest()) == ReadToken(old(Rest()))
    {
      SkipBlanks();
      var start := current;
      ghost var t := Rest();
      var c := GetNextChar();
      var kind, ok := Error, true;
      if c == OPEN_BRACE { kind := ObjectBegin; }
      else if c == CLOSE_BRACE { kind := ObjectEnd; }
      else if c == OPEN_BRACKET { kind := ArrayBegin; }
      else if c == CLOSE_BRACKET { kind := ArrayEnd; }
      else if c == QUOTE { kind := String; ok := ReadStringToken(); }
      else if c == SLASH { kind := Comment; ok := ReadComment(); }
      else if IsDigit(c) || c == MINUS { kind := Number; ReadNumber(); }
      else if c == 116 { kind := True; ok := MatchPattern(TRUE_TEXT[1..]); }
      else if c == 102 { kind := False; ok := MatchPattern(FALSE_TEXT[1..]); }
      else if c == 110 { kind := NullToken; ok := MatchPattern(NULL_TEXT[1..]); }
      else if c == COMMA { kind := ArraySeparator; }
      else if c == COLON { kind := MemberSeparator; }
      else if c == 0 { kind := EndOfStream; }
      else { ok := false; }
      if !ok { kind := Error; }
      token := Token(kind, text[start..current]);
      assert t == [] ==> start == current == |text|;
      assert t != [] ==> (kind, Rest()) == TokenFrom(t[0], t[1..]);
      assert text[start..current] == t[..|t| - |Rest()|];
    }

    method SkipCommentTokens() returns (token: Token)
      requires Valid()
      modifies this
      ensures Valid() && Lexeme(token, Rest()) == SkipComments(old(Rest()))
    {
      token := ReadTokenAt();
      while token.kind == Comment
        invariant Valid() && |Rest()| <= |old(Rest())|
        invariant SkipComments(old(Rest())) == if token.kind == Comment then SkipComments(Rest()) else Lexeme(token, Rest())
        decreases |text| - current, token.kind == Comment
      {
        token := ReadTokenAt();
      }
    }

    /** decodeNumber(Token&, Value&). */
    method DecodeNumberToken(token: Token) returns (ok: bool, decoded: Value)
      requires token.text != []
      ensures (if ok then Some(decoded) else None) == DecodeNumber(env, token.text)
    {
      var s := token.text;
      var isDouble, inspect := false, 0;
      while inspect != |s|
        invariant 0 <= inspect <= |s|
        invariant isDouble <==> exists i :: 0 <= i < inspect && IsDoubleMark(s, i)
      {
        isDouble := isDouble || IsDoubleMark(s, inspect);
        inspect := inspect + 1;
      }
      if isDouble {
        ok, decoded := DecodeDoubleToken(token);
        return;
      }
      var location := 0;
      var isNegative := s[0] == MINUS;
      if isNegative { location := 1; }
      var maxIntegerValue := if isNegative then -MIN_LARGEST_INT else MAX_LARGEST_UINT;
      var threshold := maxIntegerValue / 10;
      var value: nat := 0;
      ghost var digits := s[location..];
      while location < |s|
        invariant 0 <= location <= |s|
        invariant DecodeDigits(s[location..], value, maxIntegerValue) == DecodeDigits(digits, 0, maxIntegerValue)
      {
        var c := s[location];
        assert s[location..][1..] == s[location + 1..];
        location := location + 1;
        if c < ZERO || c > NINE { return false, Null; }
        var digit := c - ZERO;
        if value >= threshold {
          if value > threshold || location != |s| || digit > maxIntegerValue % 10 {
            ok, decoded := DecodeDoubleToken(token);
            return;
          }
        }
        value := value * 10 + digit;
      }
      ok, decoded := true, Int(if isNegative then -(value as int) else value);
    }

    /** decodeDouble(Token&, Value&), whose sscanf is env.scans. */
    method DecodeDoubleToken(token: Token) returns (ok: bool, decoded: Value)
      ensures (if ok then Some(decoded) else None) == DecodeDouble(env, token.text)
    {
      ok := env.scans(token.text);
      decoded := if ok then Real(token.text) else Null;
    }

    /** decodeUnicodeEscapeSequence at position `at` of the text between the quotes. */
    static method DecodeUnicodeEscape(s: bytes, at: nat) returns (ok: bool, unicode: nat)
      requires at <= |s|
      ensures ok ==> |s| - at >= 4
      ensures DecodeHex4(s[at..]) == if ok then CodePoint(unicode, s[at..][4..]) else BadEscape
    {
      unicode := 0;
      if |s| - at < 4 { return false, 0; }
      ghost var t := s[at..];
      var index := 0;
      while index < 4
        invariant 0 <= index <= 4
        invariant forall i :: 0 <= i < index ==> HexValue(t[i]).Some?
        invariant unicode == HexPrefix(t, index)
      {
        var c := s[at + index];
        unicode := unicode * 16;
        if c >= ZERO && c <= NINE { unicode := unicode + (c - ZERO); }
        else if c >= 97 && c <= 102 { unicode := unicode + (c - 97 + 10); }
        else if c >= 65 && c <= 70 { unicode := unicode + (c - 65 + 10); }
        else {
          assert HexValue(t[index]).None?;
          return false, 0;
        }
        index := index + 1;
      }
      assert HexPrefix(t, 4) == HexPrefix(t, 2) * 256 + HexValue(t[2]).value * 16 + HexValue(t[3]).value;
      assert HexPrefix(t, 2) == HexValue(t[0]).value * 16 + HexValue(t[1]).value;
      ok := true;
    }

    static ghost function HexPrefix(t: bytes, count: nat): nat
      requires count <= |t| && forall i :: 0 <= i < count ==> HexValue(t[i]).Some?
    {
      if count == 0 then 0 else HexPrefix(t, count - 1) * 16 + HexValue(t[count - 1]).value
    }

    /** decodeUnicodeCodePoint: also takes the second half of a surrogate pair. */
    static method DecodeUnicodeCodePoint(s: bytes, at: nat) returns (ok: bool, unicode: nat, next: nat)
      requires at <= |s|
      ensures ok ==> at < next <= |s|
      ensures DecodeCodePoint(s[at..]) == if ok then CodePoint(unicode, s[next..]) else BadEscape
    {
      ok, unicode := DecodeUnicodeEscape(s, at);
      next := at;
      if !ok { return; }
      next := at + 4;
      assert s[at..][4..] == s[next..];
      if 0xD800 <= unicode <= 0xDBFF {
        if |s| - next < 6 { return false, 0, next; }
        if s[next] == BACKSLASH && s[next + 1] == 117 {
          var low;
          assert s[next..][2..] == s[next + 2..];
          ok, low := DecodeUnicodeEscape(s, next + 2);
          if !ok { return; }
          assert s[next + 2..][4..] == s[next + 6..];
          next := next + 6;
          unicode := 0x10000 + unicode % 0x400 * 0x400 + low % 0x400;
        } else {
          return false, 0, next;
        }
      }
    }

    /** decodeString(Token&, std::string&). */
    method DecodeStringToken(token: Token) returns (ok: bool, decoded: bytes)
      requires |token.text| >= 2
      ensures (if ok then Some(decoded) else None) == DecodeString(token.text)
    {
      decoded := [];
      var s := token.text[1..|token.text| - 1];
      var at := 0;
      assert s[at..] == s;
      PrependNothing([], DecodeBody(s));
      while at != |s|
        invariant 0 <= at <= |s|
        invariant DecodeBody(s) == Prepend(decoded, DecodeBody(s[at..]))
        decreases |s| - at
      {
        var c := s[at];
        ghost var rest := s[at..];
        at := at + 1;
        assert rest[1..] == s[at..];
        if c == QUOTE { break; }
        else if c == BACKSLASH {
          if at == |s| { return false, []; }
          var escape := s[at];
          at := at + 1;
          assert rest[2..] == s[at..];
          if escape == 117 {
            var unicode, next;
            ok, unicode, next := DecodeUnicodeCodePoint(s, at);
            if !ok { return false, []; }
            at := next;
            PrependTwice(decoded, CodePointToUtf8(unicode), DecodeBody(s[at..]));
            decoded := decoded + CodePointToUtf8(unicode);
          } else {
            match SimpleEscape(escape)
            case None => return false, [];
            case Some(e) =>
              PrependTwice(decoded, [e], DecodeBody(s[at..]));
              decoded := decoded + [e];
          }
        } else {
          PrependTwice(decoded, [c], DecodeBody(s[at..]));
          decoded := decoded + [c];
        }
      }
      PrependNothing(decoded, None);
      ok := true;
    }

    /** Reader::parse: the rest of the document is tokenized but cannot fail the parse. */
    method ParseDocument() returns (ok: bool, root: Value)
      requires current == 0
      modifies this
      ensures (if ok then Some(root) else None) == Parse(env, text)
    {
      assert Rest() == text;
      ok, root := ReadOneValue();
      if ok { var _ := SkipCommentTokens(); }
    }

    /** readValue. After a failure the source reads on to collect errors; the cursor is then unspecified. */
    method ReadOneValue() returns (ok: bool, value: Value)
      requires Valid()
      modifies this
      ensures Valid() && Agrees(ReadValue(env, old(Rest())), ok, value, Rest())
      decreases |text| - current, 2
    {
      var token := SkipCommentTokens();
      ok, value := true, Null;
      match token.kind
      case ObjectBegin => ok, value := ReadMembers();
      case ArrayBegin => ok, value := ReadElements();
      case Number => ok, value := DecodeNumberToken(token);
      case String =>
        var decoded;
        ok, decoded := DecodeStringToken(token);
        value := Str(CString(decoded));
      case True => value := Bool(true);
      case False => value := Bool(false);
      case NullToken => value := Null;
      case _ => ok := false;
    }

    /** readObject, from behind the opening brace. */
    method ReadMembers() returns (ok: bool, result: Value)
      requires Valid()
      modifies this
      ensures Valid() && Agrees(ReadObject(env, old(Rest()), [], []), ok, result, Rest())
      decreases |text| - current, 1
    {
      var members: seq<Member> := [];
      var name: bytes := [];
      result := Null;
      while true
        invariant Valid() && |Rest()| <= |old(Rest())|
        invariant ReadObject(env, Rest(), members, name) == ReadObject(env, old(Rest()), [], [])
        decreases |text| - current
      {
        var tokenName := SkipCommentTokens();
        if tokenName.kind == ObjectEnd && name == [] { return true, Obj(members); }
        if tokenName.kind != String { return false, Null; }
        ok, name := DecodeStringToken(tokenName);
        if !ok { return false, Null; }
        var colon := ReadTokenAt();
        if colon.kind != MemberSeparator { return false, Null; }
        var value;
        ok, value := ReadOneValue();
        if !ok { return false, Null; }
        members := Insert(members, CString(name), value);
        var comma := ReadTokenAt();
        if comma.kind != ObjectEnd && comma.kind != ArraySeparator && comma.kind != Comment { return false, Null; }
        if comma.kind == Comment { comma := SkipCommentTokens(); }
        if comma.kind == ObjectEnd { return true, Obj(members); }
      }
    }

    /** readArray, from behind the opening bracket. */
    method ReadElements() returns (ok: bool, result: Value)
      requires Valid()
      modifies this
      ensures Valid() && Agrees(ReadArray(env, old(Rest())), ok, result, Rest())
      decreases |text| - current, 4
    {
      SkipBlanks();
      // *current_ is read even at the end of the text
      if (if current == |text| then env.past else text[current]) == CLOSE_BRACKET {
        var _ := ReadTokenAt();
        return true, Arr([]);
      }
      var items: seq<Value> := [];
      result := Null;
      ghost var start := Rest();
      while true
        invariant Valid() && |Rest()| <= |start|
        invariant ReadItems(env, Rest(), items) == ReadItems(env, start, [])
        decreases |text| - current
      {
        var value;
        ok, value := ReadOneValue();
        if !ok { return false, Null; }
        items := items + [value];
        var token := SkipCommentTokens();
        if token.kind != ArraySeparator && token.kind != ArrayEnd { return false, Null; }
        if token.kind == ArrayEnd { return true, Arr(items); }
      }
    }
  }
}
