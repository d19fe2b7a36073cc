/** Reading back what FastWriter printed. */
module JsonRoundTrip {
  import opened Bytes
  import opened Json
  import opened JsonReader

  // ---- integers ----------------------------------------------------------------------------

  predicate AllDigits(s: bytes) { forall i :: 0 <= i < |s| ==> IsDigit(s[i]) }

  /** The number written by the digits s behind digits worth `value`. */
  function NumberValue(s: bytes, value: nat): nat
    requires AllDigits(s)
    decreases |s|
  {
    if s == [] then value else NumberValue(s[1..], value * 10 + (s[0] - ZERO))
  }

  lemma {:induction false} NumberGrows(s: bytes, value: nat)
    requires AllDigits(s)
    ensures NumberValue(s, value) >= if s == [] then value else value * 10
    decreases |s|
  {
    if s != [] { NumberGrows(s[1..], value * 10 + (s[0] - ZERO)); }
  }

  /** The threshold test of decodeNumber is exact: digits are accepted exactly when their value does
      not exceed max, and then it is their value. */
  lemma {:induction false} DigitsAreExact(s: bytes, value: nat, max: nat)
    requires AllDigits(s) && value <= max && max >= 10
    ensures DecodeDigits(s, value, max) ==
            if NumberValue(s, value) <= max then Natural(NumberValue(s, value)) else TooLarge
    decreases |s|
  {
    if s != [] {
      var next := value * 10 + (s[0] - ZERO);
      NumberGrows(s[1..], next);
      if next <= max { DigitsAreExact(s[1..], next, max); }
    }
  }

  /** A non-empty digit string with optional minus is stored as an integer exactly when its value
      lies in -2^63 .. 2^64-1, and then as that value; otherwise it is handed to sscanf. */
  lemma IntegersAreExact(env: Env, s: bytes, negative: bool)
    requires AllDigits(s) && s != []
    ensures var n := if negative then -(NumberValue(s, 0) as int) else NumberValue(s, 0);
      var text := if negative then [MINUS] + s else s;
      DecodeNumber(env, text) ==
        if MIN_LARGEST_INT <= n <= MAX_LARGEST_UINT then Some(Int(n)) else DecodeDouble(env, text)
  {
    DigitsAreExact(s, 0, if negative then -MIN_LARGEST_INT else MAX_LARGEST_UINT);
    if negative { assert ([MINUS] + s)[1..] == s; }
  }

  lemma {:induction false} NumberAppend(s: bytes, c: byte, value: nat)
    requires AllDigits(s) && IsDigit(c)
    ensures AllDigits(s + [c]) && NumberValue(s + [c], value) == NumberValue(s, value) * 10 + (c - ZERO)
    decreases |s|
  {
    if s == [] {
      assert [] + [c] == [c] && [c][1..] == [];
    } else {
      NumberAppend(s[1..], c, value * 10 + (s[0] - ZERO));
      assert (s + [c])[1..] == s[1..] + [c];
    }
  }

  lemma {:induction false} DigitsValue(n: nat)
    ensures AllDigits(Digits(n)) && NumberValue(Digits(n), 0) == n
  {
    if n < 10 {
      assert Digits(n)[1..] == [];
    } else {
      DigitsValue(n / 10);
      NumberAppend(Digits(n / 10), ZERO + n % 10, 0);
    }
  }

  lemma PrintedIntDecodes(env: Env, n: int)
    requires MIN_LARGEST_INT < n <= MAX_LARGEST_UINT
    ensures DecodeNumber(env, PrintInt(n)) == Some(Int(n))
  {
    var m := if n < 0 then -n else n;
    DigitsValue(m);
    IntegersAreExact(env, Digits(m), n < 0);
  }

  /** A text that cannot continue a number. */
  predicate Terminated(s: bytes) { s == [] || !IsNumberByte(s[0]) }

  lemma {:induction false} ScanNumberStops(s: bytes, suffix: bytes)
    requires AllDigits(s) && Terminated(suffix)
    ensures ScanNumber(s + suffix) == suffix
  {
    if s == [] {
      assert s + suffix == suffix;
    } else {
      ScanNumberStops(s[1..], suffix);
      assert (s + suffix)[1..] == s[1..] + suffix;
    }
  }

  /** A token whose first byte is not a space and whose scan leaves the suffix. */
  lemma TokenIs(text: bytes, suffix: bytes, kind: TokenKind)
    requires text != [] && !IsSpace(text[0])
    requires TokenFrom(text[0], text[1..] + suffix) == (kind, suffix)
    ensures ReadToken(text + suffix) == Lexeme(Token(kind, text), suffix)
  {
    var s := text + suffix;
    assert SkipSpaces(s) == s && s[0] == text[0];
    assert s[1..] == text[1..] + suffix;
    assert s[..|s| - |suffix|] == text;
  }

  lemma NotComment(s: bytes)
    requires ReadToken(s).token.kind != Comment
    ensures SkipComments(s) == ReadToken(s)
  {
  }

  lemma IntToken(n: int, suffix: bytes)
    requires Terminated(suffix)
    ensures SkipComments(PrintInt(n) + suffix) == Lexeme(Token(Number, PrintInt(n)), suffix)
  {
    var ds := Digits(if n < 0 then -n else n);
    var text := PrintInt(n);
    assert AllDigits(ds);
    if n < 0 {
      assert text[1..] == ds;
      ScanNumberStops(ds, suffix);
    } else {
      ScanNumberStops(ds[1..], suffix);
    }
    TokenIs(text, suffix, Number);
    NotComment(text + suffix);
  }

  // ---- strings -----------------------------------------------------------------------------

  lemma HexDigitValue(d: nat)
    requires d < 16
    ensures HexValue(HexDigit(d)) == Some(d)
  {
  }

  /** An escaped byte reads as one unit inside a string and decodes to the byte. */
  lemma EscapeByteReads(c: byte, rest: bytes)
    requires c != 0
    ensures ScanString(EscapeByte(c) + rest) == ScanString(rest)
    ensures DecodeBody(EscapeByte(c) + rest) == Prepend([c], DecodeBody(rest))
  {
    var e := EscapeByte(c);
    var s := e + rest;
    if |e| == 1 {
      assert s[1..] == rest;
    } else if |e| == 2 {
      assert s[2..] == rest;
    } else {
      ControlEscapeReads(c, rest);
    }
  }

  lemma ControlEscapeReads(c: byte, rest: bytes)
    requires |EscapeByte(c)| == 6
    ensures ScanString(EscapeByte(c) + rest) == ScanString(rest)
    ensures DecodeBody(EscapeByte(c) + rest) == Prepend([c], DecodeBody(rest))
  {
    var s := EscapeByte(c) + rest;
    var t := [ZERO, ZERO, HexDigit(c / 16), HexDigit(c % 16)];
    assert s[2..] == t + rest;
    PlainScan(t, rest);
    HexDigitValue(c / 16);
    HexDigitValue(c % 16);
    assert (t + rest)[4..] == rest;
    assert DecodeHex4(t + rest) == CodePoint(c, rest);
    assert DecodeCodePoint(s[2..]) == CodePoint(c, rest) && CodePointToUtf8(c) == [c];
  }

  /** Bytes that are neither a quote nor a backslash. */
  lemma {:induction false} PlainScan(t: bytes, rest: bytes)
    requires QUOTE !in t && BACKSLASH !in t
    ensures ScanString(t + rest) == ScanString(rest)
  {
    if t == [] {
      Cons(QUOTE, rest);
    } else {
      assert (t + rest)[1..] == t[1..] + rest;
      PlainScan(t[1..], rest);
    }
  }

  lemma {:induction false} EscapeScans(s: bytes, suffix: bytes)
    requires 0 !in s
    ensures ScanString(Escape(s) + ([QUOTE] + suffix)) == Scan(true, suffix)
  {
    if s == [] {
      Cons(QUOTE, suffix);
      Cons(QUOTE, [QUOTE] + suffix);
    } else {
      var rest, end := Escape(s[1..]), [QUOTE] + suffix;
      EscapeScans(s[1..], suffix);
      EscapeByteReads(s[0], rest + end);
      Assoc3(EscapeByte(s[0]), rest, end);
    }
  }

  lemma {:induction false} EscapeDecodes(s: bytes)
    requires 0 !in s
    ensures DecodeBody(Escape(s)) == Some(s)
  {
    if s != [] {
      EscapeDecodes(s[1..]);
      EscapeByteReads(s[0], Escape(s[1..]));
      assert [s[0]] + s[1..] == s;
    }
  }

  /** A quoted string is one token, and decodes to the string. */
  lemma StringToken(s: bytes, suffix: bytes)
    requires 0 !in s
    ensures ReadToken(Quote(s) + suffix) == Lexeme(Token(String, Quote(s)), suffix)
    ensures SkipComments(Quote(s) + suffix) == Lexeme(Token(String, Quote(s)), suffix)
    ensures |Quote(s)| >= 2 && DecodeString(Quote(s)) == Some(s) && CString(s) == s
  {
    EscapeScans(s, suffix);
    EscapeDecodes(s);
    var text := Quote(s);
    assert text[1..] == Escape(s) + [QUOTE];
    Assoc3(Escape(s), [QUOTE], suffix);
    TokenIs(text, suffix, String);
    NotComment(text + suffix);
    assert text[1..|text| - 1] == Escape(s);
  }

  // ---- values ------------------------------------------------------------------------------

  lemma PunctuationToken(c: byte, suffix: bytes, kind: TokenKind)
    requires (c, kind) in {(COMMA, ArraySeparator), (COLON, MemberSeparator), (CLOSE_BRACKET, ArrayEnd),
                           (CLOSE_BRACE, ObjectEnd), (OPEN_BRACKET, ArrayBegin), (OPEN_BRACE, ObjectBegin)}
    ensures ReadToken([c] + suffix) == Lexeme(Token(kind, [c]), suffix)
    ensures SkipComments([c] + suffix) == Lexeme(Token(kind, [c]), suffix)
  {
    assert [c][1..] + suffix == suffix;
    TokenIs([c], suffix, kind);
    NotComment([c] + suffix);
  }

  lemma WordToken(v: Value, suffix: bytes)
    requires v.Null? || v.Bool?
    ensures var kind := if v.Null? then NullToken else if v.b then True else False;
      SkipComments(Print(v) + suffix) == Lexeme(Token(kind, Print(v)), suffix)
  {
    var text := Print(v);
    var tail := text[1..];
    assert tail <= tail + suffix && (tail + suffix)[|tail|..] == suffix;
    TokenIs(text, suffix, if v.Null? then NullToken else if v.b then True else False);
    NotComment(text + suffix);
  }

  lemma {:induction false} KeyLessTrans(a: bytes, b: bytes, c: bytes)
    requires KeyLess(a, b) && KeyLess(b, c)
    ensures KeyLess(a, c)
  {
    if a != [] && a[0] == b[0] == c[0] { KeyLessTrans(a[1..], b[1..], c[1..]); }
  }

  lemma {:induction false} KeyLessIrreflexive(a: bytes, b: bytes)
    requires KeyLess(a, b)
    ensures a != b && !KeyLess(b, a)
  {
    if a != [] && a[0] == b[0] { KeyLessIrreflexive(a[1..], b[1..]); }
  }

  /** Members arriving in map order are appended. */
  lemma {:induction false} InsertAppends(ms: seq<Member>, key: bytes, v: Value)
    requires forall i :: 0 <= i < |ms| ==> KeyLess(ms[i].key, key)
    ensures Insert(ms, key, v) == ms + [Member(key, v)]
  {
    if ms != [] {
      KeyLessIrreflexive(ms[0].key, key);
      InsertAppends(ms[1..], key, v);
    }
  }

  /** The first byte of a printed value is neither a space nor a closing bracket. */
  lemma PrintStarts(v: Value)
    requires Printable(v)
    ensures Print(v) != [] && !IsSpace(Print(v)[0]) && Print(v)[0] != CLOSE_BRACKET
  {
    if v.Int? {
      var ds := Digits(if v.n < 0 then -v.n else v.n);
      assert ds[0] in ds;
    }
  }

  lemma WordReads(env: Env, v: Value, suffix: bytes)
    requires v.Null? || v.Bool?
    ensures ReadValue(env, Print(v) + suffix) == Done(v, suffix)
  {
    WordToken(v, suffix);
  }

  lemma IntReads(env: Env, n: int, suffix: bytes)
    requires MIN_LARGEST_INT < n <= MAX_LARGEST_UINT && Terminated(suffix)
    ensures ReadValue(env, Print(Int(n)) + suffix) == Done(Int(n), suffix)
  {
    IntToken(n, suffix);
    PrintedIntDecodes(env, n);
  }

  lemma StrReads(env: Env, s: bytes, suffix: bytes)
    requires 0 !in s
    ensures ReadValue(env, Print(Str(s)) + suffix) == Done(Str(s), suffix)
  {
    StringToken(s, suffix);
  }

  /** Parsing undoes printing, for a value of any depth and whatever follows it. */
  lemma {:induction false} ValueReads(env: Env, v: Value, suffix: bytes)
    requires Printable(v) && Terminated(suffix)
    ensures ReadValue(env, Print(v) + suffix) == Done(v, suffix)
    decreases v, 3
  {
    match v
    case Null => WordReads(env, v, suffix);
    case Bool(_) => WordReads(env, v, suffix);
    case Int(n) => IntReads(env, n, suffix);
    case Str(s) => StrReads(env, s, suffix);
    case Arr(items) => ArrayReads(env, items, suffix);
    case Obj(members) => ObjectReads(env, members, suffix);
  }

  lemma ArrayOpens(env: Env, inner: bytes)
    requires inner != [] && !IsSpace(inner[0])
    ensures ReadValue(env, [OPEN_BRACKET] + inner) ==
            if inner[0] == CLOSE_BRACKET then Done(Arr([]), inner[1..]) else ReadItems(env, inner, [])
  {
    PunctuationToken(OPEN_BRACKET, inner, ArrayBegin);
    if inner[0] == CLOSE_BRACKET {
      assert inner == [CLOSE_BRACKET] + inner[1..];
      PunctuationToken(CLOSE_BRACKET, inner[1..], ArrayEnd);
    }
  }

  lemma {:induction false} ArrayReads(env: Env, items: seq<Value>, suffix: bytes)
    requires AllPrintable(items)
    ensures ReadValue(env, Print(Arr(items)) + suffix) == Done(Arr(items), suffix)
    decreases items, 2
  {
    var inner := PrintItems(items) + ([CLOSE_BRACKET] + suffix);
    assert Print(Arr(items)) + suffix == [OPEN_BRACKET] + inner;
    if items == [] {
      assert inner == [CLOSE_BRACKET] + suffix && inner[1..] == suffix;
    } else {
      PrintStarts(items[0]);
      assert inner[0] == Print(items[0])[0];
      ItemsRead(env, items, [], suffix);
      assert [] + items == items;
    }
    ArrayOpens(env, inner);
  }

  lemma TailPrintable(items: seq<Value>)
    requires items != [] && AllPrintable(items)
    ensures Printable(items[0]) && AllPrintable(items[1..])
  {
  }

  /** One turn of the loop of readArray, up to the separator. */
  lemma ItemStep(env: Env, text: bytes, v: Value, separator: byte, after: bytes, before: seq<Value>)
    requires ReadValue(env, text) == Done(v, [separator] + after) && separator in {COMMA, CLOSE_BRACKET}
    ensures ReadItems(env, text, before) ==
            if separator == CLOSE_BRACKET then Done(Arr(before + [v]), after) else ReadItems(env, after, before + [v])
  {
    PunctuationToken(separator, after, if separator == COMMA then ArraySeparator else ArrayEnd);
  }

  lemma PrintItemsCons(items: seq<Value>, end: bytes)
    requires |items| > 1
    ensures PrintItems(items) + end == Print(items[0]) + ([COMMA] + (PrintItems(items[1..]) + end))
  {
    Assoc4(Print(items[0]), [COMMA], PrintItems(items[1..]), end);
  }

  lemma {:induction false} ItemsRead(env: Env, items: seq<Value>, before: seq<Value>, suffix: bytes)
    requires items != [] && AllPrintable(items)
    ensures ReadItems(env, PrintItems(items) + ([CLOSE_BRACKET] + suffix), before) == Done(Arr(before + items), suffix)
    decreases items, 1
  {
    var v, end := items[0], [CLOSE_BRACKET] + suffix;
    TailPrintable(items);
    Regroup(before, items);
    if |items| == 1 {
      ValueReads(env, v, end);
      ItemStep(env, Print(v) + end, v, CLOSE_BRACKET, suffix, before);
    } else {
      var next := PrintItems(items[1..]) + end;
      PrintItemsCons(items, end);
      ValueReads(env, v, [COMMA] + next);
      ItemStep(env, Print(v) + ([COMMA] + next), v, COMMA, next, before);
      ItemsRead(env, items[1..], before + [v], suffix);
    }
  }

  lemma {:induction false} ObjectReads(env: Env, members: seq<Member>, suffix: bytes)
    requires MembersPrintable(members) && SortedKeys(members)
    ensures ReadValue(env, Print(Obj(members)) + suffix) == Done(Obj(members), suffix)
    decreases members, 2
  {
    var inner := PrintMembers(members) + ([CLOSE_BRACE] + suffix);
    assert Print(Obj(members)) + suffix == [OPEN_BRACE] + inner;
    PunctuationToken(OPEN_BRACE, inner, ObjectBegin);
    if members == [] {
      assert inner == [CLOSE_BRACE] + suffix;
      PunctuationToken(CLOSE_BRACE, suffix, ObjectEnd);
    } else {
      MembersRead(env, members, [], [], suffix);
      assert [] + members == members;
    }
  }

  /** One turn of the loop of readObject, up to the separator. */
  lemma MemberStep(env: Env, text: bytes, key: bytes, value: bytes, v: Value, separator: byte, after: bytes,
                   before: seq<Member>, name: bytes)
    requires 0 !in key && text == Quote(key) + ([COLON] + value)
    requires ReadValue(env, value) == Done(v, [separator] + after) && separator in {COMMA, CLOSE_BRACE}
    ensures ReadObject(env, text, before, name) ==
            if separator == CLOSE_BRACE then Done(Obj(Insert(before, key, v)), after)
            else ReadObject(env, after, Insert(before, key, v), key)
  {
    StringToken(key, [COLON] + value);
    PunctuationToken(COLON, value, MemberSeparator);
    PunctuationToken(separator, after, if separator == COMMA then ArraySeparator else ObjectEnd);
  }

  lemma PrintMemberSplits(m: Member, end: bytes)
    requires 0 !in m.key
    ensures PrintMember(m) + end == Quote(m.key) + ([COLON] + (Print(m.value) + end))
  {
    Assoc4(Quote(m.key), [COLON], Print(m.value), end);
  }

  lemma PrintMembersCons(members: seq<Member>, end: bytes)
    requires |members| > 1
    ensures PrintMembers(members) + end == PrintMember(members[0]) + ([COMMA] + (PrintMembers(members[1..]) + end))
  {
    Assoc4(PrintMember(members[0]), [COMMA], PrintMembers(members[1..]), end);
  }

  lemma {:induction false} MemberReads(env: Env, m: Member, before: seq<Member>, name: bytes, separator: byte, after: bytes)
    requires 0 !in m.key && Printable(m.value) && separator in {COMMA, CLOSE_BRACE}
    requires forall i :: 0 <= i < |before| ==> KeyLess(before[i].key, m.key)
    ensures ReadObject(env, PrintMember(m) + ([separator] + after), before, name) ==
            if separator == CLOSE_BRACE then Done(Obj(before + [m]), after)
            else ReadObject(env, after, before + [m], m.key)
    decreases m, 4
  {
    var end := [separator] + after;
    PrintMemberSplits(m, end);
    ValueReads(env, m.value, end);
    InsertAppends(before, m.key, m.value);
    MemberStep(env, PrintMember(m) + end, m.key, Print(m.value) + end, m.value, separator, after, before, name);
  }

  lemma TailMembers(before: seq<Member>, members: seq<Member>)
    requires members != [] && MembersPrintable(members) && SortedKeys(before + members)
    ensures 0 !in members[0].key && Printable(members[0].value) && MembersPrintable(members[1..])
    ensures SortedKeys(before + [members[0]] + members[1..])
    ensures forall i :: 0 <= i < |before| ==> KeyLess(before[i].key, members[0].key)
  {
    var all := before + members;
    Regroup(before, members);
    forall i | 0 <= i < |before| ensures KeyLess(before[i].key, members[0].key) {
      assert all[i] == before[i] && all[|before|] == members[0];
    }
  }

  lemma {:induction false} MembersRead(env: Env, members: seq<Member>, before: seq<Member>, name: bytes, suffix: bytes)
    requires members != [] && MembersPrintable(members) && SortedKeys(before + members)
    ensures ReadObject(env, PrintMembers(members) + ([CLOSE_BRACE] + suffix), before, name) == Done(Obj(before + members), suffix)
    decreases members, 1
  {
    var m, end := members[0], [CLOSE_BRACE] + suffix;
    TailMembers(before, members);
    Regroup(before, members);
    if |members| == 1 {
      MemberReads(env, m, before, name, CLOSE_BRACE, suffix);
    } else {
      var next := PrintMembers(members[1..]) + end;
      PrintMembersCons(members, end);
      MemberReads(env, m, before, name, COMMA, next);
      MembersRead(env, members[1..], before + [m], m.key, suffix);
    }
  }

  // ---- no NUL byte ---------------------------------------------------------------------------

  lemma {:induction false} EscapeHasNoNul(s: bytes)
    requires 0 !in s
    ensures 0 !in Escape(s)
  {
    if s != [] { EscapeHasNoNul(s[1..]); }
  }

  lemma {:induction false} PrintHasNoNul(v: Value)
    requires Printable(v)
    ensures 0 !in Print(v)
    decreases v, 2
  {
    match v
    case Null =>
    case Bool(_) =>
    case Int(n) =>
    case Str(s) => EscapeHasNoNul(s);
    case Arr(items) => ItemsHaveNoNul(items);
    case Obj(members) => MembersHaveNoNul(members);
  }

  lemma {:induction false} ItemsHaveNoNul(items: seq<Value>)
    requires AllPrintable(items)
    ensures 0 !in PrintItems(items)
    decreases items, 0
  {
    if items != [] {
      TailPrintable(items);
      PrintHasNoNul(items[0]);
      ItemsHaveNoNul(items[1..]);
    }
  }

  lemma {:induction false} MembersHaveNoNul(members: seq<Member>)
    requires MembersPrintable(members)
    ensures 0 !in PrintMembers(members)
    decreases members, 0
  {
    if members != [] {
      EscapeHasNoNul(members[0].key);
      PrintHasNoNul(members[0].value);
      MembersHaveNoNul(members[1..]);
    }
  }

  /** Reader::parse on the output of FastWriter::write. */
  lemma ParseUndoesWrite(env: Env, v: Value)
    requires Printable(v)
    ensures Parse(env, Write(v)) == Some(v)
  {
    ValueReads(env, v, [NEWLINE]);
  }
}
