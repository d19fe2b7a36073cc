/** Json::Reader (src/json/jsoncpp.cpp) reads every JSON text: what a text denotes after RFC 8259 is what it returns. */
module JsonConformance {
  import opened Bytes
  import opened Json
  import opened JsonReader
  import opened JsonText
  import opened JsonRoundTrip
  import opened JsonMembers

  /** sscanf takes every JSON number. */
  ghost predicate ScansNumbers(env: Env) {
    forall n: JsonText.Number :: NumberOk(n) ==> env.scans(NumberText(n))
  }

  // ---- white space -------------------------------------------------------------------------------

  lemma {:induction false} GapSkips(g: bytes, s: bytes)
    requires IsGap(g)
    ensures SkipSpaces(g + s) == SkipSpaces(s)
  {
    if g == [] {
      assert g + s == s;
    } else {
      assert (g + s)[1..] == g[1..] + s;
      GapSkips(g[1..], s);
    }
  }

  lemma SpaceIsGap(c: byte)
    ensures IsSpace(c) <==> IsGap([c])
  {
    if IsGap([c]) { assert [c][0] == c; }
  }

  /** Exactly the white space in front is skipped. */
  lemma {:induction false} SkipsGap(s: bytes, t: bytes) returns (gap: bytes)
    requires t == SkipSpaces(s)
    ensures s == gap + t && IsGap(gap) && (t == [] || !IsGap([t[0]]))
  {
    gap := [];
    if s != [] {
      SpaceIsGap(s[0]);
      if IsSpace(s[0]) {
        var rest := SkipsGap(s[1..], t);
        gap := [s[0]] + rest;
      }
    }
  }

  lemma GapTokens(g: bytes, s: bytes)
    requires IsGap(g)
    ensures ReadToken(g + s) == ReadToken(s) && SkipComments(g + s) == SkipComments(s)
  {
    GapSkips(g, s);
  }

  lemma GapValues(env: Env, g: bytes, s: bytes)
    requires IsGap(g)
    ensures ReadValue(env, g + s) == ReadValue(env, s)
  {
    GapTokens(g, s);
  }

  lemma GapItems(env: Env, g: bytes, s: bytes, vs: seq<Value>)
    requires IsGap(g)
    ensures ReadItems(env, g + s, vs) == ReadItems(env, s, vs)
  {
    GapValues(env, g, s);
  }

  lemma GapTerminates(g: bytes, s: bytes)
    requires IsGap(g) && Terminated(s)
    ensures Terminated(g + s)
  {
    if g == [] { assert g + s == s; }
  }

  // ---- strings -----------------------------------------------------------------------------------

  lemma HexIs(c: byte)
    requires IsHex(c)
    ensures HexValue(c) == Some(HexOf(c)) && c != QUOTE && c != BACKSLASH
  {
  }

  lemma Hex4Is(hex: bytes, rest: bytes)
    requires IsHex4(hex)
    ensures DecodeHex4(hex + rest) == CodePoint(Hex4Of(hex), rest) && QUOTE !in hex && BACKSLASH !in hex
  {
    var s := hex + rest;
    HexIs(hex[0]);
    HexIs(hex[1]);
    HexIs(hex[2]);
    HexIs(hex[3]);
    assert s[0] == hex[0] && s[1] == hex[1] && s[2] == hex[2] && s[3] == hex[3] && s[4..] == rest;
    assert hex == [hex[0], hex[1], hex[2], hex[3]];
  }

  lemma Utf8Two(cp: int, a: byte, b: byte)
    requires IsUtf8([a, b], cp)
    ensures a == 0xC0 + cp / 0x40 % 0x20 && b == 0x80 + cp % 0x40 && 0x80 <= cp <= 0x7FF
  {
    var x, y := Low(a, 0xC0), Low(b, 0x80);
    assert cp == 64 * x + y && 0 <= x < 32 && 0 <= y < 64;
    assert cp / 64 == x && cp % 64 == y;
  }

  lemma Utf8Three(cp: int, a: byte, b: byte, c: byte)
    requires IsUtf8([a, b, c], cp)
    ensures a == 0xE0 + cp / 0x1000 % 0x10 && b == 0x80 + cp / 0x40 % 0x40 && c == 0x80 + cp % 0x40 && 0x800 <= cp <= 0xFFFF
  {
    var x, y, z := Low(a, 0xE0), Low(b, 0x80), Low(c, 0x80);
    assert cp == 64 * (64 * x + y) + z && 0 <= x < 16 && 0 <= y < 64 && 0 <= z < 64;
    assert cp / 64 == 64 * x + y && cp % 64 == z;
    assert cp / 4096 == x;
  }

  lemma Utf8Four(cp: int, a: byte, b: byte, c: byte, d: byte)
    requires IsUtf8([a, b, c, d], cp) && cp <= 0x10FFFF
    ensures a == 0xF0 + cp / 0x40000 % 8 && b == 0x80 + cp / 0x1000 % 0x40 && c == 0x80 + cp / 0x40 % 0x40
    ensures d == 0x80 + cp % 0x40 && cp > 0xFFFF
  {
    var x, y, z, w := Low(a, 0xF0), Low(b, 0x80), Low(c, 0x80), Low(d, 0x80);
    assert cp == 64 * (64 * (64 * x + y) + z) + w && 0 <= x < 8 && 0 <= y < 64 && 0 <= z < 64 && 0 <= w < 64;
    assert cp / 64 == 64 * (64 * x + y) + z && cp % 64 == w;
    assert cp / 4096 == 64 * x + y;
    assert cp / 262144 == x;
  }

  /** The reader's UTF-8 is the standard's. */
  lemma Utf8Is(s: bytes, cp: nat)
    requires IsUtf8(s, cp) && cp <= 0x10FFFF
    ensures CodePointToUtf8(cp) == s
  {
    if |s| == 1 {
      assert s == [s[0]];
    } else if |s| == 2 {
      assert s == [s[0], s[1]];
      Utf8Two(cp, s[0], s[1]);
    } else if |s| == 3 {
      assert s == [s[0], s[1], s[2]];
      Utf8Three(cp, s[0], s[1], s[2]);
    } else {
      assert s == [s[0], s[1], s[2], s[3]];
      Utf8Four(cp, s[0], s[1], s[2], s[3]);
    }
  }

  lemma HexBound(hex: bytes)
    requires IsHex4(hex)
    ensures Hex4Of(hex) <= 0xFFFF
  {
  }

  lemma PairValue(high: nat, low: nat)
    requires 0xD800 <= high <= 0xDBFF && 0xDC00 <= low <= 0xDFFF
    ensures 0x10000 + high % 0x400 * 0x400 + low % 0x400 == 0x10000 + 1024 * (high - 0xD800) + (low - 0xDC00) <= 0x10FFFF
  {
    assert high % 0x400 == high - 0xD800 && low % 0x400 == low - 0xDC00;
  }

  lemma PairDecodes(high: bytes, low: bytes, rest: bytes, s: bytes)
    requires CharOk(Pair(high, low)) && s == high + ([92, 117] + (low + rest))
    ensures DecodeCodePoint(s) == CodePoint(0x10000 + 1024 * (Hex4Of(high) - 0xD800) + (Hex4Of(low) - 0xDC00), rest)
  {
    var second := [92, 117] + (low + rest);
    assert second[2..] == low + rest;
    Hex4Is(high, second);
    Hex4Is(low, rest);
    PairValue(Hex4Of(high), Hex4Of(low));
  }

  /** An escape with its hexadecimal digits does not end a string. */
  lemma EscapeSkips(hex: bytes, rest: bytes)
    requires IsHex4(hex)
    ensures ScanString([92, 117] + (hex + rest)) == ScanString(rest)
  {
    assert ([92, 117] + (hex + rest))[2..] == hex + rest;
    Hex4Is(hex, rest);
    PlainScan(hex, rest);
  }

  lemma PairText(high: bytes, low: bytes, rest: bytes)
    ensures CharText(Pair(high, low)) + rest == [92, 117] + (high + ([92, 117] + (low + rest)))
  {
    Assoc4([92, 117], high, [92, 117] + low, rest);
    Assoc3([92, 117], low, rest);
  }

  lemma UnitDecodes(s: bytes, cp: nat, m: bytes, rest: bytes)
    requires DecodeCodePoint(s) == CodePoint(cp, rest) && IsUtf8(m, cp) && cp <= 0x10FFFF
    ensures DecodeBody([92, 117] + s) == Prepend(m, DecodeBody(rest))
  {
    assert ([92, 117] + s)[2..] == s;
    Utf8Is(m, cp);
  }

  lemma UnicodeReads(hex: bytes, m: bytes, rest: bytes)
    requires CharMeans(Unicode(hex), m)
    ensures ScanString(CharText(Unicode(hex)) + rest) == ScanString(rest)
    ensures DecodeBody(CharText(Unicode(hex)) + rest) == Prepend(m, DecodeBody(rest))
  {
    Assoc3([92, 117], hex, rest);
    EscapeSkips(hex, rest);
    Hex4Is(hex, rest);
    HexBound(hex);
    UnitDecodes(hex + rest, Hex4Of(hex), m, rest);
  }

  lemma PairReads(high: bytes, low: bytes, m: bytes, rest: bytes)
    requires CharMeans(Pair(high, low), m)
    ensures ScanString(CharText(Pair(high, low)) + rest) == ScanString(rest)
    ensures DecodeBody(CharText(Pair(high, low)) + rest) == Prepend(m, DecodeBody(rest))
  {
    var s := high + ([92, 117] + (low + rest));
    PairText(high, low, rest);
    EscapeSkips(high, [92, 117] + (low + rest));
    EscapeSkips(low, rest);
    PairDecodes(high, low, rest, s);
    PairValue(Hex4Of(high), Hex4Of(low));
    UnitDecodes(s, 0x10000 + 1024 * (Hex4Of(high) - 0xD800) + (Hex4Of(low) - 0xDC00), m, rest);
  }

  lemma ShortReads(letter: byte, rest: bytes)
    requires letter in SHORT
    ensures ScanString([92, letter] + rest) == ScanString(rest)
    ensures DecodeBody([92, letter] + rest) == Prepend([SHORT[letter]], DecodeBody(rest))
  {
    assert ([92, letter] + rest)[2..] == rest;
  }

  /** A character is one unit in a string, and is decoded to what it means. */
  lemma CharReads(c: Char, m: bytes, rest: bytes)
    requires CharMeans(c, m)
    ensures ScanString(CharText(c) + rest) == ScanString(rest)
    ensures DecodeBody(CharText(c) + rest) == Prepend(m, DecodeBody(rest))
  {
    match c
    case Plain(b) =>
      Cons(b, rest);
    case Short(letter) => ShortReads(letter, rest);
    case Unicode(hex) => UnicodeReads(hex, m, rest);
    case Pair(high, low) => PairReads(high, low, m, rest);
  }

  lemma Prepends(s: bytes, k: nat)
    requires k <= |s|
    ensures Prepend(s[..k], Some(s[k..])) == Some(s)
  {
    assert s[..k] + s[k..] == s;
  }

  lemma {:induction false} CharsRead(cs: seq<Char>, s: bytes, suffix: bytes)
    requires StringMeans(cs, s)
    ensures ScanString(CharsText(cs) + ([QUOTE] + suffix)) == Scan(true, suffix)
    ensures DecodeBody(CharsText(cs)) == Some(s)
    decreases |cs|
  {
    var end := [QUOTE] + suffix;
    if cs == [] {
      Cons(QUOTE, suffix);
      assert [] + end == end;
    } else {
      var k :| 0 <= k <= |s| && CharMeans(cs[0], s[..k]) && StringMeans(cs[1..], s[k..]);
      CharsRead(cs[1..], s[k..], suffix);
      Assoc3(CharText(cs[0]), CharsText(cs[1..]), end);
      CharReads(cs[0], s[..k], CharsText(cs[1..]) + end);
      CharReads(cs[0], s[..k], CharsText(cs[1..]));
      Prepends(s, k);
    }
  }

  /** A string is one token, and decodes to what it means. */
  lemma StringReads(cs: seq<Char>, s: bytes, suffix: bytes)
    requires StringMeans(cs, s)
    ensures ReadToken(StringText(cs) + suffix) == Lexeme(Token(String, StringText(cs)), suffix)
    ensures SkipComments(StringText(cs) + suffix) == Lexeme(Token(String, StringText(cs)), suffix)
    ensures |StringText(cs)| >= 2 && DecodeString(StringText(cs)) == Some(s)
  {
    var text := StringText(cs);
    CharsRead(cs, s, suffix);
    assert text[1..] == CharsText(cs) + [34];
    Assoc3(CharsText(cs), [34], suffix);
    TokenIs(text, suffix, String);
    NotComment(text + suffix);
    assert text[1..|text| - 1] == CharsText(cs);
  }

  // ---- numbers -----------------------------------------------------------------------------------

  predicate AllNumberBytes(s: bytes) { forall i :: 0 <= i < |s| ==> IsNumberByte(s[i]) }

  lemma {:induction false} NumberStops(s: bytes, suffix: bytes)
    requires AllNumberBytes(s) && Terminated(suffix)
    ensures ScanNumber(s + suffix) == suffix
  {
    if s == [] {
      assert s + suffix == suffix;
    } else {
      NumberStops(s[1..], suffix);
      assert (s + suffix)[1..] == s[1..] + suffix;
    }
  }

  lemma NumberStarts(n: JsonText.Number)
    requires NumberOk(n)
    ensures AllNumberBytes(NumberText(n)) && NumberText(n) != []
    ensures IsDigit(NumberText(n)[0]) || NumberText(n)[0] == MINUS
  {
    var sign := if n.minus then [45] else [];
    assert AllNumberBytes(sign) && AllNumberBytes(n.digits) && AllNumberBytes(FractionText(n)) && AllNumberBytes(ExponentText(n));
    BytesAppend(FractionText(n), ExponentText(n));
    BytesAppend(n.digits, FractionText(n) + ExponentText(n));
    BytesAppend(sign, n.digits + (FractionText(n) + ExponentText(n)));
  }

  lemma BytesAppend(a: bytes, b: bytes)
    requires AllNumberBytes(a) && AllNumberBytes(b)
    ensures AllNumberBytes(a + b)
  {
  }

  lemma NumberToken(n: JsonText.Number, suffix: bytes)
    requires NumberOk(n) && Terminated(suffix)
    ensures SkipComments(NumberText(n) + suffix) == Lexeme(Token(JsonReader.Number, NumberText(n)), suffix)
  {
    var text := NumberText(n);
    NumberStarts(n);
    NumberStops(text[1..], suffix);
    TokenIs(text, suffix, JsonReader.Number);
    NotComment(text + suffix);
  }

  lemma {:induction false} DecimalIs(s: bytes)
    requires AllDigits(s)
    ensures NumberValue(s, 0) == Decimal(s)
  {
    if s != [] {
      var init, last := s[..|s| - 1], s[|s| - 1];
      DecimalIs(init);
      NumberAppend(init, last, 0);
      assert s == init + [last];
    }
  }

  lemma MarkAt(n: JsonText.Number, front: bytes, mark: byte, back: bytes)
    requires NumberText(n) == front + ([mark] + back) && front != [] && (mark == DOT || mark == 101 || mark == 69)
    ensures LooksLikeDouble(NumberText(n))
  {
    var text := NumberText(n);
    assert text[|front|] == mark;
    assert IsDoubleMark(text, |front|);
  }

  /** A number with a fraction or an exponent goes to sscanf. */
  lemma RealLooks(n: JsonText.Number)
    requires NumberOk(n) && (n.fraction.Some? || n.exponent.Some?)
    ensures LooksLikeDouble(NumberText(n))
  {
    var front := (if n.minus then [45] else []) + n.digits;
    if n.fraction.Some? {
      var back := n.fraction.value + ExponentText(n);
      assert NumberText(n) == front + ([46] + back);
      MarkAt(n, front, 46, back);
    } else {
      var e := n.exponent.value;
      assert NumberText(n) == front + ([e.letter] + (e.sign + e.digits));
      MarkAt(n, front, e.letter, e.sign + e.digits);
    }
  }

  lemma RealDecodes(env: Env, n: JsonText.Number)
    requires NumberOk(n) && (n.fraction.Some? || n.exponent.Some?) && ScansNumbers(env)
    ensures NumberText(n) != [] && DecodeNumber(env, NumberText(n)) == Some(Real(NumberText(n)))
  {
    NumberStarts(n);
    RealLooks(n);
    assert env.scans(NumberText(n));
  }

  lemma NumberDecodes(env: Env, n: JsonText.Number, v: Value)
    requires NumberOk(n) && NumberMeans(n, v) && ScansNumbers(env)
    ensures NumberText(n) != [] && DecodeNumber(env, NumberText(n)) == Some(v)
  {
    NumberStarts(n);
    if n.fraction.Some? || n.exponent.Some? {
      RealDecodes(env, n);
    } else {
      WholeText(n);
      assert env.scans(NumberText(n));
      DecimalIs(n.digits);
      IntegersAreExact(env, n.digits, n.minus);
    }
  }

  lemma WholeText(n: JsonText.Number)
    requires n.fraction.None? && n.exponent.None?
    ensures NumberText(n) == if n.minus then [MINUS] + n.digits else n.digits
  {
    assert n.digits + ([] + []) == n.digits;
  }

  // ---- values ------------------------------------------------------------------------------------

  lemma NumberNodeReads(env: Env, n: JsonText.Number, v: Value, suffix: bytes)
    requires NumberOk(n) && NumberMeans(n, v) && ScansNumbers(env) && Terminated(suffix)
    ensures ReadValue(env, NumberText(n) + suffix) == Done(v, suffix)
  {
    NumberToken(n, suffix);
    NumberDecodes(env, n, v);
  }

  lemma StringNodeReads(env: Env, chars: seq<Char>, s: bytes, suffix: bytes)
    requires StringMeans(chars, s) && 0 !in s
    ensures ReadValue(env, StringText(chars) + suffix) == Done(Str(s), suffix)
  {
    StringReads(chars, s, suffix);
    StringTokenReads(env, StringText(chars) + suffix, StringText(chars), suffix, s);
  }

  lemma StringTokenReads(env: Env, text: bytes, quoted: bytes, rest: bytes, s: bytes)
    requires SkipComments(text) == Lexeme(Token(String, quoted), rest) && |quoted| >= 2
    requires DecodeString(quoted) == Some(s) && 0 !in s
    ensures ReadValue(env, text) == Done(Str(s), rest)
  {
  }

  /** Every JSON value is read as what it means, in front of any text that does not continue a number. */
  lemma {:induction false} NodeReads(env: Env, n: Node, v: Value, suffix: bytes)
    requires Means(n, v) && ScansNumbers(env) && Terminated(suffix)
    ensures ReadValue(env, Text(n) + suffix) == Done(v, suffix)
    decreases n, 3
  {
    match n
    case NullNode => WordReads(env, v, suffix);
    case TrueNode => WordReads(env, v, suffix);
    case FalseNode => WordReads(env, v, suffix);
    case NumberNode(number) => NumberNodeReads(env, number, v, suffix);
    case StringNode(chars) => StringNodeReads(env, chars, v.s, suffix);
    case ArrayNode(gap, items) => ArrayNodeReads(env, gap, items, v.items, suffix);
    case ObjectNode(gap, fields) =>
      var names, values :| |names| == |values| && FieldsMean(fields, names, values) && LastWins(names, values, v.members);
      ObjectNodeReads(env, gap, fields, names, values, suffix);
      InsertAllIs(names, values, v.members);
  }

  /** The same with white space around the value: what stands behind it is left to the caller. */
  lemma {:induction false} ItemReads(env: Env, i: Item, v: Value, suffix: bytes)
    requires ItemMeans(i, v) && ScansNumbers(env) && Terminated(suffix)
    ensures ReadValue(env, ItemText(i) + suffix) == Done(v, i.after + suffix)
    decreases i, 4
  {
    Assoc3(i.before, Text(i.node) + i.after, suffix);
    Assoc3(Text(i.node), i.after, suffix);
    GapTerminates(i.after, suffix);
    NodeReads(env, i.node, v, i.after + suffix);
    GapValues(env, i.before, Text(i.node) + (i.after + suffix));
  }

  // ---- arrays ------------------------------------------------------------------------------------

  lemma {:induction false} SkipOnce(s: bytes)
    ensures SkipSpaces(SkipSpaces(s)) == SkipSpaces(s)
  {
    if s != [] && IsSpace(s[0]) { SkipOnce(s[1..]); }
  }

  /** No value starts with a closing bracket. */
  lemma CloseFails(env: Env, t: bytes)
    requires SkipSpaces(t) == t && (t == [] || t[0] == CLOSE_BRACKET)
    ensures ReadItems(env, t, []) == Fail
  {
    if t != [] { NotComment(t); }
  }

  /** So what is read as elements is not taken for the end of an empty array. */
  lemma ArrayStarts(env: Env, s: bytes, r: Read)
    requires r == ReadItems(env, s, []) && r.Done?
    ensures ReadArray(env, s) == r
  {
    var t := SkipSpaces(s);
    SkipOnce(s);
    SameItems(env, s, t);
    if t == [] || t[0] == CLOSE_BRACKET { CloseFails(env, t); }
  }

  lemma SameItems(env: Env, s: bytes, t: bytes)
    requires SkipSpaces(s) == SkipSpaces(t)
    ensures ReadItems(env, s, []) == ReadItems(env, t, [])
  {
    SameValues(env, s, t);
  }

  lemma SameValues(env: Env, s: bytes, t: bytes)
    requires SkipSpaces(s) == SkipSpaces(t)
    ensures ReadValue(env, s) == ReadValue(env, t)
  {
    assert ReadToken(s) == ReadToken(t);
    assert SkipComments(s) == SkipComments(t);
  }

  lemma EmptyArray(env: Env, gap: bytes, suffix: bytes)
    requires IsGap(gap)
    ensures ReadArray(env, gap + ([CLOSE_BRACKET] + suffix)) == Done(Arr([]), suffix)
  {
    var end := [CLOSE_BRACKET] + suffix;
    GapSkips(gap, end);
    PunctuationToken(CLOSE_BRACKET, suffix, ArrayEnd);
  }

  lemma ArrayToken(env: Env, inner: bytes)
    ensures ReadValue(env, [OPEN_BRACKET] + inner) == ReadArray(env, inner)
  {
    PunctuationToken(OPEN_BRACKET, inner, ArrayBegin);
  }

  lemma {:induction false} ArrayNodeReads(env: Env, gap: bytes, items: seq<Item>, vs: seq<Value>, suffix: bytes)
    requires IsGap(gap) && ItemsMean(items, vs) && ScansNumbers(env)
    ensures ReadValue(env, Text(ArrayNode(gap, items)) + suffix) == Done(Arr(vs), suffix)
    decreases items, 2
  {
    var inner := (if items == [] then gap else ItemsText(items)) + ([CLOSE_BRACKET] + suffix);
    ArrayText(gap, items, suffix);
    ArrayToken(env, inner);
    if items == [] {
      EmptyArray(env, gap, suffix);
    } else {
      ItemsAreRead(env, items, vs, [], suffix);
      assert [] + vs == vs;
      ArrayStarts(env, inner, Done(Arr(vs), suffix));
    }
  }

  lemma ArrayText(gap: bytes, items: seq<Item>, suffix: bytes)
    ensures Text(ArrayNode(gap, items)) + suffix ==
            [OPEN_BRACKET] + ((if items == [] then gap else ItemsText(items)) + ([CLOSE_BRACKET] + suffix))
  {
    Brackets(OPEN_BRACKET, if items == [] then gap else ItemsText(items), CLOSE_BRACKET, suffix);
  }

  lemma Brackets(open: byte, inside: bytes, close: byte, suffix: bytes)
    ensures [open] + (inside + [close]) + suffix == [open] + (inside + ([close] + suffix))
  {
    Assoc3([open], inside + [close], suffix);
    Assoc3(inside, [close], suffix);
  }

  lemma GapItemStep(env: Env, text: bytes, v: Value, gap: bytes, separator: byte, after: bytes, before: seq<Value>)
    requires ReadValue(env, text) == Done(v, gap + ([separator] + after)) && IsGap(gap) && separator in {COMMA, CLOSE_BRACKET}
    ensures ReadItems(env, text, before) ==
            if separator == CLOSE_BRACKET then Done(Arr(before + [v]), after) else ReadItems(env, after, before + [v])
  {
    GapTokens(gap, [separator] + after);
    PunctuationToken(separator, after, if separator == COMMA then ArraySeparator else ArrayEnd);
  }

  /** The elements are read in order, behind those already read. */
  lemma {:induction false} ItemsAreRead(env: Env, items: seq<Item>, vs: seq<Value>, before: seq<Value>, suffix: bytes)
    requires items != [] && ItemsMean(items, vs) && ScansNumbers(env)
    ensures ReadItems(env, ItemsText(items) + ([CLOSE_BRACKET] + suffix), before) == Done(Arr(before + vs), suffix)
    decreases items, 1
  {
    var i, v, end := items[0], vs[0], [CLOSE_BRACKET] + suffix;
    Regroup(before, vs);
    if |items| == 1 {
      ItemReads(env, i, v, end);
      GapItemStep(env, ItemText(i) + end, v, i.after, CLOSE_BRACKET, suffix, before);
    } else {
      var next := ItemsText(items[1..]) + end;
      var tail := [COMMA] + next;
      Assoc3(ItemText(i), [COMMA] + ItemsText(items[1..]), end);
      Assoc3([COMMA], ItemsText(items[1..]), end);
      ItemReads(env, i, v, tail);
      GapItemStep(env, ItemText(i) + tail, v, i.after, COMMA, next, before);
      ItemsAreRead(env, items[1..], vs[1..], before + [v], suffix);
    }
  }

  // ---- objects -----------------------------------------------------------------------------------

  lemma EmptyObject(env: Env, gap: bytes, suffix: bytes)
    requires IsGap(gap)
    ensures ReadObject(env, gap + ([CLOSE_BRACE] + suffix), [], []) == Done(Obj([]), suffix)
  {
    GapTokens(gap, [CLOSE_BRACE] + suffix);
    PunctuationToken(CLOSE_BRACE, suffix, ObjectEnd);
  }

  lemma ObjectToken(env: Env, inner: bytes)
    ensures ReadValue(env, [OPEN_BRACE] + inner) == ReadObject(env, inner, [], [])
  {
    PunctuationToken(OPEN_BRACE, inner, ObjectBegin);
  }

  lemma {:induction false} ObjectNodeReads(env: Env, gap: bytes, fields: seq<Field>, names: seq<bytes>, vs: seq<Value>, suffix: bytes)
    requires |names| == |vs| && IsGap(gap) && FieldsMean(fields, names, vs) && ScansNumbers(env)
    ensures ReadValue(env, Text(ObjectNode(gap, fields)) + suffix) == Done(Obj(InsertAll([], names, vs)), suffix)
    decreases fields, 2
  {
    ObjectText(gap, fields, suffix);
    ObjectToken(env, (if fields == [] then gap else FieldsText(fields)) + ([CLOSE_BRACE] + suffix));
    if fields == [] {
      EmptyObject(env, gap, suffix);
    } else {
      FieldsAreRead(env, fields, names, vs, [], [], suffix);
    }
  }

  lemma ObjectText(gap: bytes, fields: seq<Field>, suffix: bytes)
    ensures Text(ObjectNode(gap, fields)) + suffix ==
            [OPEN_BRACE] + ((if fields == [] then gap else FieldsText(fields)) + ([CLOSE_BRACE] + suffix))
  {
    Brackets(OPEN_BRACE, if fields == [] then gap else FieldsText(fields), CLOSE_BRACE, suffix);
  }

  /** One turn of the loop of readObject, token by token. */
  lemma FieldStep(env: Env, text: bytes, quoted: bytes, key: bytes, colon: bytes, value: bytes, v: Value, end: bytes,
                  separator: byte, after: bytes, before: seq<Member>, last: bytes)
    requires SkipComments(text) == Lexeme(Token(String, quoted), colon) && |quoted| >= 2 && DecodeString(quoted) == Some(key)
    requires 0 !in key && ReadToken(colon) == Lexeme(Token(MemberSeparator, [COLON]), value) && separator in {COMMA, CLOSE_BRACE}
    requires ReadValue(env, value) == Done(v, end)
    requires ReadToken(end) == Lexeme(Token(if separator == COMMA then ArraySeparator else ObjectEnd, [separator]), after)
    ensures ReadObject(env, text, before, last) ==
            if separator == CLOSE_BRACE then Done(Obj(Insert(before, key, v)), after)
            else ReadObject(env, after, Insert(before, key, v), key)
  {
  }

  lemma FieldSplits(f: Field, end: bytes)
    ensures FieldText(f) + end == f.before + (StringText(f.name) + (f.after + ([COLON] + (ItemText(f.value) + end))))
  {
    var value := ItemText(f.value);
    Assoc3(f.before, StringText(f.name) + (f.after + ([COLON] + value)), end);
    Assoc3(StringText(f.name), f.after + ([COLON] + value), end);
    Assoc3(f.after, [COLON] + value, end);
    Assoc3([COLON], value, end);
  }

  lemma {:induction false} FieldReads(env: Env, f: Field, key: bytes, v: Value, separator: byte, after: bytes,
                                      before: seq<Member>, last: bytes)
    requires FieldMeans(f, key, v) && ScansNumbers(env) && separator in {COMMA, CLOSE_BRACE}
    ensures ReadObject(env, FieldText(f) + ([separator] + after), before, last) ==
            if separator == CLOSE_BRACE then Done(Obj(Insert(before, key, v)), after)
            else ReadObject(env, after, Insert(before, key, v), key)
    decreases f, 5
  {
    var end := [separator] + after;
    var value := ItemText(f.value) + end;
    var colon := f.after + ([COLON] + value);
    FieldSplits(f, end);
    GapTokens(f.before, StringText(f.name) + colon);
    StringReads(f.name, key, colon);
    GapTokens(f.after, [COLON] + value);
    PunctuationToken(COLON, value, MemberSeparator);
    ItemReads(env, f.value, v, end);
    GapTokens(f.value.after, end);
    PunctuationToken(separator, after, if separator == COMMA then ArraySeparator else ObjectEnd);
    FieldStep(env, FieldText(f) + end, StringText(f.name), key, colon, value, v, f.value.after + end, separator, after, before, last);
  }

  /** The members are assigned in the order of the text. */
  lemma {:induction false} FieldsAreRead(env: Env, fields: seq<Field>, names: seq<bytes>, vs: seq<Value>,
                                         before: seq<Member>, last: bytes, suffix: bytes)
    requires |names| == |vs| && fields != [] && FieldsMean(fields, names, vs) && ScansNumbers(env)
    ensures ReadObject(env, FieldsText(fields) + ([CLOSE_BRACE] + suffix), before, last) ==
            Done(Obj(InsertAll(before, names, vs)), suffix)
    decreases fields, 1
  {
    var f, end := fields[0], [CLOSE_BRACE] + suffix;
    var after := Insert(before, names[0], vs[0]);
    if |fields| == 1 {
      FieldReads(env, f, names[0], vs[0], CLOSE_BRACE, suffix, before, last);
      assert names[1..] == [];
    } else {
      var next := FieldsText(fields[1..]) + end;
      Assoc3(FieldText(f), [COMMA] + FieldsText(fields[1..]), end);
      Assoc3([COMMA], FieldsText(fields[1..]), end);
      FieldReads(env, f, names[0], vs[0], COMMA, next, before, last);
      FieldsAreRead(env, fields[1..], names[1..], vs[1..], after, names[0], suffix);
    }
  }

  // ---- documents ---------------------------------------------------------------------------------

  /** Reader::parse returns what a JSON text denotes, whatever follows the text and does not continue a number. */
  lemma ParseReads(env: Env, text: bytes, v: Value, suffix: bytes)
    requires Denotes(text, v) && ScansNumbers(env) && Terminated(suffix)
    ensures Parse(env, text + suffix) == Some(v)
  {
    var i: Item :| ItemMeans(i, v) && text == ItemText(i);
    ItemReads(env, i, v, suffix);
  }

  /** A text denotes one value at most. */
  lemma DenotesOnce(text: bytes, v: Value, w: Value)
    requires Denotes(text, v) && Denotes(text, w)
    ensures v == w
  {
    var env := Env(0, _ => true);
    ParseReads(env, text, v, []);
    ParseReads(env, text, w, []);
  }

  // ---- no NUL byte -------------------------------------------------------------------------------

  lemma {:induction false} CharsHaveNoNul(cs: seq<Char>, s: bytes)
    requires StringMeans(cs, s)
    ensures 0 !in CharsText(cs)
    decreases |cs|
  {
    if cs != [] {
      var k :| 0 <= k <= |s| && CharMeans(cs[0], s[..k]) && StringMeans(cs[1..], s[k..]);
      CharHasNoNul(cs[0]);
      CharsHaveNoNul(cs[1..], s[k..]);
    }
  }

  lemma Hex4HasNoNul(hex: bytes)
    requires IsHex4(hex)
    ensures 0 !in hex
  {
    assert hex == [hex[0], hex[1], hex[2], hex[3]];
  }

  lemma CharHasNoNul(c: Char)
    requires CharOk(c)
    ensures 0 !in CharText(c)
  {
    match c
    case Plain(_) =>
    case Short(_) =>
    case Unicode(hex) => Hex4HasNoNul(hex);
    case Pair(high, low) =>
      Hex4HasNoNul(high);
      Hex4HasNoNul(low);
  }

  lemma NumberHasNoNul(n: JsonText.Number)
    requires NumberOk(n)
    ensures 0 !in NumberText(n)
  {
    NumberStarts(n);
  }

  lemma {:induction false} TextHasNoNul(n: Node, v: Value)
    requires Means(n, v)
    ensures 0 !in Text(n)
    decreases n, 3
  {
    match n
    case NullNode =>
    case TrueNode =>
    case FalseNode =>
    case NumberNode(number) => NumberHasNoNul(number);
    case StringNode(chars) => CharsHaveNoNul(chars, v.s);
    case ArrayNode(gap, items) => if items != [] { ItemsTextHasNoNul(items, v.items); }
    case ObjectNode(gap, fields) =>
      var names, values :| |names| == |values| && FieldsMean(fields, names, values) && LastWins(names, values, v.members);
      if fields != [] { FieldsTextHasNoNul(fields, names, values); }
  }

  lemma {:induction false} ItemTextHasNoNul(i: Item, v: Value)
    requires ItemMeans(i, v)
    ensures 0 !in ItemText(i)
    decreases i, 4
  {
    TextHasNoNul(i.node, v);
  }

  lemma {:induction false} ItemsTextHasNoNul(items: seq<Item>, vs: seq<Value>)
    requires items != [] && ItemsMean(items, vs)
    ensures 0 !in ItemsText(items)
    decreases items, 1
  {
    ItemTextHasNoNul(items[0], vs[0]);
    if |items| > 1 { ItemsTextHasNoNul(items[1..], vs[1..]); }
  }

  lemma {:induction false} FieldTextHasNoNul(f: Field, name: bytes, v: Value)
    requires FieldMeans(f, name, v)
    ensures 0 !in FieldText(f)
    decreases f, 5
  {
    CharsHaveNoNul(f.name, name);
    ItemTextHasNoNul(f.value, v);
  }

  lemma {:induction false} FieldsTextHasNoNul(fields: seq<Field>, names: seq<bytes>, vs: seq<Value>)
    requires fields != [] && FieldsMean(fields, names, vs)
    ensures 0 !in FieldsText(fields)
    decreases fields, 1
  {
    FieldTextHasNoNul(fields[0], names[0], vs[0]);
    if |fields| > 1 { FieldsTextHasNoNul(fields[1..], names[1..], vs[1..]); }
  }

  /** So a JSON text is a C string. */
  lemma DenotesHasNoNul(text: bytes, v: Value)
    requires Denotes(text, v)
    ensures 0 !in text
  {
    var i: Item :| ItemMeans(i, v) && text == ItemText(i);
    ItemTextHasNoNul(i, v);
  }
}
