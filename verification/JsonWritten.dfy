/** FastWriter (src/json/jsoncpp.cpp) writes JSON: the text of a value denotes the value after RFC 8259. */
module JsonWritten {
  import opened Bytes
  import opened Json
  import opened JsonText
  import JsonRoundTrip

  // ---- numbers -----------------------------------------------------------------------------------

  lemma {:induction false} DigitsAreDecimal(n: nat)
    ensures AreDigits(Digits(n)) && Decimal(Digits(n)) == n
    ensures Digits(n)[0] == 48 ==> |Digits(n)| == 1 && n == 0
  {
    var s := Digits(n);
    if n < 10 {
      assert s[..|s| - 1] == [];
    } else {
      var init := Digits(n / 10);
      DigitsAreDecimal(n / 10);
      assert s[..|s| - 1] == init && s[0] == init[0];
    }
  }

  lemma IntNode(n: int) returns (node: Node)
    requires MIN_LARGEST_INT < n <= MAX_LARGEST_UINT
    ensures Means(node, Int(n)) && Text(node) == Print(Int(n))
  {
    var m := if n < 0 then -n else n;
    var number := JsonText.Number(n < 0, Digits(m), None, None);
    DigitsAreDecimal(m);
    assert Digits(m) + ([] + []) == Digits(m);
    assert NumberText(number) == PrintInt(n);
    node := NumberNode(number);
  }

  // ---- strings -----------------------------------------------------------------------------------

  lemma HexIs(d: nat)
    requires d < 16
    ensures IsHex(HexDigit(d)) && HexOf(HexDigit(d)) == d
  {
  }

  lemma ControlChar(b: byte) returns (c: Char)
    requires |EscapeByte(b)| == 6
    ensures CharMeans(c, [b]) && CharText(c) == EscapeByte(b)
  {
    var hex := [ZERO, ZERO, HexDigit(b / 16), HexDigit(b % 16)];
    HexIs(0);
    HexIs(b / 16);
    HexIs(b % 16);
    assert Hex4Of(hex) == b;
    c := Unicode(hex);
  }

  lemma EscapedChar(b: byte) returns (c: Char)
    requires b != 0
    ensures CharMeans(c, [b]) && CharText(c) == EscapeByte(b)
  {
    if |EscapeByte(b)| == 1 {
      c := Plain(b);
    } else if |EscapeByte(b)| == 2 {
      c := Short(EscapeByte(b)[1]);
    } else {
      c := ControlChar(b);
    }
  }

  lemma {:induction false} EscapedChars(s: bytes) returns (cs: seq<Char>)
    requires 0 !in s
    ensures StringMeans(cs, s) && CharsText(cs) == Escape(s)
  {
    if s == [] {
      cs := [];
    } else {
      var c := EscapedChar(s[0]);
      var rest := EscapedChars(s[1..]);
      cs := [c] + rest;
      assert cs[1..] == rest && s[..1] == [s[0]];
      assert CharMeans(cs[0], s[..1]) && StringMeans(cs[1..], s[1..]);
    }
  }

  lemma Quoted(s: bytes) returns (cs: seq<Char>)
    requires 0 !in s
    ensures StringMeans(cs, s) && StringText(cs) == Quote(CString(s))
  {
    cs := EscapedChars(s);
    Assoc3([QUOTE], Escape(s), [QUOTE]);
  }

  // ---- values ------------------------------------------------------------------------------------

  /** What FastWriter prints for a value is the text of a tree that means the value. */
  lemma {:induction false} PrintedNode(v: Value) returns (node: Node)
    requires Printable(v)
    ensures Means(node, v) && Text(node) == Print(v)
    decreases v, 3
  {
    match v
    case Null => node := NullNode;
    case Bool(b) => node := if b then TrueNode else FalseNode;
    case Int(n) => node := IntNode(n);
    case Str(s) =>
      var cs := Quoted(s);
      node := StringNode(cs);
    case Arr(items) => node := PrintedArray(items);
    case Obj(members) => node := PrintedObject(members);
  }

  lemma {:induction false} PrintedArray(vs: seq<Value>) returns (node: Node)
    requires AllPrintable(vs)
    ensures Means(node, Arr(vs)) && Text(node) == Print(Arr(vs))
    decreases vs, 2
  {
    var items := PrintedItems(vs);
    node := ArrayNode([], items);
    Assoc3([OPEN_BRACKET], PrintItems(vs), [CLOSE_BRACKET]);
  }

  lemma {:induction false} PrintedItem(v: Value) returns (i: Item)
    requires Printable(v)
    ensures ItemMeans(i, v) && ItemText(i) == Print(v)
    decreases v, 4
  {
    var node := PrintedNode(v);
    i := Item([], node, []);
    assert [] + (Text(node) + []) == Text(node);
  }

  lemma {:induction false} PrintedItems(vs: seq<Value>) returns (items: seq<Item>)
    requires AllPrintable(vs)
    ensures |items| == |vs| && ItemsMean(items, vs) && (vs != [] ==> ItemsText(items) == PrintItems(vs))
    decreases vs, 1
  {
    if vs == [] {
      items := [];
    } else {
      JsonRoundTrip.TailPrintable(vs);
      var first := PrintedItem(vs[0]);
      var rest := PrintedItems(vs[1..]);
      items := [first] + rest;
      assert items[1..] == rest;
      if |vs| > 1 { Assoc3(Print(vs[0]), [COMMA], PrintItems(vs[1..])); }
    }
  }

  function KeysOf(ms: seq<Member>): seq<bytes> { seq(|ms|, i requires 0 <= i < |ms| => ms[i].key) }

  function ValuesOf(ms: seq<Member>): seq<Value> { seq(|ms|, i requires 0 <= i < |ms| => ms[i].value) }

  /** In a map every name is the last of its kind. */
  lemma MapIsLast(ms: seq<Member>, i: nat)
    requires SortedKeys(ms) && i < |ms|
    ensures ms[i].key !in KeysOf(ms)[i + 1..]
  {
    var later := KeysOf(ms)[i + 1..];
    forall j | 0 <= j < |later| ensures later[j] != ms[i].key {
      assert later[j] == ms[i + 1 + j].key;
      JsonRoundTrip.KeyLessIrreflexive(ms[i].key, ms[i + 1 + j].key);
    }
  }

  lemma MapLastWins(ms: seq<Member>)
    requires SortedKeys(ms)
    ensures LastWins(KeysOf(ms), ValuesOf(ms), ms)
  {
    var names, values := KeysOf(ms), ValuesOf(ms);
    forall k, v ensures Member(k, v) in ms <==> IsLast(names, values, k, v) {
      if Member(k, v) in ms {
        var i :| 0 <= i < |ms| && ms[i] == Member(k, v);
        MapIsLast(ms, i);
        assert names[i] == k && values[i] == v && k !in names[i + 1..];
      }
      if IsLast(names, values, k, v) {
        var i :| 0 <= i < |names| && names[i] == k && values[i] == v && k !in names[i + 1..];
        assert ms[i] == Member(k, v);
      }
    }
  }

  lemma {:induction false} PrintedObject(ms: seq<Member>) returns (node: Node)
    requires SortedKeys(ms) && MembersPrintable(ms)
    ensures Means(node, Obj(ms)) && Text(node) == Print(Obj(ms))
    decreases ms, 2
  {
    var fields := PrintedFields(ms);
    MapLastWins(ms);
    node := ObjectNode([], fields);
    Assoc3([OPEN_BRACE], PrintMembers(ms), [CLOSE_BRACE]);
  }

  lemma {:induction false} PrintedField(m: Member) returns (f: Field)
    requires 0 !in m.key && Printable(m.value)
    ensures FieldMeans(f, m.key, m.value) && FieldText(f) == PrintMember(m)
    decreases m, 5
  {
    var name := Quoted(m.key);
    var value := PrintedItem(m.value);
    f := Field([], name, [], value);
    var text := ItemText(value);
    Assoc3(StringText(name), [COLON], text);
    assert [] + ([COLON] + text) == [COLON] + text && [] + (StringText(name) + ([COLON] + text)) == StringText(name) + ([COLON] + text);
  }

  lemma {:induction false} PrintedFields(ms: seq<Member>) returns (fields: seq<Field>)
    requires MembersPrintable(ms)
    ensures |fields| == |ms| && FieldsMean(fields, KeysOf(ms), ValuesOf(ms)) && (ms != [] ==> FieldsText(fields) == PrintMembers(ms))
    decreases ms, 1
  {
    if ms == [] {
      fields := [];
    } else {
      var first := PrintedField(ms[0]);
      var rest := PrintedFields(ms[1..]);
      fields := [first] + rest;
      assert fields[1..] == rest && KeysOf(ms)[1..] == KeysOf(ms[1..]) && ValuesOf(ms)[1..] == ValuesOf(ms[1..]);
      if |ms| > 1 { Assoc3(PrintMember(ms[0]), [COMMA], PrintMembers(ms[1..])); }
    }
  }

  /** FastWriter::write: a JSON text, with a line end behind it, that denotes the value written. */
  lemma WriteDenotes(v: Value)
    requires Printable(v)
    ensures Denotes(Write(v), v)
  {
    var node := PrintedNode(v);
    var i := Item([], node, [NEWLINE]);
    assert [] + (Text(node) + [NEWLINE]) == Text(node) + [NEWLINE];
    assert ItemMeans(i, v) && Write(v) == ItemText(i);
  }
}
