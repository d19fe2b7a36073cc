/** JSON texts and what they mean, after RFC 8259: a text is spelled by a syntax tree, and the tree denotes a value.
    Nothing here refers to the reader or the writer. */
module JsonText {
  import opened Bytes
  import opened Json

  // ---- section 2: structure ----------------------------------------------------------------------

  /** White space. */
  predicate IsGap(s: bytes) {
    forall i :: 0 <= i < |s| ==> s[i] == 32 || s[i] == 9 || s[i] == 10 || s[i] == 13
  }

  // ---- section 7: strings ------------------------------------------------------------------------

  /** A character of a string: as it is, by a letter, by a code point, or by a surrogate pair. */
  datatype Char =
    | Plain(c: byte)
    | Short(letter: byte)
    | Unicode(hex: bytes)
    | Pair(high: bytes, low: bytes)

  predicate IsHex(c: byte) { 48 <= c <= 57 || 65 <= c <= 70 || 97 <= c <= 102 }

  function HexOf(c: byte): nat
    requires IsHex(c)
  {
    if c <= 57 then c - 48 else if c <= 70 then c - 65 + 10 else c - 97 + 10
  }

  predicate IsHex4(s: bytes) { |s| == 4 && IsHex(s[0]) && IsHex(s[1]) && IsHex(s[2]) && IsHex(s[3]) }

  function Hex4Of(s: bytes): nat
    requires IsHex4(s)
  {
    4096 * HexOf(s[0]) + 256 * HexOf(s[1]) + 16 * HexOf(s[2]) + HexOf(s[3])
  }

  /** The letters of the short escapes, and the bytes they stand for. */
  const SHORT: map<byte, byte> := map[34 := 34, 92 := 92, 47 := 47, 98 := 8, 102 := 12, 110 := 10, 114 := 13, 116 := 9]

  predicate CharOk(c: Char) {
    match c
    case Plain(c) => c >= 32 && c != 34 && c != 92
    case Short(letter) => letter in SHORT
    case Unicode(hex) => IsHex4(hex) && !(0xD800 <= Hex4Of(hex) <= 0xDFFF)
    case Pair(high, low) =>
      IsHex4(high) && 0xD800 <= Hex4Of(high) <= 0xDBFF && IsHex4(low) && 0xDC00 <= Hex4Of(low) <= 0xDFFF
  }

  function CharText(c: Char): bytes {
    match c
    case Plain(c) => [c]
    case Short(letter) => [92, letter]
    case Unicode(hex) => [92, 117] + hex
    case Pair(high, low) => [92, 117] + high + ([92, 117] + low)
  }

  /** UTF-8 (section 3 of RFC 3629): the table of the octet sequences. */
  predicate IsUtf8(s: bytes, cp: int) {
    || (|s| == 1 && s[0] == cp < 0x80)
    || (|s| == 2 && 0x80 <= cp && IsLead(s[0], 0xC0, 0x20) && IsTail(s[1]) && cp == 64 * Low(s[0], 0xC0) + Low(s[1], 0x80))
    || (|s| == 3 && 0x800 <= cp && IsLead(s[0], 0xE0, 0x10) && IsTail(s[1]) && IsTail(s[2])
        && cp == 4096 * Low(s[0], 0xE0) + 64 * Low(s[1], 0x80) + Low(s[2], 0x80))
    || (|s| == 4 && 0x10000 <= cp && IsLead(s[0], 0xF0, 0x08) && IsTail(s[1]) && IsTail(s[2]) && IsTail(s[3])
        && cp == 262144 * Low(s[0], 0xF0) + 4096 * Low(s[1], 0x80) + 64 * Low(s[2], 0x80) + Low(s[3], 0x80))
  }

  predicate IsLead(c: byte, first: int, n: int) { first <= c < first + n }

  predicate IsTail(c: byte) { 0x80 <= c < 0xC0 }

  function Low(c: byte, first: int): int { c - first }

  /** The bytes a character stands for. */
  predicate CharMeans(c: Char, s: bytes) {
    CharOk(c) &&
    match c
    case Plain(c) => s == [c]
    case Short(letter) => s == [SHORT[letter]]
    case Unicode(hex) => IsUtf8(s, Hex4Of(hex))
    case Pair(high, low) => IsUtf8(s, 0x10000 + 1024 * (Hex4Of(high) - 0xD800) + (Hex4Of(low) - 0xDC00))
  }

  function CharsText(cs: seq<Char>): bytes {
    if cs == [] then [] else CharText(cs[0]) + CharsText(cs[1..])
  }

  function StringText(cs: seq<Char>): bytes { [34] + (CharsText(cs) + [34]) }

  ghost predicate StringMeans(cs: seq<Char>, s: bytes)
    decreases |cs|
  {
    if cs == [] then s == []
    else exists k :: 0 <= k <= |s| && CharMeans(cs[0], s[..k]) && StringMeans(cs[1..], s[k..])
  }

  // ---- section 6: numbers ------------------------------------------------------------------------

  /** The letter, a sign or nothing, and digits. */
  datatype Exponent = Exponent(letter: byte, sign: bytes, digits: bytes)

  datatype Number = Number(minus: bool, digits: bytes, fraction: Option<bytes>, exponent: Option<Exponent>)

  predicate AreDigits(s: bytes) {
    s != [] && forall i :: 0 <= i < |s| ==> 48 <= s[i] <= 57
  }

  predicate NumberOk(n: Number) {
    && AreDigits(n.digits) && (n.digits[0] == 48 ==> |n.digits| == 1)
    && (n.fraction.Some? ==> AreDigits(n.fraction.value))
    && (n.exponent.Some? ==>
          var e := n.exponent.value;
          (e.letter == 101 || e.letter == 69) && (e.sign == [] || e.sign == [43] || e.sign == [45]) && AreDigits(e.digits))
  }

  function FractionText(n: Number): bytes {
    if n.fraction.Some? then [46] + n.fraction.value else []
  }

  function ExponentText(n: Number): bytes {
    if n.exponent.Some? then [n.exponent.value.letter] + (n.exponent.value.sign + n.exponent.value.digits) else []
  }

  function NumberText(n: Number): bytes {
    (if n.minus then [45] else []) + (n.digits + (FractionText(n) + ExponentText(n)))
  }

  function Decimal(s: bytes): nat
    requires forall i :: 0 <= i < |s| ==> 48 <= s[i] <= 57
  {
    if s == [] then 0 else 10 * Decimal(s[..|s| - 1]) + (s[|s| - 1] - 48)
  }

  /** An integer in range is held as such, every other number by its text. */
  predicate NumberMeans(n: Number, v: Value)
    requires NumberOk(n)
  {
    var whole: int := if n.minus then -(Decimal(n.digits) as int) else Decimal(n.digits);
    if n.fraction.None? && n.exponent.None? && -0x8000_0000_0000_0000 <= whole <= 0xFFFF_FFFF_FFFF_FFFF
    then v == Int(whole) else v == Real(NumberText(n))
  }

  // ---- sections 3 to 5: values -------------------------------------------------------------------

  datatype Node =
    | NullNode
    | TrueNode
    | FalseNode
    | NumberNode(number: Number)
    | StringNode(chars: seq<Char>)
    | ArrayNode(gap: bytes, items: seq<Item>)
    | ObjectNode(gap: bytes, fields: seq<Field>)

  /** A value with the white space around it. */
  datatype Item = Item(before: bytes, node: Node, after: bytes)

  /** A member: white space, a name, white space, a colon and a value. */
  datatype Field = Field(before: bytes, name: seq<Char>, after: bytes, value: Item)

  function Text(n: Node): bytes
    decreases n, 0
  {
    match n
    case NullNode => [110, 117, 108, 108]
    case TrueNode => [116, 114, 117, 101]
    case FalseNode => [102, 97, 108, 115, 101]
    case NumberNode(number) => NumberText(number)
    case StringNode(chars) => StringText(chars)
    case ArrayNode(gap, items) => [91] + ((if items == [] then gap else ItemsText(items)) + [93])
    case ObjectNode(gap, fields) => [123] + ((if fields == [] then gap else FieldsText(fields)) + [125])
  }

  function ItemText(i: Item): bytes
    decreases i, 1
  {
    i.before + (Text(i.node) + i.after)
  }

  function ItemsText(items: seq<Item>): bytes
    requires items != []
    decreases items, 0
  {
    if |items| == 1 then ItemText(items[0]) else ItemText(items[0]) + ([44] + ItemsText(items[1..]))
  }

  function FieldText(f: Field): bytes
    decreases f, 2
  {
    f.before + (StringText(f.name) + (f.after + ([58] + ItemText(f.value))))
  }

  function FieldsText(fields: seq<Field>): bytes
    requires fields != []
    decreases fields, 0
  {
    if |fields| == 1 then FieldText(fields[0]) else FieldText(fields[0]) + ([44] + FieldsText(fields[1..]))
  }

  /** The value of a name in a list of members is that of its last occurrence. */
  ghost predicate LastWins(names: seq<bytes>, values: seq<Value>, ms: seq<Member>)
    requires |names| == |values|
  {
    forall k, v :: Member(k, v) in ms <==> IsLast(names, values, k, v)
  }

  ghost predicate IsLast(names: seq<bytes>, values: seq<Value>, k: bytes, v: Value)
    requires |names| == |values|
  {
    exists i :: 0 <= i < |names| && names[i] == k && values[i] == v && k !in names[i + 1..]
  }

  /** The value a tree denotes. Names and strings are C strings here, so U+0000 is left out. */
  ghost predicate Means(n: Node, v: Value)
    decreases n, 0
  {
    match n
    case NullNode => v == Null
    case TrueNode => v == Bool(true)
    case FalseNode => v == Bool(false)
    case NumberNode(number) => NumberOk(number) && NumberMeans(number, v)
    case StringNode(chars) => v.Str? && StringMeans(chars, v.s) && 0 !in v.s
    case ArrayNode(gap, items) => IsGap(gap) && v.Arr? && ItemsMean(items, v.items)
    case ObjectNode(gap, fields) =>
      IsGap(gap) && v.Obj? && SortedKeys(v.members) &&
      exists names, values ::
        |names| == |values| && FieldsMean(fields, names, values) && LastWins(names, values, v.members)
  }

  ghost predicate ItemMeans(i: Item, v: Value)
    decreases i, 1
  {
    IsGap(i.before) && IsGap(i.after) && Means(i.node, v)
  }

  ghost predicate ItemsMean(items: seq<Item>, vs: seq<Value>)
    decreases items, 0
  {
    if items == [] then vs == []
    else vs != [] && ItemMeans(items[0], vs[0]) && ItemsMean(items[1..], vs[1..])
  }

  ghost predicate FieldMeans(f: Field, name: bytes, v: Value)
    decreases f, 2
  {
    IsGap(f.before) && IsGap(f.after) && StringMeans(f.name, name) && 0 !in name && ItemMeans(f.value, v)
  }

  ghost predicate FieldsMean(fields: seq<Field>, names: seq<bytes>, vs: seq<Value>)
    decreases fields, 0
  {
    if fields == [] then names == [] && vs == []
    else names != [] && vs != [] && FieldMeans(fields[0], names[0], vs[0]) && FieldsMean(fields[1..], names[1..], vs[1..])
  }

  /** The text denotes the value. */
  ghost predicate Denotes(text: bytes, v: Value) {
    exists i: Item :: ItemMeans(i, v) && text == ItemText(i)
  }
}
