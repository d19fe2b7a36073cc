/** Json::Value and the text FastWriter produces for it (src/json/jsoncpp.cpp). */
module Json {
  import opened Bytes

  /** A Json::Value. Strings and keys are C strings, an object is a std::map ordered by strcmp, and
      the int and uint tags are one constructor. `Real` keeps the text of the number, because
      sscanf and snprintf are not part of this model. */
  datatype Value =
    | Null
    | Bool(b: bool)
    | Int(n: int)
    | Real(text: bytes)
    | Str(s: bytes)
    | Arr(items: seq<Value>)
    | Obj(members: seq<Member>)

  datatype Member = Member(key: bytes, value: Value)

  const MIN_LARGEST_INT: int := -0x8000_0000_0000_0000
  const MAX_LARGEST_UINT: int := 0xFFFF_FFFF_FFFF_FFFF

  /** strcmp(a, b) < 0: the order of bytes as unsigned characters. */
  predicate KeyLess(a: bytes, b: bytes) {
    if b == [] then false
    else if a == [] then true
    else a[0] < b[0] || (a[0] == b[0] && KeyLess(a[1..], b[1..]))
  }

  predicate SortedKeys(ms: seq<Member>) {
    forall i, j :: 0 <= i < j < |ms| ==> KeyLess(ms[i].key, ms[j].key)
  }

  /** What a Value can hold and FastWriter can print: C strings without NUL, dense arrays, members in
      map order, no doubles, and no integer at or below -2^63 (whose negation overflows). */
  predicate Printable(v: Value)
    decreases v, 1
  {
    match v
    case Null => true
    case Bool(_) => true
    case Int(n) => MIN_LARGEST_INT < n <= MAX_LARGEST_UINT
    case Real(_) => false
    case Str(s) => 0 !in s
    case Arr(items) => AllPrintable(items)
    case Obj(members) => SortedKeys(members) && MembersPrintable(members)
  }

  predicate AllPrintable(vs: seq<Value>)
    decreases vs, 0
  {
    forall i :: 0 <= i < |vs| ==> Printable(vs[i])
  }

  predicate MembersPrintable(ms: seq<Member>)
    decreases ms, 0
  {
    forall i :: 0 <= i < |ms| ==> 0 !in ms[i].key && Printable(ms[i].value)
  }

  // ---- numbers -----------------------------------------------------------------------------

  predicate IsDigit(c: byte) { ZERO <= c <= NINE }

  /** The decimal digits of n, the most significant first. */
  function Digits(n: nat): (r: bytes)
    ensures r != [] && forall c :: c in r ==> IsDigit(c)
  {
    if n < 10 then [ZERO + n] else Digits(n / 10) + [ZERO + n % 10]
  }

  function PrintInt(n: int): bytes {
    if n < 0 then [MINUS] + Digits(-n) else Digits(n)
  }

  // ---- strings -----------------------------------------------------------------------------

  /** isControlCharacter: char is signed, so bytes above 127 are negative. */
  predicate IsControl(c: byte) { 0 < c <= 31 }

  predicate NeedsEscape(c: byte) {
    c == QUOTE || c == BACKSLASH || c == 8 || c == 12 || c == NEWLINE || c == RETURN || c == TAB || IsControl(c)
  }

  function HexDigit(d: nat): byte
    requires d < 16
  {
    if d < 10 then ZERO + d else 55 + d
  }

  /** One character of valueToQuotedString. */
  function EscapeByte(c: byte): bytes {
    if c == QUOTE then [BACKSLASH, QUOTE]
    else if c == BACKSLASH then [BACKSLASH, BACKSLASH]
    else if c == 8 then [BACKSLASH, 98]
    else if c == 12 then [BACKSLASH, 102]
    else if c == NEWLINE then [BACKSLASH, 110]
    else if c == RETURN then [BACKSLASH, 114]
    else if c == TAB then [BACKSLASH, 116]
    else if IsControl(c) then [BACKSLASH, 117, ZERO, ZERO, HexDigit(c / 16), HexDigit(c % 16)]
    else [c]
  }

  function Escape(s: bytes): bytes {
    if s == [] then [] else EscapeByte(s[0]) + Escape(s[1..])
  }

  function Quote(s: bytes): bytes {
    [QUOTE] + Escape(s) + [QUOTE]
  }

  /** The C string in a buffer: everything before the first NUL. */
  function CString(s: bytes): (r: bytes)
    ensures 0 !in r && (0 !in s ==> r == s)
  {
    if s == [] || s[0] == 0 then [] else [s[0]] + CString(s[1..])
  }

  // ---- values ------------------------------------------------------------------------------

  const NULL_TEXT: bytes := [110, 117, 108, 108]
  const TRUE_TEXT: bytes := [116, 114, 117, 101]
  const FALSE_TEXT: bytes := [102, 97, 108, 115, 101]

  /** The text FastWriter::writeValue appends for v. */
  function Print(v: Value): bytes
    decreases v, 2
  {
    match v
    case Null => NULL_TEXT
    case Bool(b) => if b then TRUE_TEXT else FALSE_TEXT
    case Int(n) => PrintInt(n)
    case Real(text) => text
    case Str(s) => Quote(CString(s))
    case Arr(items) => [OPEN_BRACKET] + PrintItems(items) + [CLOSE_BRACKET]
    case Obj(members) => [OPEN_BRACE] + PrintMembers(members) + [CLOSE_BRACE]
  }

  /** The items of an array, separated by commas. */
  function PrintItems(vs: seq<Value>): bytes
    decreases vs, 0
  {
    if vs == [] then []
    else if |vs| == 1 then Print(vs[0])
    else Print(vs[0]) + [COMMA] + PrintItems(vs[1..])
  }

  function PrintMember(m: Member): bytes
    decreases m, 2
  {
    Quote(CString(m.key)) + [COLON] + Print(m.value)
  }

  function PrintMembers(ms: seq<Member>): bytes
    decreases ms, 0
  {
    if ms == [] then []
    else if |ms| == 1 then PrintMember(ms[0])
    else PrintMember(ms[0]) + [COMMA] + PrintMembers(ms[1..])
  }

  /** FastWriter::write. */
  function Write(v: Value): bytes {
    Print(v) + [NEWLINE]
  }
}
