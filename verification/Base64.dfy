/** Base64 of src/base/base64.cpp against section 4 of RFC 4648. */
module Base64 {
  import opened Bytes
  import ByteBuffers

  const PAD: byte := 61

  // Marks in the decode table.
  const PD: byte := 0xFD    // padding
  const SP: byte := 0xFE    // white space
  const IL: byte := 0xFF    // illegal

  // ---- RFC 4648 ----------------------------------------------------------------------------------

  type sextet = x: int | 0 <= x < 64

  /** The alphabet: A to Z, a to z, 0 to 9, + and /. */
  function CharOf(v: sextet): byte {
    if v < 26 then 65 + v else if v < 52 then 97 + (v - 26) else if v < 62 then 48 + (v - 52) else if v == 62 then 43 else 47
  }

  /** A 24-bit group. */
  function Group(a: byte, b: byte, c: byte): nat { 0x1_0000 * a + 0x100 * b + c }

  /** The first n characters of a group and padding up to four. */
  function GroupChars(group: nat, n: nat): (r: bytes)
    requires group < 0x100_0000 && 2 <= n <= 4
    ensures |r| == 4
  {
    [CharOf(group / 0x4_0000), CharOf(group / 0x1000 % 64),
     if n > 2 then CharOf(group / 64 % 64) else PAD,
     if n > 3 then CharOf(group % 64) else PAD]
  }

  /** Section 4: full groups, and a last one filled up with zero bits. */
  function Encode(s: bytes): bytes {
    if |s| == 0 then []
    else if |s| == 1 then GroupChars(Group(s[0], 0, 0), 2)
    else if |s| == 2 then GroupChars(Group(s[0], s[1], 0), 3)
    else GroupChars(Group(s[0], s[1], s[2]), 4) + Encode(s[3..])
  }

  // ---- the decode table --------------------------------------------------------------------------

  function DecodeTable(ch: byte): byte {
    if 65 <= ch <= 90 then ch - 65
    else if 97 <= ch <= 122 then ch - 97 + 26
    else if 48 <= ch <= 57 then ch - 48 + 52
    else if ch == 43 then 62
    else if ch == 47 then 63
    else if ch == PAD then PD
    else if 9 <= ch <= 13 || ch == 32 then SP
    else IL
  }

  lemma TableInverse(ch: byte, v: sextet)
    ensures DecodeTable(CharOf(v)) == v
    ensures DecodeTable(ch) < 64 ==> CharOf(DecodeTable(ch)) == ch
    ensures DecodeTable(ch) in {PD, SP, IL} || DecodeTable(ch) < 64
    ensures DecodeTable(ch) == PD <==> ch == PAD
  {
  }

  // ---- EncodeFromArray ---------------------------------------------------------------------------

  function EncodedLength(n: nat): nat { (n + 2) / 3 * 4 }

  lemma Digit0(a: byte, b: byte, c: byte)
    ensures Group(a, b, c) / 0x4_0000 == a / 4 == a / 4 % 64
  {
  }

  lemma Digit1(a: byte, b: byte, c: byte)
    ensures Group(a, b, c) / 0x1000 % 64 == Bits1(a) + Bits1Low(b)
  {
    assert Group(a, b, c) / 0x1000 == 64 * (a / 4) + (a % 4 * 16 + b / 16);
    ByteBuffers.ModUnique(64 * (a / 4) + (a % 4 * 16 + b / 16), 64, a / 4, a % 4 * 16 + b / 16);
  }

  lemma Digit2(a: byte, b: byte, c: byte)
    ensures Group(a, b, c) / 64 % 64 == Bits2(b) + Bits2Low(c)
  {
    assert Group(a, b, c) / 64 == 64 * (16 * a + b / 16) + (b % 16 * 4 + c / 64);
    ByteBuffers.ModUnique(64 * (16 * a + b / 16) + (b % 16 * 4 + c / 64), 64, 16 * a + b / 16, b % 16 * 4 + c / 64);
  }

  lemma Digit3(a: byte, b: byte, c: byte)
    ensures Group(a, b, c) % 64 == c % 64
  {
  }

  // The bits the encoder selects.

  function Bits0(a: byte): (c: nat)
    ensures c < 64
  {
    a / 4 % 64
  }

  function Bits1(a: byte): (c: nat)
    ensures c <= 48
  {
    a % 4 * 16
  }

  function Bits1Low(b: byte): (c: nat)
    ensures c < 16
  {
    b / 16 % 16
  }

  function Bits2(b: byte): (c: nat)
    ensures c <= 60
  {
    b % 16 * 4
  }

  function Bits2Low(c: byte): (d: nat)
    ensures d < 4
  {
    c / 64 % 4
  }

  function Bits3(c: byte): (d: nat)
    ensures d < 64
  {
    c % 64
  }

  /** They are the digits of the group. */
  lemma GroupDigits(a: byte, b: byte, c: byte, n: nat)
    requires 2 <= n <= 4
    ensures GroupChars(Group(a, b, c), n) ==
      [CharOf(Bits0(a)), CharOf(Bits1(a) + Bits1Low(b)),
       if n > 2 then CharOf(Bits2(b) + Bits2Low(c)) else PAD, if n > 3 then CharOf(Bits3(c)) else PAD]
  {
    Digit0(a, b, c);
    Digit1(a, b, c);
    Digit2(a, b, c);
    Digit3(a, b, c);
  }

  /** The bytes of the first group of s, with zeros for those that are missing. */
  function ByteAt(s: bytes, i: nat): byte { if i < |s| then s[i] else 0 }

  function FirstGroup(s: bytes): (g: nat)
    ensures g < 0x100_0000
  {
    Group(ByteAt(s, 0), ByteAt(s, 1), ByteAt(s, 2))
  }

  function AtMost3(s: bytes): (n: nat)
    ensures n <= |s| && n <= 3
  {
    if |s| < 3 then |s| else 3
  }

  lemma EncodeStep(s: bytes)
    requires s != []
    ensures Encode(s) == GroupChars(FirstGroup(s), AtMost3(s) + 1) + Encode(s[AtMost3(s)..])
  {
    if |s| < 3 {
      assert GroupChars(FirstGroup(s), AtMost3(s) + 1) + [] == GroupChars(FirstGroup(s), AtMost3(s) + 1);
    }
  }

  lemma LengthStep(n: nat, k: nat)
    requires n > 0 && k == if n < 3 then n else 3
    ensures EncodedLength(n) == 4 + EncodedLength(n - k)
  {
  }

  lemma StepLength(s: bytes, rest: bytes)
    requires s != [] && rest == s[AtMost3(s)..]
    ensures |Encode(s)| == 4 + |Encode(rest)|
  {
    EncodeStep(s);
  }

  lemma {:induction false} EncodeLength(s: bytes)
    ensures |Encode(s)| == EncodedLength(|s|)
    decreases |s|
  {
    if s != [] {
      var rest := s[AtMost3(s)..];
      EncodeLength(rest);
      StepLength(s, rest);
      LengthStep(|s|, AtMost3(s));
    }
  }

  method EncodeFromArray(data: bytes) returns (result: array<byte>)
    ensures fresh(result) && result[..] == Encode(data)
  {
    result := new byte[EncodedLength(|data|)];
    EncodeLength(data);
    var i, dest := 0, 0;
    while i < |data|
      invariant i <= |data| && result.Length == |Encode(data)| && dest <= result.Length
      invariant Encode(data) == result[..dest] + Encode(data[i..])
    {
      ghost var s, done := data[i..], result[..dest];
      EncodeStep(s);
      var quantum;
      quantum, i := NextQuantum(data, i);
      assert s[AtMost3(s)..] == data[i..];
      assert |Encode(data)| == |done| + 4 + |Encode(data[i..])|;
      result[dest], result[dest + 1], result[dest + 2], result[dest + 3] := quantum[0], quantum[1], quantum[2], quantum[3];
      assert result[..dest + 4] == done + quantum;
      dest := dest + 4;
      Assoc3(done, quantum, Encode(data[i..]));
    }
    assert Encode(data[i..]) == [];
    assert result[..dest] == result[..];
  }

  /** The body of the encoder's loop. */
  method NextQuantum(data: bytes, start: nat) returns (quantum: bytes, i: nat)
    requires start < |data|
    ensures i == start + AtMost3(data[start..])
    ensures quantum == GroupChars(FirstGroup(data[start..]), AtMost3(data[start..]) + 1)
  {
    ghost var s := data[start..];
    GroupDigits(ByteAt(s, 0), ByteAt(s, 1), ByteAt(s, 2), AtMost3(s) + 1);
    i := start;
    var c := Bits0(data[i]);           // (x >> 2) & 0x3f
    var c0 := CharOf(c);
    c := Bits1(data[i]);               // (x << 4) & 0x3f
    i := i + 1;
    if i < |data| {
      c := c + Bits1Low(data[i]);      // | ((x >> 4) & 0x0f)
    }
    var c1 := CharOf(c);
    var c2, c3 := PAD, PAD;
    if i < |data| {
      c := Bits2(data[i]);             // (x << 2) & 0x3f
      i := i + 1;
      if i < |data| {
        c := c + Bits2Low(data[i]);    // | ((x >> 6) & 0x03)
      }
      c2 := CharOf(c);
    }
    if i < |data| {
      c := Bits3(data[i]);             // x & 0x3f
      c3 := CharOf(c);
      i := i + 1;
    }
    quantum := [c0, c1, c2, c3];
  }

  // ---- GetNextQuantum ----------------------------------------------------------------------------

  datatype ParseFlag = PARSE_STRICT | PARSE_WHITE | PARSE_ANY

  datatype PadFlag = PAD_YES | PAD_ANY | PAD_NO

  datatype TermFlag = TERM_BUFFER | TERM_CHAR | TERM_ANY

  datatype Flags = Flags(parse: ParseFlag, pad: PadFlag, term: TermFlag)

  const DO_STRICT := Flags(PARSE_STRICT, PAD_YES, TERM_BUFFER)

  /** A quantum in progress: the values so far and the pads behind them. */
  datatype Scan = Scan(pos: nat, values: seq<sextet>, pads: nat, padStart: nat)

  datatype Action = Ignore | Reject | TakeValue | TakePad

  /** What the parser does with the next character. */
  function ActionOn(parse: ParseFlag, illegalPads: bool, v: byte, scan: Scan): Action {
    var refuse := if parse != PARSE_ANY then Reject else Ignore;
    if v == IL || (illegalPads && v == PD) then refuse
    else if v == SP then (if parse == PARSE_STRICT then Reject else Ignore)
    else if v == PD then (if |scan.values| < 2 || |scan.values| + scan.pads >= 4 then refuse else TakePad)
    else if scan.pads > 0 && parse != PARSE_ANY then Reject
    else TakeValue
  }

  function Next(action: Action, v: byte, scan: Scan): Scan
    requires action.TakeValue? ==> v < 64
  {
    match action
    case Reject => scan
    case Ignore => scan.(pos := scan.pos + 1)
    case TakeValue => Scan(scan.pos + 1, scan.values + [v], 0, scan.padStart)
    case TakePad => Scan(scan.pos + 1, scan.values, scan.pads + 1, if scan.pads == 0 then scan.pos else scan.padStart)
  }

  lemma ValuesAreSmall(parse: ParseFlag, illegalPads: bool, ch: byte, scan: Scan)
    ensures ActionOn(parse, illegalPads, DecodeTable(ch), scan).TakeValue? ==> DecodeTable(ch) < 64
  {
    TableInverse(ch, 0);
  }

  function ScanFrom(parse: ParseFlag, illegalPads: bool, data: bytes, scan: Scan): (r: Scan)
    requires |scan.values| <= 4 && scan.pos <= |data|
    ensures |r.values| <= 4 && scan.pos <= r.pos <= |data|
    decreases |data| - scan.pos
  {
    if |scan.values| == 4 || scan.pos == |data| then scan
    else
      var v := DecodeTable(data[scan.pos]);
      var action := ActionOn(parse, illegalPads, v, scan);
      ValuesAreSmall(parse, illegalPads, data[scan.pos], scan);
      if action == Reject then scan
      else ScanFrom(parse, illegalPads, data, Next(action, v, scan))
  }

  /** The result of GetNextQuantum; a quantum with too few pads is rolled back to before them. */
  datatype Quantum = Quantum(values: seq<sextet>, padded: bool, pos: nat)

  function QuantumOf(scan: Scan): Quantum {
    var padded := |scan.values| + scan.pads == 4;
    Quantum(scan.values, padded, if !padded && scan.pads > 0 then scan.padStart else scan.pos)
  }

  function QuantumAt(parse: ParseFlag, illegalPads: bool, data: bytes, pos: nat): Quantum
    requires pos <= |data|
  {
    QuantumOf(ScanFrom(parse, illegalPads, data, Scan(pos, [], 0, 0)))
  }

  function ValueAt(values: seq<sextet>, i: nat): sextet { if i < |values| then values[i] else 0 }

  method GetNextQuantum(parse: ParseFlag, illegalPads: bool, data: bytes, pos: nat, qbuf: array<byte>)
    returns (byteLen: nat, padded: bool, dpos: nat)
    requires pos <= |data| && qbuf.Length == 4
    modifies qbuf
    ensures var q := QuantumAt(parse, illegalPads, data, pos);
      && byteLen == |q.values| && padded == q.padded && dpos == q.pos
      && byteLen <= 4 && forall i :: 0 <= i < 4 ==> qbuf[i] == ValueAt(q.values, i)
  {
    var padLen, padStart := 0, 0;
    byteLen, dpos := 0, pos;
    ghost var scan := Scan(pos, [], 0, 0);
    ghost var whole := ScanFrom(parse, illegalPads, data, scan);
    while byteLen < 4 && dpos < |data|
      invariant scan.pos == dpos <= |data| && |scan.values| == byteLen <= 4
      invariant scan.pads == padLen && scan.padStart == padStart
      invariant forall i :: 0 <= i < byteLen ==> qbuf[i] == scan.values[i]
      invariant whole == ScanFrom(parse, illegalPads, data, scan)
      decreases |data| - dpos
    {
      var v := DecodeTable(data[dpos]);
      qbuf[byteLen] := v;
      ghost var action := ActionOn(parse, illegalPads, v, scan);
      ValuesAreSmall(parse, illegalPads, data[dpos], scan);
      if v == IL || (illegalPads && v == PD) {
        if parse != PARSE_ANY {
          break;
        }
      } else if v == SP {
        if parse == PARSE_STRICT {
          break;
        }
      } else if v == PD {
        if byteLen < 2 {
          if parse != PARSE_ANY {
            break;
          }
        } else if byteLen + padLen >= 4 {
          if parse != PARSE_ANY {
            break;
          }
        } else {
          padLen := padLen + 1;
          if padLen == 1 {
            padStart := dpos;
          }
        }
      } else {
        if padLen > 0 {
          if parse != PARSE_ANY {
            break;
          }
          padLen := 0;
        }
        byteLen := byteLen + 1;
      }
      scan := Next(action, v, scan);
      dpos := dpos + 1;
    }
    for i := byteLen to 4
      invariant forall k :: 0 <= k < byteLen ==> qbuf[k] == scan.values[k]
      invariant forall k :: byteLen <= k < i ==> qbuf[k] == 0
    {
      qbuf[i] := 0;
    }
    padded := byteLen + padLen == 4;
    if !padded && padLen > 0 {
      dpos := padStart;
    }
  }

  // ---- DecodeFromArray ---------------------------------------------------------------------------

  /** (x << 2) | ((y >> 4) & 0x3) */
  function Unpacked0(x: sextet, y: sextet): byte { x * 4 + y / 16 }

  /** ((x << 4) & 0xf0) | ((y >> 2) & 0xf) */
  function Unpacked1(x: sextet, y: sextet): byte { x % 16 * 16 + y / 4 }

  /** ((x << 6) & 0xc0) | y */
  function Unpacked2(x: sextet, y: sextet): byte { x % 4 * 64 + y }

  /** The bytes of a quantum; behind the last complete one its remaining bits. */
  function Unpacked(values: seq<sextet>, k: nat): byte {
    if k == 0 then Unpacked0(ValueAt(values, 0), ValueAt(values, 1))
    else if k == 1 then Unpacked1(ValueAt(values, 1), ValueAt(values, 2))
    else if k == 2 then Unpacked2(ValueAt(values, 2), ValueAt(values, 3))
    else 0
  }

  function Complete(values: seq<sextet>): (n: nat)
    requires |values| <= 4
    ensures n <= 3
  {
    if |values| < 2 then 0 else |values| - 1
  }

  function QuantumBytes(values: seq<sextet>): bytes
    requires |values| <= 4
  {
    seq(Complete(values), k requires 0 <= k < Complete(values) => Unpacked(values, k))
  }

  /** Whether a short quantum may end the data. */
  predicate EndsWell(flags: Flags, q: Quantum)
    requires |q.values| <= 4
  {
    && (flags.term != TERM_ANY ==> Unpacked(q.values, Complete(q.values)) == 0)
    && (flags.pad == PAD_YES ==> q.padded)
  }

  datatype Decoded = Decoded(success: bool, result: bytes, used: nat)

  function Decode(flags: Flags, data: bytes, pos: nat): (r: Decoded)
    requires pos <= |data|
    decreases |data| - pos
  {
    if pos == |data| then Decoded(true, [], pos)
    else
      var q := QuantumAt(flags.parse, flags.pad == PAD_NO, data, pos);
      FullQuantumMoves(flags.parse, flags.pad == PAD_NO, data, Scan(pos, [], 0, 0));
      if |q.values| == 4 then
        var rest := Decode(flags, data, q.pos);
        Decoded(rest.success, QuantumBytes(q.values) + rest.result, rest.used)
      else
        Decoded(EndsWell(flags, q) && (flags.term == TERM_BUFFER ==> q.pos == |data|), QuantumBytes(q.values), q.pos)
  }

  /** A full quantum has no pads and took characters. */
  lemma {:induction false} FullQuantumMoves(parse: ParseFlag, illegalPads: bool, data: bytes, scan: Scan)
    requires |scan.values| <= 4 && scan.pos <= |data| && (|scan.values| == 4 ==> scan.pads == 0)
    requires scan.pads > 0 ==> scan.padStart <= scan.pos
    ensures var r := ScanFrom(parse, illegalPads, data, scan);
      && |QuantumOf(r).values| <= 4 && QuantumOf(r).pos <= |data|
      && (|r.values| == 4 ==> r.pads == 0 && r.pos >= scan.pos + 4 - |scan.values|)
    decreases |data| - scan.pos
  {
    if |scan.values| < 4 && scan.pos < |data| {
      var v := DecodeTable(data[scan.pos]);
      var action := ActionOn(parse, illegalPads, v, scan);
      ValuesAreSmall(parse, illegalPads, data[scan.pos], scan);
      if action != Reject {
        FullQuantumMoves(parse, illegalPads, data, Next(action, v, scan));
      }
    }
  }

  lemma DecodeStep(flags: Flags, data: bytes, pos: nat, q: Quantum)
    requires pos < |data| && q == QuantumAt(flags.parse, flags.pad == PAD_NO, data, pos)
    ensures |q.values| <= 4 && q.pos <= |data|
    ensures |q.values| == 4 ==> q.pos >= pos + 4 && var rest := Decode(flags, data, q.pos);
      Decode(flags, data, pos) == Decoded(rest.success, QuantumBytes(q.values) + rest.result, rest.used)
    ensures |q.values| < 4 ==>
      var well := EndsWell(flags, q) && (flags.term == TERM_BUFFER ==> q.pos == |data|);
      Decode(flags, data, pos) == Decoded(well, QuantumBytes(q.values), q.pos)
  {
    FullQuantumMoves(flags.parse, flags.pad == PAD_NO, data, Scan(pos, [], 0, 0));
  }

  method DecodeFromArray(flags: Flags, data: bytes) returns (success: bool, result: bytes, used: nat)
    ensures Decoded(success, result, used) == Decode(flags, data, 0)
  {
    var qbuf := new byte[4];
    result, success := [], true;
    var dpos := 0;
    ghost var whole := Decode(flags, data, 0);
    assert whole == Decoded(whole.success, result + whole.result, whole.used);
    while dpos < |data|
      invariant dpos <= |data| && success
      invariant var rest := Decode(flags, data, dpos); whole == Decoded(rest.success, result + rest.result, rest.used)
      decreases |data| - dpos
    {
      ghost var start, before, q := dpos, result, QuantumAt(flags.parse, flags.pad == PAD_NO, data, dpos);
      DecodeStep(flags, data, start, q);
      var qlen, padded;
      qlen, padded, dpos := GetNextQuantum(flags.parse, flags.pad == PAD_NO, data, dpos, qbuf);
      var c;
      result, c := Push(qbuf, qlen, result, q.values);
      if qlen < 4 {
        if flags.term != TERM_ANY && c != 0 {
          success := false;
        }
        if flags.pad == PAD_YES && !padded {
          success := false;
        }
        break;
      }
      Assoc3(before, QuantumBytes(q.values), Decode(flags, data, dpos).result);
    }
    if flags.term == TERM_BUFFER && dpos != |data| {
      success := false;
    }
    used := dpos;
  }

  /** The bytes of a quantum, and the bits that are left. */
  method Push(qbuf: array<byte>, qlen: nat, result: bytes, ghost values: seq<sextet>) returns (r: bytes, c: nat)
    requires qbuf.Length == 4 && qlen == |values| <= 4 && forall i :: 0 <= i < 4 ==> qbuf[i] == ValueAt(values, i)
    ensures r == result + QuantumBytes(values) && c == Unpacked(values, Complete(values))
  {
    r := result;
    c := Unpacked0(qbuf[0], qbuf[1]);
    if qlen >= 2 {
      r := r + [c];
      c := Unpacked1(qbuf[1], qbuf[2]);
      if qlen >= 3 {
        r := r + [c];
        c := Unpacked2(qbuf[2], qbuf[3]);
        if qlen >= 4 {
          r := r + [c];
          c := 0;
        }
      }
    }
  }
}
