/** Strict Base64 is a bijection: the decoder accepts exactly the encodings, and gives back their bytes. */
module Base64RoundTrip {
  import opened Bytes
  import opened Base64

  // ---- one group ---------------------------------------------------------------------------------

  /** Four values as a 24-bit group. */
  function Joined(x: nat, y: nat, z: nat, w: nat): nat { 0x4_0000 * x + 0x1000 * y + 64 * z + w }

  /** Unpacking four values is joining their bits. */
  lemma UnpackJoins(x: sextet, y: sextet, z: sextet, w: sextet)
    ensures Group(Unpacked0(x, y), Unpacked1(y, z), Unpacked2(z, w)) == Joined(x, y, z, w) < 0x100_0000
  {
  }

  lemma JoinedDigits(x: sextet, y: sextet, z: sextet, w: sextet, g: nat)
    requires g == Joined(x, y, z, w)
    ensures g < 0x100_0000 && g / 0x4_0000 == x && g / 0x1000 % 64 == y && g / 64 % 64 == z && g % 64 == w
  {
    assert g / 0x1000 == 64 * x + y;
    assert g / 64 == 64 * (64 * x + y) + z;
  }

  function Digits(g: nat): (v: seq<sextet>)
    requires g < 0x100_0000
    ensures |v| == 4
  {
    [g / 0x4_0000, g / 0x1000 % 64, g / 64 % 64, g % 64]
  }

  lemma DigitsJoin(g: nat)
    requires g < 0x100_0000
    ensures g == Joined(Digits(g)[0], Digits(g)[1], Digits(g)[2], Digits(g)[3])
  {
    assert g / 0x1000 == 64 * (g / 0x4_0000) + g / 0x1000 % 64;
    assert g / 64 == 64 * (g / 0x1000) + g / 64 % 64;
  }

  lemma GroupParts(a: byte, b: byte, c: byte, x: byte, y: byte, z: byte)
    requires Group(a, b, c) == Group(x, y, z)
    ensures a == x && b == y && c == z
  {
  }

  /** Unpacking the digits of three bytes gives the bytes. */
  lemma UnpackDigits(a: byte, b: byte, c: byte, v: seq<sextet>)
    requires Group(a, b, c) < 0x100_0000 && v == Digits(Group(a, b, c))
    ensures Unpacked0(v[0], v[1]) == a && Unpacked1(v[1], v[2]) == b && Unpacked2(v[2], v[3]) == c
  {
    UnpackJoins(v[0], v[1], v[2], v[3]);
    DigitsJoin(Group(a, b, c));
    GroupParts(a, b, c, Unpacked0(v[0], v[1]), Unpacked1(v[1], v[2]), Unpacked2(v[2], v[3]));
  }

  /** Missing values count as zeros. */
  predicate ZerosFrom(v: seq<sextet>, n: nat) {
    forall i :: n <= i < |v| ==> v[i] == 0
  }

  lemma UnpackShort(v: seq<sextet>, n: nat)
    requires |v| == 4 && n <= 4 && ZerosFrom(v, n)
    ensures Unpacked(v[..n], 0) == Unpacked0(v[0], v[1])
    ensures Unpacked(v[..n], 1) == Unpacked1(v[1], v[2])
    ensures Unpacked(v[..n], 2) == Unpacked2(v[2], v[3])
  {
    assert forall i :: 0 <= i < 4 ==> ValueAt(v[..n], i) == v[i];
  }

  // ---- encodings are accepted --------------------------------------------------------------------

  lemma ScanValue(parse: ParseFlag, illegalPads: bool, data: bytes, scan: Scan, v: sextet)
    requires scan.pos < |data| && |scan.values| < 4 && scan.pads == 0 && data[scan.pos] == CharOf(v)
    ensures ScanFrom(parse, illegalPads, data, scan) ==
      ScanFrom(parse, illegalPads, data, Scan(scan.pos + 1, scan.values + [v], 0, scan.padStart))
  {
    TableInverse(data[scan.pos], v);
  }

  lemma ScanPad(parse: ParseFlag, data: bytes, scan: Scan, next: Scan)
    requires scan.pos < |data| && 2 <= |scan.values| && |scan.values| + scan.pads < 4 && data[scan.pos] == PAD
    requires next == Scan(scan.pos + 1, scan.values, scan.pads + 1, if scan.pads == 0 then scan.pos else scan.padStart)
    ensures ScanFrom(parse, false, data, scan) == ScanFrom(parse, false, data, next)
  {
  }

  lemma {:induction false} ReadsValues(parse: ParseFlag, data: bytes, pos: nat, d: seq<sextet>, n: nat)
    requires n <= |d| == 4 && pos + n <= |data| && forall i :: 0 <= i < n ==> data[pos + i] == CharOf(d[i])
    ensures ScanFrom(parse, false, data, Scan(pos, [], 0, 0)) == ScanFrom(parse, false, data, Scan(pos + n, d[..n], 0, 0))
  {
    if n > 0 {
      ReadsValues(parse, data, pos, d, n - 1);
      ScanValue(parse, false, data, Scan(pos + n - 1, d[..n - 1], 0, 0), d[n - 1]);
      assert d[..n - 1] + [d[n - 1]] == d[..n];
    } else {
      assert d[..0] == [];
    }
  }

  /** A group behind its values: pads up to four characters, and the end of the data. */
  lemma ReadsPads(parse: ParseFlag, data: bytes, pos: nat, values: seq<sextet>)
    requires 2 <= |values| <= 4 && pos + 4 - |values| <= |data| && (|values| < 4 ==> pos + 4 - |values| == |data|)
    requires forall j :: pos <= j < pos + 4 - |values| ==> data[j] == PAD
    ensures QuantumOf(ScanFrom(parse, false, data, Scan(pos, values, 0, 0))) == Quantum(values, true, pos + 4 - |values|)
  {
    if |values| == 2 {
      var t := Scan(pos + 1, values, 1, pos);
      ScanPad(parse, data, Scan(pos, values, 0, 0), t);
      ScanPad(parse, data, t, Scan(pos + 2, values, 2, pos));
    } else if |values| == 3 {
      ScanPad(parse, data, Scan(pos, values, 0, 0), Scan(pos + 1, values, 1, pos));
    }
  }

  lemma GroupCharAt(data: bytes, pos: nat, g: nat, n: nat, i: nat)
    requires pos + 4 <= |data| && g < 0x100_0000 && 2 <= n <= 4 && data[pos..pos + 4] == GroupChars(g, n) && i < 4
    ensures data[pos + i] == if i < n then CharOf(Digits(g)[i]) else PAD
  {
    assert data[pos + i] == data[pos..pos + 4][i];
  }

  /** The quantum that an encoded group is read as. */
  lemma ReadsGroup(parse: ParseFlag, data: bytes, pos: nat, g: nat, n: nat)
    requires pos + 4 <= |data| && g < 0x100_0000 && 2 <= n <= 4 && data[pos..pos + 4] == GroupChars(g, n)
    requires n < 4 ==> pos + 4 == |data|
    ensures QuantumAt(parse, false, data, pos) == Quantum(Digits(g)[..n], true, pos + 4)
  {
    forall i | 0 <= i < n ensures data[pos + i] == CharOf(Digits(g)[i]) {
      GroupCharAt(data, pos, g, n, i);
    }
    ReadsValues(parse, data, pos, Digits(g), n);
    forall j | pos + n <= j < pos + 4 ensures data[j] == PAD {
      GroupCharAt(data, pos, g, n, j - pos);
    }
    ReadsPads(parse, data, pos + n, Digits(g)[..n]);
  }

  lemma ShortDigits(a: byte, b: byte, c: byte, n: nat)
    requires 2 <= n <= 4 && (n < 3 ==> b == 0) && (n < 4 ==> c == 0) && Group(a, b, c) < 0x100_0000
    ensures ZerosFrom(Digits(Group(a, b, c)), n)
  {
    var g := Group(a, b, c);
    if n < 3 {
      assert g == 64 * (1024 * a) && g / 64 == 64 * (16 * a);
    } else if n < 4 {
      assert g == 64 * (1024 * a + 4 * b);
    }
  }

  lemma UnpackPrefix(a: byte, b: byte, c: byte, n: nat, d: seq<sextet>)
    requires 2 <= n <= 4 && (n < 3 ==> b == 0) && (n < 4 ==> c == 0) && Group(a, b, c) < 0x100_0000
    requires d == Digits(Group(a, b, c))
    ensures Unpacked(d[..n], 0) == a && Unpacked(d[..n], 1) == b && Unpacked(d[..n], 2) == c
  {
    UnpackDigits(a, b, c, d);
    ShortDigits(a, b, c, n);
    UnpackShort(d, n);
  }

  /** The bytes of a group come back. */
  lemma GroupBytes(s: bytes, values: seq<sextet>, t: seq<byte>)
    requires s != [] && |values| == AtMost3(s) + 1
    requires t == [ByteAt(s, 0), ByteAt(s, 1), ByteAt(s, 2)] && Unpacks(values, t)
    ensures QuantumBytes(values) == s[..AtMost3(s)]
  {
    var r, n := QuantumBytes(values), AtMost3(s);
    assert r == t[..n];
    assert t[..n] == s[..n];
  }

  /** Nothing is left over. */
  lemma GroupRest(s: bytes, values: seq<sextet>, t: seq<byte>)
    requires s != [] && |values| == AtMost3(s) + 1
    requires t == [ByteAt(s, 0), ByteAt(s, 1), ByteAt(s, 2)] && Unpacks(values, t)
    ensures |values| < 4 ==> Unpacked(values, Complete(values)) == 0
  {
    if |values| < 4 {
      assert Unpacked(values, |s|) == t[|s|] == 0;
    }
  }

  lemma UnpacksThree(values: seq<sextet>, a: byte, b: byte, c: byte)
    requires Unpacked(values, 0) == a && Unpacked(values, 1) == b && Unpacked(values, 2) == c
    ensures Unpacks(values, [a, b, c])
  {
  }

  predicate Unpacks(values: seq<sextet>, t: seq<byte>) {
    forall k: nat :: k < |t| ==> Unpacked(values, k) == t[k]
  }

  lemma GroupComesBack(s: bytes, d: seq<sextet>, values: seq<sextet>)
    requires s != [] && d == Digits(FirstGroup(s)) && values == d[..AtMost3(s) + 1]
    ensures QuantumBytes(values) == s[..AtMost3(s)]
    ensures |values| < 4 ==> Unpacked(values, Complete(values)) == 0
  {
    var a, b, c := ByteAt(s, 0), ByteAt(s, 1), ByteAt(s, 2);
    UnpackPrefix(a, b, c, AtMost3(s) + 1, d);
    UnpacksThree(values, a, b, c);
    GroupBytes(s, values, [a, b, c]);
    GroupRest(s, values, [a, b, c]);
  }

  lemma SplitAt(data: bytes, pos: nat, chars: bytes, rest: bytes)
    requires pos <= |data| && data[pos..] == chars + rest && |chars| == 4
    ensures pos + 4 <= |data| && data[pos..pos + 4] == chars && data[pos + 4..] == rest
  {
    assert data[pos..pos + 4] == data[pos..][..4];
    assert data[pos + 4..] == data[pos..][4..];
  }

  /** The quantum read from the first group of an encoding. */
  lemma FirstQuantum(parse: ParseFlag, data: bytes, pos: nat, s: bytes, q: Quantum)
    requires s != [] && pos + 4 <= |data| && data[pos..pos + 4] == GroupChars(FirstGroup(s), AtMost3(s) + 1)
    requires (AtMost3(s) < 3 ==> pos + 4 == |data|) && q == QuantumAt(parse, false, data, pos)
    ensures |q.values| == AtMost3(s) + 1 && q.padded && q.pos == pos + 4 && QuantumBytes(q.values) == s[..AtMost3(s)]
    ensures |q.values| < 4 ==> Unpacked(q.values, Complete(q.values)) == 0
  {
    ReadsGroup(parse, data, pos, FirstGroup(s), AtMost3(s) + 1);
    GroupComesBack(s, Digits(FirstGroup(s)), q.values);
  }

  /** Every mode that does not forbid pads decodes every encoding, completely. */
  lemma {:induction false} DecodesEncodings(flags: Flags, data: bytes, pos: nat, s: bytes)
    requires flags.pad != PAD_NO && pos <= |data| && data[pos..] == Encode(s)
    ensures Decode(flags, data, pos) == Decoded(true, s, |data|)
    decreases |s|
  {
    if s == [] {
      assert pos == |data|;
    } else {
      var k := AtMost3(s);
      var rest := s[k..];
      assert s == s[..k] + rest;
      EncodeStep(s);
      SplitAt(data, pos, GroupChars(FirstGroup(s), k + 1), Encode(rest));
      if k < 3 {
        assert rest == [] && Encode(rest) == [];
      }
      var q := QuantumAt(flags.parse, false, data, pos);
      FirstQuantum(flags.parse, data, pos, s, q);
      DecodeStep(flags, data, pos, q);
      if k == 3 {
        DecodesEncodings(flags, data, pos + 4, rest);
      } else {
        assert s[..k] == s;
      }
    }
  }

  // ---- only encodings are accepted ---------------------------------------------------------------

  function CharsOf(values: seq<sextet>): (r: bytes)
    ensures |r| == |values|
  {
    seq(|values|, i requires 0 <= i < |values| => CharOf(values[i]))
  }

  function Pads(n: nat): (r: bytes)
    ensures |r| == n
  {
    seq(n, _ => PAD)
  }

  /** The strict parser has taken every character: values, then pads behind at least two values. */
  ghost predicate Taken(data: bytes, start: nat, scan: Scan) {
    && start <= scan.pos <= |data| && data[start..scan.pos] == CharsOf(scan.values) + Pads(scan.pads)
    && |scan.values| + scan.pads <= 4 && (scan.pads > 0 ==> |scan.values| >= 2)
  }

  lemma TakenNext(data: bytes, start: nat, scan: Scan, action: Action)
    requires Taken(data, start, scan) && scan.pos < |data| && |scan.values| < 4
    requires action == ActionOn(PARSE_STRICT, false, DecodeTable(data[scan.pos]), scan) && action != Reject
    ensures (action.TakeValue? ==> DecodeTable(data[scan.pos]) < 64)
      && Taken(data, start, Next(action, DecodeTable(data[scan.pos]), scan))
  {
    var ch := data[scan.pos];
    TableInverse(ch, 0);
    var next := Next(action, DecodeTable(ch), scan);
    assert data[start..next.pos] == data[start..scan.pos] + [ch];
    if action.TakeValue? {
      assert CharsOf(next.values) == CharsOf(scan.values) + [ch];
      assert Pads(0) == [] && CharsOf(scan.values) + [] == CharsOf(scan.values);
    } else {
      assert Pads(next.pads) == Pads(scan.pads) + [ch];
      Assoc3(CharsOf(scan.values), Pads(scan.pads), [ch]);
    }
  }

  lemma {:induction false} StrictTakes(data: bytes, start: nat, scan: Scan)
    requires Taken(data, start, scan)
    ensures Taken(data, start, ScanFrom(PARSE_STRICT, false, data, scan))
    decreases |data| - scan.pos
  {
    if |scan.values| < 4 && scan.pos < |data| {
      var v := DecodeTable(data[scan.pos]);
      var action := ActionOn(PARSE_STRICT, false, v, scan);
      if action != Reject {
        TakenNext(data, start, scan, action);
        StrictTakes(data, start, Next(action, v, scan));
      }
    }
  }

  /** Values that leave no bits over are the digits of their bytes. */
  lemma PackedChars(values: seq<sextet>, s: bytes, chars: bytes)
    requires 2 <= |values| <= 4 && (|values| < 4 ==> Unpacked(values, |values| - 1) == 0)
    requires s == QuantumBytes(values) && chars == CharsOf(values) + Pads(4 - |values|)
    ensures AtMost3(s) == |s| == |values| - 1 && chars == GroupChars(FirstGroup(s), |values|)
  {
    var n := |values|;
    var x, y, z, w := ValueAt(values, 0), ValueAt(values, 1), ValueAt(values, 2), ValueAt(values, 3);
    UnpackJoins(x, y, z, w);
    JoinedDigits(x, y, z, w, Joined(x, y, z, w));
    assert ByteAt(s, 0) == Unpacked(values, 0) && ByteAt(s, 1) == Unpacked(values, 1) && ByteAt(s, 2) == Unpacked(values, 2);
  }

  /** What strict decoding accepts is an encoding of the bytes it returns. */
  lemma {:induction false} AcceptsOnlyEncodings(data: bytes, pos: nat)
    requires pos <= |data| && Decode(DO_STRICT, data, pos).success
    ensures data[pos..] == Encode(Decode(DO_STRICT, data, pos).result) && Decode(DO_STRICT, data, pos).used == |data|
    decreases |data| - pos
  {
    if pos < |data| {
      var scan := ScanFrom(PARSE_STRICT, false, data, Scan(pos, [], 0, 0));
      var q := QuantumOf(scan);
      DecodeStep(DO_STRICT, data, pos, q);
      StrictTakes(data, pos, Scan(pos, [], 0, 0));
      var r := Decode(DO_STRICT, data, pos).result;
      var s := QuantumBytes(q.values);
      PackedChars(q.values, s, data[pos..q.pos]);
      if |q.values| == 4 {
        AcceptsOnlyEncodings(data, q.pos);
        var rest := Decode(DO_STRICT, data, q.pos).result;
        assert r == s + rest;
        SliceAt(data, pos, q.pos);
        EncodeFull(s, rest);
      }
    }
  }

  lemma SliceAt(data: bytes, pos: nat, next: nat)
    requires pos <= next <= |data|
    ensures data[pos..] == data[pos..next] + data[next..]
  {
  }

  lemma EncodeFull(s: bytes, rest: bytes)
    requires |s| == 3
    ensures Encode(s + rest) == GroupChars(FirstGroup(s), 4) + Encode(rest)
  {
    assert (s + rest)[3..] == rest;
  }

  /** The strict decoder accepts exactly the encoder's image, and decodes it to what was encoded. */
  lemma StrictIsBijection(data: bytes, r: Decoded, s: bytes)
    requires r == Decode(DO_STRICT, data, 0)
    ensures r.success && r.result == s <==> data == Encode(s)
    ensures r.success ==> r.used == |data|
  {
    assert data[0..] == data;
    if data == Encode(s) {
      DecodesEncodings(DO_STRICT, data, 0, s);
    }
    if r.success {
      AcceptsOnlyEncodings(data, 0);
    }
  }
}
