/** Base64 decoding in all modes of src/base/base64.cpp: what it makes of encodings between which other characters stand,
    with and without pads, and where it stops. */
module Base64Modes {
  import opened Bytes
  import opened Base64
  import opened Base64RoundTrip

  // ---- what the modes ignore ---------------------------------------------------------------------

  predicate InAlphabet(c: byte) {
    65 <= c <= 90 || 97 <= c <= 122 || 48 <= c <= 57 || c == 43 || c == 47
  }

  predicate IsWhite(c: byte) { 9 <= c <= 13 || c == 32 }

  /** PARSE_WHITE ignores white space, PARSE_ANY all that cannot belong to an encoding. */
  predicate Ignored(flags: Flags, c: byte) {
    || (flags.parse == PARSE_WHITE && IsWhite(c))
    || (flags.parse == PARSE_ANY && !InAlphabet(c) && (c != 61 || flags.pad == PAD_NO))
  }

  /** The other modes end at a character that they neither ignore nor expect. */
  predicate Illegal(flags: Flags, c: byte) {
    flags.parse != PARSE_ANY && !InAlphabet(c) && !(c == 61 && flags.pad != PAD_NO) && !Ignored(flags, c)
  }

  function Filtered(flags: Flags, s: bytes): bytes {
    if s == [] then [] else (if Ignored(flags, s[0]) then [] else [s[0]]) + Filtered(flags, s[1..])
  }

  function WithoutPads(s: bytes): bytes {
    if s == [] then [] else (if s[0] == 61 then [] else [s[0]]) + WithoutPads(s[1..])
  }

  /** The encoding of section 4 of RFC 4648, or the same without pads. */
  function Text(s: bytes, pads: bool): bytes {
    if pads then Encode(s) else WithoutPads(Encode(s))
  }

  /** The part of the data up to n is all that can be read. */
  predicate StopsAt(flags: Flags, data: bytes, n: nat) {
    n == |data| || (n < |data| && Illegal(flags, data[n]))
  }

  lemma TableClass(c: byte)
    ensures InAlphabet(c) <==> DecodeTable(c) < 64
    ensures IsWhite(c) <==> DecodeTable(c) == SP
    ensures c == 61 <==> DecodeTable(c) == PD
    ensures DecodeTable(c) < 64 || DecodeTable(c) in {SP, PD, IL}
  {
  }

  lemma FilteredStep(flags: Flags, data: bytes, pos: nat, n: nat)
    requires pos < n <= |data|
    ensures Filtered(flags, data[pos..n]) ==
      (if Ignored(flags, data[pos]) then [] else [data[pos]]) + Filtered(flags, data[pos + 1..n])
  {
    assert data[pos..n][1..] == data[pos + 1..n];
  }

  lemma EmptyFilters(flags: Flags, data: bytes, n: nat)
    requires n <= |data|
    ensures Filtered(flags, data[n..n]) == []
  {
    assert data[n..n] == [];
  }

  lemma SkipIgnored(flags: Flags, data: bytes, pos: nat, n: nat)
    requires pos < n <= |data| && Ignored(flags, data[pos])
    ensures Filtered(flags, data[pos..n]) == Filtered(flags, data[pos + 1..n])
  {
    FilteredStep(flags, data, pos, n);
    assert [] + Filtered(flags, data[pos + 1..n]) == Filtered(flags, data[pos + 1..n]);
  }

  lemma TakeFirst(flags: Flags, data: bytes, pos: nat, n: nat, c: byte, tail: bytes)
    requires pos < n <= |data| && !Ignored(flags, data[pos]) && Filtered(flags, data[pos..n]) == [c] + tail
    ensures data[pos] == c && Filtered(flags, data[pos + 1..n]) == tail
  {
    FilteredStep(flags, data, pos, n);
    Cons(c, tail);
    Cons(data[pos], Filtered(flags, data[pos + 1..n]));
  }

  // ---- one quantum -------------------------------------------------------------------------------

  lemma ScanSkips(flags: Flags, data: bytes, scan: Scan)
    requires scan.pos < |data| && |scan.values| < 4 && Ignored(flags, data[scan.pos])
    ensures ScanFrom(flags.parse, flags.pad == PAD_NO, data, scan) ==
      ScanFrom(flags.parse, flags.pad == PAD_NO, data, scan.(pos := scan.pos + 1))
  {
    TableClass(data[scan.pos]);
  }

  lemma ScanEnds(flags: Flags, data: bytes, scan: Scan)
    requires scan.pos <= |data| && |scan.values| < 4 && StopsAt(flags, data, scan.pos)
    ensures ScanFrom(flags.parse, flags.pad == PAD_NO, data, scan) == scan
  {
    if scan.pos < |data| { TableClass(data[scan.pos]); }
  }

  lemma CharsSplit(d: seq<sextet>, tail: bytes)
    requires d != []
    ensures CharsOf(d) + tail == [CharOf(d[0])] + (CharsOf(d[1..]) + tail)
  {
    assert CharsOf(d) == [CharOf(d[0])] + CharsOf(d[1..]);
    Assoc3([CharOf(d[0])], CharsOf(d[1..]), tail);
  }

  lemma ValuesSplit(values: seq<sextet>, d: seq<sextet>)
    requires d != []
    ensures values + [d[0]] + d[1..] == values + d
  {
  }

  lemma NoValues(d: seq<sextet>, values: seq<sextet>, tail: bytes)
    requires d == []
    ensures CharsOf(d) + tail == tail && values + d == values
  {
  }

  /** The next character is that of a value. */
  lemma FilterOne(flags: Flags, data: bytes, pos: nat, n: nat, d: seq<sextet>, tail: bytes)
    requires pos < n <= |data| && d != [] && !Ignored(flags, data[pos])
    requires Filtered(flags, data[pos..n]) == CharsOf(d) + tail
    ensures data[pos] == CharOf(d[0]) && Filtered(flags, data[pos + 1..n]) == CharsOf(d[1..]) + tail
  {
    CharsSplit(d, tail);
    TakeFirst(flags, data, pos, n, CharOf(d[0]), CharsOf(d[1..]) + tail);
  }

  /** To the next character that is not ignored. Where the scan ends does not change. */
  lemma {:induction false} SkipAll(flags: Flags, data: bytes, n: nat, scan: Scan, end: Scan) returns (m: nat)
    requires scan.pos <= n <= |data| && |scan.values| < 4 && Filtered(flags, data[scan.pos..n]) != []
    requires ScanFrom(flags.parse, flags.pad == PAD_NO, data, scan) == end
    ensures scan.pos <= m < n && !Ignored(flags, data[m])
    ensures Filtered(flags, data[m..n]) == Filtered(flags, data[scan.pos..n])
    ensures ScanFrom(flags.parse, flags.pad == PAD_NO, data, scan.(pos := m)) == end
    decreases n - scan.pos
  {
    EmptyFilters(flags, data, n);
    if Ignored(flags, data[scan.pos]) {
      SkipIgnored(flags, data, scan.pos, n);
      ScanSkips(flags, data, scan);
      m := SkipAll(flags, data, n, scan.(pos := scan.pos + 1), end);
    } else {
      m := scan.pos;
      assert scan == scan.(pos := m);
    }
  }

  lemma ScansOne(flags: Flags, data: bytes, n: nat, scan: Scan, d: seq<sextet>, tail: bytes, end: Scan) returns (m: nat)
    requires scan.pos <= n <= |data| && scan.pads == 0 && |scan.values| < 4 && d != []
    requires Filtered(flags, data[scan.pos..n]) == CharsOf(d) + tail
    requires ScanFrom(flags.parse, flags.pad == PAD_NO, data, scan) == end
    ensures scan.pos < m <= n && Behind(flags, data, m) && Filtered(flags, data[m..n]) == CharsOf(d[1..]) + tail
    ensures ScanFrom(flags.parse, flags.pad == PAD_NO, data, Scan(m, scan.values + [d[0]], 0, scan.padStart)) == end
  {
    assert CharsOf(d) + tail != [];
    m := SkipAll(flags, data, n, scan, end);
    FilterOne(flags, data, m, n, d, tail);
    ScanValue(flags.parse, flags.pad == PAD_NO, data, scan.(pos := m), d[0]);
    m := m + 1;
  }

  /** The character in front of p is not ignored. */
  predicate Behind(flags: Flags, data: bytes, p: nat) {
    0 < p <= |data| && !Ignored(flags, data[p - 1])
  }

  /** The next characters that are not ignored are those of some values: p is behind the last one. */
  lemma {:induction false} ScansValues(flags: Flags, data: bytes, n: nat, scan: Scan, d: seq<sextet>, tail: bytes, end: Scan)
    returns (p: nat)
    requires scan.pos <= n <= |data| && scan.pads == 0 && |scan.values| + |d| <= 4
    requires Filtered(flags, data[scan.pos..n]) == CharsOf(d) + tail
    requires ScanFrom(flags.parse, flags.pad == PAD_NO, data, scan) == end
    ensures scan.pos <= p <= n && Filtered(flags, data[p..n]) == tail
    ensures ScanFrom(flags.parse, flags.pad == PAD_NO, data, Scan(p, scan.values + d, 0, scan.padStart)) == end
    ensures p >= scan.pos + |d| && (p == scan.pos || Behind(flags, data, p))
    decreases |d|
  {
    if d == [] {
      p := scan.pos;
      NoValues(d, scan.values, tail);
    } else {
      var m := ScansOne(flags, data, n, scan, d, tail, end);
      var values, rest := scan.values + [d[0]], d[1..];
      ValuesSplit(scan.values, d);
      p := ScansValues(flags, data, n, Scan(m, values, 0, scan.padStart), rest, tail, end);
    }
  }

  /** Nothing but ignored characters. */
  lemma {:induction false} ScansRest(flags: Flags, data: bytes, n: nat, scan: Scan)
    requires scan.pos <= n <= |data| && |scan.values| < 4 && Filtered(flags, data[scan.pos..n]) == [] && StopsAt(flags, data, n)
    ensures ScanFrom(flags.parse, flags.pad == PAD_NO, data, scan) == scan.(pos := n)
    ensures scan.pos < n ==> Ignored(flags, data[n - 1])
    decreases n - scan.pos
  {
    if scan.pos == n {
      ScanEnds(flags, data, scan);
    } else {
      FilteredStep(flags, data, scan.pos, n);
      SkipIgnored(flags, data, scan.pos, n);
      ScanSkips(flags, data, scan);
      ScansRest(flags, data, n, scan.(pos := scan.pos + 1));
    }
  }

  /** The pads of a last quantum. */
  lemma {:induction false} ScansPads(flags: Flags, data: bytes, n: nat, scan: Scan, k: nat)
    requires scan.pos <= n <= |data| && 2 <= |scan.values| < 4 && |scan.values| + scan.pads + k == 4 && flags.pad != PAD_NO
    requires Filtered(flags, data[scan.pos..n]) == Pads(k) && StopsAt(flags, data, n)
    ensures QuantumOf(ScanFrom(flags.parse, false, data, scan)) == Quantum(scan.values, true, n)
    decreases n - scan.pos
  {
    if k == 0 {
      ScansRest(flags, data, n, scan);
    } else {
      EmptyFilters(flags, data, n);
      if Ignored(flags, data[scan.pos]) {
        SkipIgnored(flags, data, scan.pos, n);
        ScanSkips(flags, data, scan);
        ScansPads(flags, data, n, scan.(pos := scan.pos + 1), k);
      } else {
        assert Pads(k) == [PAD] + Pads(k - 1);
        TakeFirst(flags, data, scan.pos, n, PAD, Pads(k - 1));
        var next := Scan(scan.pos + 1, scan.values, scan.pads + 1, if scan.pads == 0 then scan.pos else scan.padStart);
        ScanPad(flags.parse, data, scan, next);
        ScansPads(flags, data, n, next, k - 1);
      }
    }
  }

  // ---- texts -------------------------------------------------------------------------------------

  lemma GroupSplits(g: nat, n: nat)
    requires g < 0x100_0000 && 2 <= n <= 4
    ensures GroupChars(g, n) == CharsOf(Digits(g)[..n]) + Pads(4 - n)
  {
  }

  lemma {:induction false} WithoutPadsAppend(a: bytes, b: bytes)
    ensures WithoutPads(a + b) == WithoutPads(a) + WithoutPads(b)
  {
    if a == [] {
      assert a + b == b && [] + WithoutPads(b) == WithoutPads(b);
    } else {
      assert (a + b)[1..] == a[1..] + b;
      WithoutPadsAppend(a[1..], b);
      Assoc3(if a[0] == 61 then [] else [a[0]], WithoutPads(a[1..]), WithoutPads(b));
    }
  }

  lemma {:induction false} ValuesAreNoPads(d: seq<sextet>)
    ensures WithoutPads(CharsOf(d)) == CharsOf(d)
  {
    if d != [] {
      ValuesAreNoPads(d[1..]);
      assert CharsOf(d)[1..] == CharsOf(d[1..]) && CharsOf(d) == [CharOf(d[0])] + CharsOf(d[1..]);
    }
  }

  lemma {:induction false} PadsVanish(k: nat)
    ensures WithoutPads(Pads(k)) == []
  {
    if k > 0 {
      PadsVanish(k - 1);
      assert Pads(k)[1..] == Pads(k - 1);
    }
  }

  /** The first group of a text, and the rest. */
  lemma TextStep(s: bytes, pads: bool, d: seq<sextet>, rest: bytes)
    requires s != [] && d == Digits(FirstGroup(s))[..AtMost3(s) + 1] && rest == s[AtMost3(s)..]
    ensures Text(s, pads) == CharsOf(d) + ((if pads then Pads(3 - AtMost3(s)) else []) + Text(rest, pads))
  {
    var k := AtMost3(s);
    EncodeStep(s);
    GroupSplits(FirstGroup(s), k + 1);
    Assoc3(CharsOf(d), Pads(3 - k), Encode(rest));
    if !pads {
      WithoutPadsAppend(CharsOf(d), Pads(3 - k) + Encode(rest));
      WithoutPadsAppend(Pads(3 - k), Encode(rest));
      ValuesAreNoPads(d);
      PadsVanish(3 - k);
    }
  }

  // ---- decoding ----------------------------------------------------------------------------------

  /** Whether data that can be read up to n, and there is the text of s, is accepted. With PAD_YES nothing may follow a
      last full group, not even ignored characters. */
  predicate Accepted(flags: Flags, data: bytes, n: nat, s: bytes, pads: bool)
    requires n <= |data|
  {
    && (flags.term == TERM_BUFFER ==> n == |data|)
    && (flags.pad == PAD_YES ==>
          if |s| % 3 == 0 then n == |data| && (n == 0 || !Ignored(flags, data[n - 1])) else pads)
  }

  lemma EmptyEnds(flags: Flags, q: Quantum)
    requires q.values == [] && !q.padded
    ensures EndsWell(flags, q) <==> flags.pad != PAD_YES
    ensures QuantumBytes(q.values) == []
  {
  }

  lemma EmptyQuantum(flags: Flags, data: bytes, pos: nat, n: nat)
    requires pos <= n <= |data| && StopsAt(flags, data, n) && Filtered(flags, data[pos..n]) == []
    ensures QuantumAt(flags.parse, flags.pad == PAD_NO, data, pos) == Quantum([], false, n)
    ensures pos < n ==> Ignored(flags, data[n - 1])
  {
    ScansRest(flags, data, n, Scan(pos, [], 0, 0));
  }

  /** Nothing is left to decode. */
  lemma ReadsNothing(flags: Flags, data: bytes, pos: nat, n: nat, pads: bool)
    requires pos <= n <= |data| && StopsAt(flags, data, n) && Filtered(flags, data[pos..n]) == []
    requires pos == 0 || !Ignored(flags, data[pos - 1])
    ensures Decode(flags, data, pos) == Decoded(Accepted(flags, data, n, [], pads), [], n)
  {
    if pos < |data| {
      var q := Quantum([], false, n);
      EmptyQuantum(flags, data, pos, n);
      EmptyEnds(flags, q);
      DecodeStep(flags, data, pos, q);
    }
  }

  lemma AcceptedRest(flags: Flags, data: bytes, n: nat, s: bytes, rest: bytes, pads: bool)
    requires n <= |data| && |s| == 3 + |rest|
    ensures Accepted(flags, data, n, s, pads) == Accepted(flags, data, n, rest, pads)
  {
    assert |s| % 3 == |rest| % 3;
  }

  /** The last quantum is short. */
  lemma ReadsShort(flags: Flags, data: bytes, pos: nat, n: nat, s: bytes, pads: bool, d: seq<sextet>)
    requires pos <= n <= |data| && StopsAt(flags, data, n) && (pads ==> flags.pad != PAD_NO) && 1 <= |s| < 3
    requires d == Digits(FirstGroup(s))[..AtMost3(s) + 1]
    requires Filtered(flags, data[pos..n]) == CharsOf(d) + (if pads then Pads(3 - |s|) else [])
    ensures Decode(flags, data, pos) == Decoded(Accepted(flags, data, n, s, pads), s, n)
  {
    var start, tail := Scan(pos, [], 0, 0), if pads then Pads(3 - |s|) else [];
    assert CharsOf(d) + tail != [];
    EmptyFilters(flags, data, n);
    var p := ScansValues(flags, data, n, start, d, tail, ScanFrom(flags.parse, flags.pad == PAD_NO, data, start));
    assert [] + d == d;
    var scan := Scan(p, d, 0, 0);
    if pads { ScansPads(flags, data, n, scan, 3 - |s|); } else { ScansRest(flags, data, n, scan); }
    var q := Quantum(d, pads, n);
    assert q == QuantumAt(flags.parse, flags.pad == PAD_NO, data, pos);
    GroupComesBack(s, Digits(FirstGroup(s)), d);
    DecodeStep(flags, data, pos, q);
    assert s[..|s|] == s;
  }

  /** One full quantum: p is behind its last character. */
  lemma ReadsFull(flags: Flags, data: bytes, pos: nat, n: nat, s: bytes, d: seq<sextet>, tail: bytes) returns (p: nat)
    requires pos <= n <= |data| && |s| >= 3 && d == Digits(FirstGroup(s))[..4]
    requires Filtered(flags, data[pos..n]) == CharsOf(d) + tail
    ensures pos + 4 <= p <= n && Filtered(flags, data[p..n]) == tail && !Ignored(flags, data[p - 1])
    ensures var rest := Decode(flags, data, p);
      Decode(flags, data, pos) == Decoded(rest.success, s[..3] + rest.result, rest.used)
  {
    assert CharsOf(d) + tail != [];
    EmptyFilters(flags, data, n);
    var start := Scan(pos, [], 0, 0);
    p := ScansValues(flags, data, n, start, d, tail, ScanFrom(flags.parse, flags.pad == PAD_NO, data, start));
    assert [] + d == d;
    var q := Quantum(d, true, p);
    assert q == QuantumAt(flags.parse, flags.pad == PAD_NO, data, pos);
    GroupComesBack(s, Digits(FirstGroup(s)), d);
    DecodeStep(flags, data, pos, q);
  }

  /** Data that is a text but for what the mode ignores is decoded up to n, and gives what was encoded. */
  lemma {:induction false} ReadsText(flags: Flags, data: bytes, pos: nat, n: nat, s: bytes, pads: bool)
    requires pos <= n <= |data| && StopsAt(flags, data, n) && (pads ==> flags.pad != PAD_NO)
    requires Filtered(flags, data[pos..n]) == Text(s, pads) && (pos == 0 || !Ignored(flags, data[pos - 1]))
    ensures Decode(flags, data, pos) == Decoded(Accepted(flags, data, n, s, pads), s, n)
    decreases |s|
  {
    if s == [] {
      ReadsNothing(flags, data, pos, n, pads);
    } else {
      var k := AtMost3(s);
      var d, rest := Digits(FirstGroup(s))[..k + 1], s[k..];
      TextStep(s, pads, d, rest);
      if |s| < 3 {
        TextEnds(rest, pads, 3 - k);
        ReadsShort(flags, data, pos, n, s, pads, d);
      } else {
        TextGoesOn(rest, pads);
        AcceptedRest(flags, data, n, s, rest, pads);
        FirstThree(s, rest);
        var p := ReadsFull(flags, data, pos, n, s, d, Text(rest, pads));
        ReadsText(flags, data, p, n, rest, pads);
      }
    }
  }

  lemma FirstThree(s: bytes, rest: bytes)
    requires |s| >= 3 && rest == s[3..]
    ensures s[..3] + rest == s
  {
  }

  lemma TextEnds(rest: bytes, pads: bool, k: nat)
    requires rest == []
    ensures (if pads then Pads(k) else []) + Text(rest, pads) == if pads then Pads(k) else []
  {
    assert Text(rest, pads) == [];
  }

  lemma TextGoesOn(rest: bytes, pads: bool)
    ensures (if pads then Pads(0) else []) + Text(rest, pads) == Text(rest, pads)
  {
    assert Pads(0) == [] && [] + Text(rest, pads) == Text(rest, pads);
  }

  // ---- the results -------------------------------------------------------------------------------

  /** Where pads are optional: an encoding is decoded completely, whatever ignored characters stand in it and around it,
      with all its pads or with none. */
  lemma AnyPadsDecode(flags: Flags, data: bytes, s: bytes, pads: bool)
    requires flags.pad == PAD_ANY && Filtered(flags, data) == Text(s, pads)
    ensures Decode(flags, data, 0) == Decoded(true, s, |data|)
  {
    assert data[0..|data|] == data;
    ReadsText(flags, data, 0, |data|, s, pads);
  }

  /** Where pads are forbidden. */
  lemma NoPadsDecode(flags: Flags, data: bytes, s: bytes)
    requires flags.pad == PAD_NO && Filtered(flags, data) == WithoutPads(Encode(s))
    ensures Decode(flags, data, 0) == Decoded(true, s, |data|)
  {
    assert data[0..|data|] == data;
    ReadsText(flags, data, 0, |data|, s, false);
  }

  /** Where pads are demanded: always the same bytes, but success exactly if no ignored character follows a last full
      group. */
  lemma AllPadsDecodeIff(flags: Flags, data: bytes, s: bytes, r: Decoded)
    requires flags.pad == PAD_YES && Filtered(flags, data) == Encode(s) && r == Decode(flags, data, 0)
    ensures r.result == s && r.used == |data|
    ensures r.success <==> |s| % 3 != 0 || data == [] || !Ignored(flags, data[|data| - 1])
  {
    assert data[0..|data|] == data;
    ReadsText(flags, data, 0, |data|, s, true);
  }

  /** The strict mode and the one for white space stop at the first illegal character; what was encoded in front of it is
      returned, with success exactly if neither the whole buffer is demanded nor pads that are missing. */
  lemma StopsAtIllegal(flags: Flags, data: bytes, n: nat, s: bytes, pads: bool, r: Decoded)
    requires n < |data| && Illegal(flags, data[n]) && (pads ==> flags.pad != PAD_NO)
    requires Filtered(flags, data[..n]) == Text(s, pads) && r == Decode(flags, data, 0)
    ensures r.result == s && r.used == n
    ensures r.success <==> flags.term != TERM_BUFFER && (flags.pad == PAD_YES ==> pads && |s| % 3 != 0)
  {
    assert data[0..n] == data[..n];
    ReadsText(flags, data, 0, n, s, pads);
  }
}
