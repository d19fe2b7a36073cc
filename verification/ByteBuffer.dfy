/** vzsdk::ByteBuffer (src/base/bytebuffer.cpp): a growing, compacting byte queue with fixed-width
    integers in network or host order. */
module ByteBuffers {
  import opened Bytes

  // ---- integers in memory --------------------------------------------------------------------

  function Pow256(n: nat): (p: nat)
    ensures p > 0
  {
    if n == 0 then 1 else 256 * Pow256(n - 1)
  }

  /** The low n bytes of v, most significant first. */
  function BigEndian(v: nat, n: nat): (r: bytes)
    ensures |r| == n
  {
    if n == 0 then [] else BigEndian(v / 256, n - 1) + [v % 256]
  }

  /** The low n bytes of v, least significant first. */
  function LittleEndian(v: nat, n: nat): (r: bytes)
    ensures |r| == n
  {
    if n == 0 then [] else [v % 256] + LittleEndian(v / 256, n - 1)
  }

  function FromBig(s: bytes): nat {
    if s == [] then 0 else FromBig(s[..|s| - 1]) * 256 + s[|s| - 1]
  }

  function FromLittle(s: bytes): nat {
    if s == [] then 0 else s[0] + 256 * FromLittle(s[1..])
  }

  /** How a machine keeps an integer in memory. */
  function Memory(bigEndian: bool, v: nat, n: nat): (r: bytes)
    ensures |r| == n
  {
    if bigEndian then BigEndian(v, n) else LittleEndian(v, n)
  }

  function FromMemory(bigEndian: bool, s: bytes): nat {
    if bigEndian then FromBig(s) else FromLittle(s)
  }

  lemma DivModStep(v: nat, p: nat)
    requires p > 0
    ensures v / 256 % p * 256 + v % 256 == v % (256 * p)
  {
    var q, r := v / 256 / p, v / 256 % p;
    assert v / 256 == p * q + r;
    assert v == 256 * p * q + (256 * r + v % 256);
    ModUnique(v, 256 * p, q, 256 * r + v % 256);
  }

  lemma MulAtLeast(x: int, m: nat)
    ensures (x >= 1 ==> x * m >= m) && (x <= -1 ==> x * m + m <= 0)
  {
  }

  lemma ModUnique(v: nat, m: nat, q: nat, r: nat)
    requires v == m * q + r && r < m
    ensures v % m == r
  {
    var x := q - v / m;
    MulAtLeast(x, m);
    assert x * m == v % m - r;
  }

  lemma DivTwice(v: nat, p: nat)
    requires p > 0
    ensures v / 256 / p == v / (256 * p)
  {
    var q, r := v / 256 / p, v / 256 % p;
    assert v / 256 == p * q + r;
    assert v == 256 * p * q + (256 * r + v % 256);
    DivUnique(v, 256 * p, q, 256 * r + v % 256);
  }

  lemma DivUnique(v: nat, m: nat, q: nat, r: nat)
    requires v == m * q + r && r < m
    ensures v / m == q
  {
    var x := q - v / m;
    MulAtLeast(x, m);
    assert x * m == v % m - r;
  }

  /** The byte worth 256^i: the i-th from the end in network order, the i-th from the start in the other. */
  lemma {:induction false} ByteAt(v: nat, n: nat, i: nat)
    requires i < n
    ensures BigEndian(v, n)[n - 1 - i] == v / Pow256(i) % 256
    ensures LittleEndian(v, n)[i] == v / Pow256(i) % 256
  {
    if i > 0 {
      ByteAt(v / 256, n - 1, i - 1);
      DivTwice(v, Pow256(i - 1));
    }
  }

  /** Reading what was written gives the value modulo its width, for every width and both orders. */
  lemma {:induction false} MemoryRoundTrip(bigEndian: bool, v: nat, n: nat)
    ensures FromMemory(bigEndian, Memory(bigEndian, v, n)) == v % Pow256(n)
  {
    if n > 0 {
      MemoryRoundTrip(bigEndian, v / 256, n - 1);
      DivModStep(v, Pow256(n - 1));
      var s := Memory(bigEndian, v, n);
      if bigEndian {
        assert s[..n - 1] == BigEndian(v / 256, n - 1);
      } else {
        assert s[1..] == LittleEndian(v / 256, n - 1);
      }
    }
  }

  /** Four bytes in memory contain the three low ones: behind the first byte or before the last. */
  lemma {:induction false} LowBytes(v: nat, n: nat)
    ensures BigEndian(v, n + 1)[1..] == BigEndian(v, n)
    ensures LittleEndian(v, n + 1)[..n] == LittleEndian(v, n)
  {
    if n > 0 {
      LowBytes(v / 256, n - 1);
      assert BigEndian(v, n + 1)[1..] == BigEndian(v / 256, n)[1..] + [v % 256];
      assert LittleEndian(v, n + 1)[..n] == [v % 256] + LittleEndian(v / 256, n)[..n - 1];
    }
  }

  /** A missing most significant byte counts as zero. */
  lemma {:induction false} ZeroExtend(s: bytes)
    ensures FromBig([0] + s) == FromBig(s)
    ensures FromLittle(s + [0]) == FromLittle(s)
  {
    if s != [] {
      ZeroExtend(s[..|s| - 1]);
      ZeroExtend(s[1..]);
      assert ([0] + s)[..|s|] == [0] + s[..|s| - 1];
      assert (s + [0])[1..] == s[1..] + [0];
    } else {
      assert FromBig([0]) == FromBig([0][..0]) * 256 + 0;
      assert FromLittle([0][1..]) == 0;
    }
  }

  // ---- the buffer ----------------------------------------------------------------------------

  const DEFAULT_SIZE := 4096

  datatype ReadPosition = ReadPosition(start: nat, version: int)

  class ByteBuffer {
    var memory: array<byte>          // bytes_, whose length is size_
    var start: nat
    var end: nat
    var version: int
    const network: bool              // byte_order_ == ORDER_NETWORK
    const hostIsBigEndian: bool

    ghost predicate Valid()
      reads this
    {
      start <= end <= memory.Length
    }

    /** The bytes that can be read. */
    ghost function Contents(): bytes
      requires Valid()
      reads this, memory
    {
      memory[start..end]
    }

    /** Everything written since the last reallocation, read or not. */
    ghost function Written(): bytes
      requires Valid()
      reads this, memory
    {
      memory[..end]
    }

    /** How the integers of this buffer are stored. */
    predicate BigOrder() {
      network || hostIsBigEndian
    }

    constructor (network: bool, hostIsBigEndian: bool)
      ensures Valid() && Contents() == [] && fresh(memory)
      ensures this.network == network && this.hostIsBigEndian == hostIsBigEndian
    {
      this.network, this.hostIsBigEndian := network, hostIsBigEndian;
      memory := new byte[DEFAULT_SIZE];
      start, end, version := 0, 0, 0;
    }

    constructor FromBytes(data: bytes, network: bool, hostIsBigEndian: bool)
      ensures Valid() && Contents() == data && fresh(memory)
      ensures this.network == network && this.hostIsBigEndian == hostIsBigEndian
    {
      this.network, this.hostIsBigEndian := network, hostIsBigEndian;
      memory := new byte[|data|](i requires 0 <= i < |data| => data[i]);
      start, end, version := 0, |data|, 0;
    }

    function Length(): nat
      requires Valid()
      reads this
    {
      end - start
    }

    function Capacity(): nat
      requires Valid()
      reads this
    {
      memory.Length - start
    }

    method Resize(size: nat)
      requires Valid()
      modifies this, memory
      ensures Valid() && (memory == old(memory) || fresh(memory))
      ensures Contents() == if size < |old(Contents())| then old(Contents())[..size] else old(Contents())
      ensures version == old(version) + 1 && start == 0 && memory.Length >= size
    {
      ghost var contents := Contents();
      var len := if end - start > size then size else end - start;
      if size <= memory.Length {
        forall i | 0 <= i < len { memory[i] := memory[start + i]; }
      } else {
        var grown := if size < 3 * memory.Length / 2 then 3 * memory.Length / 2 else size;
        var bytes := new byte[grown];
        forall i | 0 <= i < len { bytes[i] := memory[start + i]; }
        memory := bytes;
      }
      start := 0;
      end := len;
      version := version + 1;
      assert Contents() == contents[..len];
    }

    /** ReserveWriteBuffer followed by the memcpy into it. */
    method WriteBytes(val: bytes)
      requires Valid()
      modifies this, memory
      ensures Valid() && (memory == old(memory) || fresh(memory))
      ensures Contents() == old(Contents()) + val
      ensures version == if old(end) + |val| <= old(memory.Length) then old(version) else old(version) + 1
      ensures version == old(version) ==>
        Written() == old(Written()) + val && start == old(start) && memory == old(memory)
    {
      if Length() + |val| > Capacity() {
        Resize(Length() + |val|);
      }
      ghost var before, contents := Written(), Contents();
      var at := end;
      end := end + |val|;
      forall i | 0 <= i < |val| { memory[at + i] := val[i]; }
      assert Written() == before + val;
      assert Contents() == contents + val;
    }

    method ReadBytes(len: nat) returns (ok: bool, val: bytes)
      requires Valid()
      modifies this
      ensures Valid() && memory == old(memory) && version == old(version) && Written() == old(Written())
      ensures ok <==> len <= |old(Contents())|
      ensures if ok then val == old(Contents())[..len] && Contents() == old(Contents())[len..]
              else val == [] && Contents() == old(Contents())
    {
      if len > Length() { return false, []; }
      val := memory[start..start + len];
      start := start + len;
      ok := true;
    }

    method Consume(size: nat) returns (ok: bool)
      requires Valid()
      modifies this
      ensures Valid() && memory == old(memory) && version == old(version) && Written() == old(Written())
      ensures ok <==> size <= |old(Contents())|
      ensures Contents() == if ok then old(Contents())[size..] else old(Contents())
    {
      if size > Length() { return false; }
      start := start + size;
      ok := true;
    }

    method Clear()
      requires Valid()
      modifies this, memory
      ensures Valid() && memory == old(memory) && Contents() == [] && version == old(version) + 1
    {
      forall i | 0 <= i < memory.Length { memory[i] := 0; }
      start := 0;
      end := 0;
      version := version + 1;
    }

    // ---- integers ----------------------------------------------------------------------------

    /** WriteUInt8, 16, 32 and 64: n is the width in bytes. */
    method WriteUInt(val: nat, n: nat)
      requires Valid() && n in {1, 2, 4, 8} && val < Pow256(n)
      modifies this, memory
      ensures Valid() && (memory == old(memory) || fresh(memory))
      ensures Contents() == old(Contents()) + Memory(BigOrder(), val, n)
      ensures version == if old(end) + n <= old(memory.Length) then old(version) else old(version) + 1
      ensures version == old(version) ==>
        Written() == old(Written()) + Memory(BigOrder(), val, n) && start == old(start) && memory == old(memory)
    {
      // HostToNetwork leaves the bytes of val in network order in memory
      var v := if network then BigEndian(val, n) else Memory(hostIsBigEndian, val, n);
      WriteBytes(v);
    }

    method ReadUInt(n: nat) returns (ok: bool, val: nat)
      requires Valid() && n in {1, 2, 4, 8}
      modifies this
      ensures Valid() && memory == old(memory) && version == old(version) && Written() == old(Written())
      ensures ok <==> n <= |old(Contents())|
      ensures if ok then val == FromMemory(BigOrder(), old(Contents())[..n]) && Contents() == old(Contents())[n..]
              else Contents() == old(Contents())
    {
      var v;
      ok, v := ReadBytes(n);
      val := 0;
      if ok { val := if network then FromBig(v) else FromMemory(hostIsBigEndian, v); }
    }

    /** Three of the four bytes of a uint32; the highest byte of val is dropped. */
    method WriteUInt24(val: nat)
      requires Valid() && val < Pow256(4)
      modifies this, memory
      ensures Valid() && (memory == old(memory) || fresh(memory))
      ensures Contents() == old(Contents()) + Memory(BigOrder(), val, 3)
      ensures version == if old(end) + 3 <= old(memory.Length) then old(version) else old(version) + 1
      ensures version == old(version) ==>
        Written() == old(Written()) + Memory(BigOrder(), val, 3) && start == old(start) && memory == old(memory)
    {
      var v := if network then BigEndian(val, 4) else Memory(hostIsBigEndian, val, 4);
      var first := if network || hostIsBigEndian then 1 else 0;
      LowBytes(val, 3);
      WriteBytes(v[first..first + 3]);
    }

    method ReadUInt24() returns (ok: bool, val: nat)
      requires Valid()
      modifies this
      ensures Valid() && memory == old(memory) && version == old(version) && Written() == old(Written())
      ensures ok <==> 3 <= |old(Contents())|
      ensures if ok then val == FromMemory(BigOrder(), old(Contents())[..3]) && Contents() == old(Contents())[3..]
              else Contents() == old(Contents())
    {
      var v;
      ok, v := ReadBytes(3);
      val := 0;
      if ok {
        // the fourth byte of the uint32 stays zero
        var word := if network || hostIsBigEndian then [0] + v else v + [0];
        ZeroExtend(v);
        val := if network then FromBig(word) else FromMemory(hostIsBigEndian, word);
      }
    }

    // ---- read positions ------------------------------------------------------------------------

    method GetReadPosition() returns (position: ReadPosition)
      requires Valid()
      ensures position == ReadPosition(start, version)
      ensures Written()[position.start..] == Contents()
    {
      position := ReadPosition(start, version);
    }

    /** A position is taken from this buffer, so a current one lies before the end. */
    method SetReadPosition(position: ReadPosition) returns (ok: bool)
      requires Valid() && (position.version == version ==> position.start <= end)
      modifies this
      ensures Valid() && memory == old(memory) && version == old(version) && Written() == old(Written())
      ensures ok <==> position.version == version
      ensures Contents() == if ok then Written()[position.start..] else old(Contents())
    {
      if position.version != version { return false; }
      start := position.start;
      ok := true;
    }
  }

  // ---- using a read position -----------------------------------------------------------------

  /** The calls a client makes between GetReadPosition and SetReadPosition. */
  datatype Call =
    | WriteBytes(data: bytes) | WriteUInt(val: nat, n: nat) | WriteUInt24(val: nat)
    | ReadBytes(len: nat) | ReadUInt(n: nat) | ReadUInt24 | Consume(size: nat)
    | Resize(size: nat) | Clear

  predicate Legal(call: Call) {
    match call
    case WriteUInt(val, n) => n in {1, 2, 4, 8} && val < Pow256(n)
    case WriteUInt24(val) => val < Pow256(4)
    case ReadUInt(n) => n in {1, 2, 4, 8}
    case _ => true
  }

  predicate AllLegal(calls: seq<Call>) {
    forall i :: 0 <= i < |calls| ==> Legal(calls[i])
  }

  /** The bytes one call writes. */
  function Payload(big: bool, call: Call): bytes {
    match call
    case WriteBytes(data) => data
    case WriteUInt(val, n) => Memory(big, val, n)
    case WriteUInt24(val) => Memory(big, val, 3)
    case _ => []
  }

  function Payloads(big: bool, calls: seq<Call>): bytes {
    if calls == [] then [] else Payload(big, calls[0]) + Payloads(big, calls[1..])
  }

  predicate Rebuilds(call: Call) { call.Resize? || call.Clear? }

  /** Whether none of the calls replaces or clears the memory, when `free` bytes are left behind
      the end. */
  predicate Undisturbed(big: bool, calls: seq<Call>, free: nat) {
    calls == [] ||
    (!Rebuilds(calls[0]) && |Payload(big, calls[0])| <= free &&
     Undisturbed(big, calls[1..], free - |Payload(big, calls[0])|))
  }

  /** What Undisturbed says of the whole script: no Resize, no Clear, and room for every byte. */
  lemma {:induction false} UndisturbedIff(big: bool, calls: seq<Call>, free: nat)
    ensures Undisturbed(big, calls, free) <==>
      |Payloads(big, calls)| <= free && forall i :: 0 <= i < |calls| ==> !Rebuilds(calls[i])
  {
    if calls != [] {
      var rest := calls[1..];
      assert forall i :: 0 <= i < |rest| ==> rest[i] == calls[i + 1];
      assert forall i :: 1 <= i < |calls| ==> calls[i] == rest[i - 1];
      if |Payload(big, calls[0])| <= free {
        UndisturbedIff(big, rest, free - |Payload(big, calls[0])|);
      }
    }
  }

  lemma MemoryLength(big: bool, val: nat, n: nat)
    ensures |Memory(big, val, n)| == n
  {
  }

  /** One call: while the version stays, the memory only grows at its end. */
  method Perform(buffer: ByteBuffer, call: Call)
    requires buffer.Valid() && Legal(call)
    modifies buffer, buffer.memory
    ensures buffer.Valid() && (buffer.memory == old(buffer.memory) || fresh(buffer.memory))
    ensures old(buffer.version) <= buffer.version
    ensures buffer.version == old(buffer.version) <==>
      !Rebuilds(call) && old(buffer.end) + |Payload(buffer.BigOrder(), call)| <= old(buffer.memory.Length)
    ensures buffer.version == old(buffer.version) ==>
      && buffer.memory == old(buffer.memory)
      && buffer.Written() == old(buffer.Written()) + Payload(buffer.BigOrder(), call)
  {
    assert buffer.Written() + [] == buffer.Written();
    match call
    case WriteBytes(data) => buffer.WriteBytes(data);
    case WriteUInt(val, n) => MemoryLength(buffer.BigOrder(), val, n); buffer.WriteUInt(val, n);
    case WriteUInt24(val) => MemoryLength(buffer.BigOrder(), val, 3); buffer.WriteUInt24(val);
    case ReadBytes(len) => var _, _ := buffer.ReadBytes(len);
    case ReadUInt(n) => var _, _ := buffer.ReadUInt(n);
    case ReadUInt24 => var _, _ := buffer.ReadUInt24();
    case Consume(size) => var _ := buffer.Consume(size);
    case Resize(size) => buffer.Resize(size);
    case Clear => buffer.Clear();
  }

  /** Any calls: the version stays exactly as long as the memory is neither replaced nor cleared. */
  method PerformAll(buffer: ByteBuffer, calls: seq<Call>)
    requires buffer.Valid() && AllLegal(calls)
    modifies buffer, buffer.memory
    ensures buffer.Valid() && (buffer.memory == old(buffer.memory) || fresh(buffer.memory))
    ensures old(buffer.version) <= buffer.version
    ensures buffer.version == old(buffer.version) <==>
      Undisturbed(buffer.BigOrder(), calls, old(buffer.memory.Length) - old(buffer.end))
    ensures buffer.version == old(buffer.version) ==>
      && buffer.memory == old(buffer.memory)
      && buffer.Written() == old(buffer.Written()) + Payloads(buffer.BigOrder(), calls)
    decreases |calls|
  {
    assert buffer.Written() + [] == buffer.Written();
    if calls != [] {
      ghost var big, written := buffer.BigOrder(), buffer.Written();
      Assoc3(written, Payload(big, calls[0]), Payloads(big, calls[1..]));
      Perform(buffer, calls[0]);
      PerformAll(buffer, calls[1..]);
    }
  }

  /** A position taken now and set again after any calls: it is refused exactly when the memory has
      been replaced or cleared, and otherwise brings back what was readable at first, followed by
      everything written since, whatever has been read in between. */
  method Rewind(buffer: ByteBuffer, calls: seq<Call>) returns (ok: bool)
    requires buffer.Valid() && AllLegal(calls)
    modifies buffer, buffer.memory
    ensures buffer.Valid()
    ensures ok <==> Undisturbed(buffer.BigOrder(), calls, old(buffer.memory.Length) - old(buffer.end))
    ensures ok ==> buffer.Contents() == old(buffer.Contents()) + Payloads(buffer.BigOrder(), calls)
  {
    var position := buffer.GetReadPosition();
    ghost var written, payloads := buffer.Written(), Payloads(buffer.BigOrder(), calls);
    PerformAll(buffer, calls);
    ok := buffer.SetReadPosition(position);
    if ok { DropAppend(written, payloads, position.start); }
  }
}
