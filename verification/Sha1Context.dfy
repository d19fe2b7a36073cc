/** SHA1_CTX of src/base/sha1.cpp: a message fed in pieces of any size, and HmacSha1 of
    src/base/helpmethods.cpp on top of it. */
module Sha1Contexts {
  import opened Sha1Spec
  import opened Sha1Transforms
  import ByteBuffers

  const TWO32: nat := 0x1_0000_0000

  // ---- what a prefix of the message leaves behind ------------------------------------------------

  /** One more complete block of s. */
  lemma BlocksNext(h: Vars, s: octets, n: nat)
    requires n % 64 == 0 && n + 64 <= |s|
    ensures Blocks(h, s[..n + 64]) == Compress(Blocks(h, s[..n]), Words(s[n..n + 64]))
  {
    var block := s[n..n + 64];
    assert s[..n + 64] == s[..n] + block;
    BlocksSplit(h, s[..n], block);
    assert block[..64] == block && block[64..] == [];
  }

  /** A name for the hash of complete blocks. It keeps Blocks folded where only its name matters. */
  ghost predicate IsHash(hash: octets -> Vars) {
    forall s {:trigger Blocks(H0, s)} :: hash(s) == Blocks(H0, s)
  }

  /** SHA1Transform on the next block of a message. */
  method TransformNext(state: array<word>, data: octets, ghost hash: octets -> Vars, ghost m: octets, ghost n: nat)
    requires state.Length == 5 && n % 64 == 0 && n + 64 <= |m| && data == m[n..n + 64]
    requires IsHash(hash) && StateOf(state) == hash(m[..n])
    modifies state
    ensures StateOf(state) == hash(m[..n + 64])
  {
    NextHash(hash, m, n);
    Transform(state, data);
  }

  lemma NextHash(hash: octets -> Vars, m: octets, n: nat)
    requires IsHash(hash) && n % 64 == 0 && n + 64 <= |m|
    ensures hash(m[..n + 64]) == Compress(hash(m[..n]), Words(m[n..n + 64]))
  {
    BlocksNext(H0, m, n);
    assert hash(m[..n]) == Blocks(H0, m[..n]) && hash(m[..n + 64]) == Blocks(H0, m[..n + 64]);
  }

  function Whole(m: octets): octets { m[..|m| - |m| % 64] }

  function Rest(m: octets): octets { m[|m| - |m| % 64..] }

  // ---- the two-word bit count --------------------------------------------------------------------

  /** The two words count a number of bits modulo 2^64. */
  predicate Counts(count0: nat, count1: nat, bits: nat) {
    count0 == bits % TWO32 && count1 == bits / TWO32 % TWO32
  }

  lemma DivModAdd(a: nat, b: nat)
    ensures (a + b) % TWO32 == (a % TWO32 + b % TWO32) % TWO32
    ensures (a + b) / TWO32 == a / TWO32 + b / TWO32 + (a % TWO32 + b % TWO32) / TWO32
  {
  }

  lemma ShiftedLength(len: nat)
    ensures 8 * len / TWO32 == len / 0x2000_0000
  {
  }

  /** The carry test finds the overflow of the low word. */
  lemma CarryIsOverflow(x: nat, low: nat)
    requires x < TWO32 && low < TWO32
    ensures (x + low) / TWO32 == if (x + low) % TWO32 < low then 1 else 0
  {
  }

  lemma CountsAdd(count0: nat, count1: nat, bits: nat, len: nat)
    requires Counts(count0, count1, bits)
    ensures var low := 8 * len % TWO32;
      var carry := if (count0 + low) % TWO32 < low then 1 else 0;
      Counts((count0 + low) % TWO32, ((count1 + carry) % TWO32 + len / 0x2000_0000 % TWO32) % TWO32, bits + 8 * len)
  {
    var low := 8 * len % TWO32;
    DivModAdd(bits, 8 * len);
    ShiftedLength(len);
    CarryIsOverflow(count0, low);
    var carry := if (count0 + low) % TWO32 < low then 1 else 0;
    var high := len / 0x2000_0000;
    DivModAdd(bits / TWO32, carry);
    DivModAdd(bits / TWO32 + carry, high);
    DivModAdd(count1, carry);
  }

  lemma CountIndex(len: nat)
    ensures 8 * len % TWO32 / 8 % 64 == len % 64
  {
  }

  lemma HighOctets(n: nat, k: nat)
    ensures Octet(n, k + 4) == Octet(n / TWO32, k)
  {
    var a := n / 256;
    var b := a / 256;
    var c := b / 256;
    assert n / TWO32 == c / 256;
    assert Octet(n, k + 4) == Octet(a, k + 3) && Octet(a, k + 3) == Octet(b, k + 2);
    assert Octet(b, k + 2) == Octet(c, k + 1) && Octet(c, k + 1) == Octet(c / 256, k);
  }

  lemma DropOctet(n: nat, p: nat)
    requires p > 0
    ensures n % (256 * p) / 256 == n / 256 % p && n % (256 * p) % 256 == n % 256
  {
    ByteBuffers.DivModStep(n, p);
  }

  lemma LowOctets(n: nat, k: nat)
    requires k < 4
    ensures Octet(n % TWO32, k) == Octet(n, k)
  {
    var a := n / 256;
    var b := a / 256;
    DropOctet(n, 0x100_0000);
    DropOctet(a, 0x1_0000);
    DropOctet(b, 0x100);
    if k == 0 {
    } else if k == 1 {
      OctetStep(n, 1);
      OctetStep(n % TWO32, 1);
    } else if k == 2 {
      OctetStep(n, 2);
      OctetStep(a, 1);
      OctetStep(n % TWO32, 2);
      OctetStep(a % 0x100_0000, 1);
    } else {
      OctetStep(n, 3);
      OctetStep(a, 2);
      OctetStep(b, 1);
      OctetStep(n % TWO32, 3);
      OctetStep(a % 0x100_0000, 2);
      OctetStep(b % 0x1_0000, 1);
    }
  }

  lemma OctetStep(n: nat, k: nat)
    requires k > 0
    ensures Octet(n, k) == Octet(n / 256, k - 1)
  {
  }

  /** The eight octets of the count, high word first. */
  lemma CountOctets(count0: nat, count1: nat, bits: nat, i: nat)
    requires Counts(count0, count1, bits) && i < 8
    ensures Octet(if i >= 4 then count0 else count1, 3 - i % 4) == Octet(bits, 7 - i)
  {
    if i >= 4 {
      LowOctets(bits, 7 - i);
    } else {
      HighOctets(bits, 3 - i);
      LowOctets(bits / TWO32, 3 - i);
    }
  }

  // ---- the digest --------------------------------------------------------------------------------

  lemma DigestIndex(v: Vars, i: nat)
    requires i < 20
    ensures Digest(v)[i] == DigestOctet(v, i)
  {
  }

  lemma StateWord(state: array<word>, j: nat)
    requires state.Length == 5 && j < 5
    ensures state[j] == WordAt(StateOf(state), j)
  {
  }

  lemma TakeMore<T>(s: seq<T>, i: nat)
    requires i < |s|
    ensures s[..i + 1] == s[..i] + [s[i]] && s[..|s|] == s
  {
  }

  // ---- padding -----------------------------------------------------------------------------------

  /** The loop of SHA1Final stops after exactly PadZeros zero octets. */
  lemma PadStops(len: nat, k: nat, n: nat)
    requires k <= PadZeros(len) && n == len + 1 + k
    ensures n % 64 * 8 == 448 <==> k == PadZeros(len)
  {
  }

  lemma ZerosMore(m: octets, k: nat)
    ensures m + Zeros(k) + [0] == m + Zeros(k + 1)
  {
  }

  /** The bytes that waited, followed by the first new ones. */
  lemma FirstBlock(buffer: octets, m: octets, data: octets, index: nat)
    requires |buffer| == 64 && index == |m| % 64 && 64 - index <= |data|
    requires buffer[..index] == Rest(m) && buffer[index..64] == data[..64 - index]
    ensures buffer == (m + data)[|m| - index..|m| - index + 64]
  {
    assert buffer == buffer[..index] + buffer[index..64];
  }

  lemma Inside(m: octets, data: octets, len: nat, i: nat, n: nat)
    requires len <= |m| && m[len..] == data && i + 64 <= |data| && n == len + i
    ensures n + 64 <= |m| && data[i..i + 64] == m[n..n + 64]
  {
  }

  /** What is in the buffer when no complete block is left. */
  lemma LastBytes(buffer: octets, m: octets, data: octets, all: octets, i: nat, at: nat, n: nat)
    requires |buffer| == 64 && i <= |data| && at + |data| - i < 64 && all == m + data && n == |m| + i - at
    requires if i == 0 then at == |m| % 64 && buffer[..at] == Rest(m) else at == 0 && n % 64 == 0
    requires buffer[at..at + |data| - i] == data[i..]
    ensures |all| % 64 == |all| - n && buffer[..|all| % 64] == Rest(all) && Whole(all) == all[..n]
  {
    var k := |all| - n;
    assert buffer[..k] == buffer[..at] + buffer[at..k];
    assert all[n..] == buffer[..k];
  }

  class Context {
    const state: array<word>
    const buffer: array<bv8>
    var count0: nat
    var count1: nat
    ghost var message: octets
    ghost const hash: octets -> Vars

    /** The context holds the hash of the complete blocks, the rest of the message, and its length. */
    ghost predicate Valid()
      reads this, state, buffer
    {
      && Shape() && Counts(count0, count1, 8 * |message|)
      && StateOf(state) == hash(Whole(message)) && buffer[..|message| % 64] == Rest(message)
    }

    ghost predicate Shape()
    {
      state.Length == 5 && buffer.Length == 64 && IsHash(hash)
    }

    constructor ()
      ensures Shape() && fresh(state) && fresh(buffer)
    {
      state := new word[5];
      buffer := new bv8[64];
      hash := s => Blocks(H0, s);
    }

    /** SHA1Init. */
    method Init()
      requires Shape()
      modifies this, state
      ensures Valid() && message == []
    {
      state[0] := 0x67452301;
      state[1] := 0xEFCDAB89;
      state[2] := 0x98BADCFE;
      state[3] := 0x10325476;
      state[4] := 0xC3D2E1F0;
      count0, count1 := 0, 0;
      message := [];
      assert hash([]) == Blocks(H0, []);
    }

    method Count(len: nat)
      requires Counts(count0, count1, 8 * |message|)
      modifies this`count0, this`count1
      ensures Counts(count0, count1, 8 * (|message| + len))
    {
      CountsAdd(count0, count1, 8 * |message|, len);
      count0 := (count0 + 8 * len % TWO32) % TWO32;
      if count0 < 8 * len % TWO32 {
        count1 := (count1 + 1) % TWO32;
      }
      count1 := (count1 + len / 0x2000_0000 % TWO32) % TWO32;
    }

    /** SHA1Update. */
    method Update(data: octets)
      requires Valid()
      modifies this, state, buffer
      ensures Valid() && message == old(message) + data
    {
      var index := Index();
      Count(|data|);
      Absorb(data, index);
      message := message + data;
    }

    /** The part of SHA1Update behind the count. */
    method Absorb(data: octets, index: nat)
      requires Shape() && index == |message| % 64
      requires StateOf(state) == hash(Whole(message)) && buffer[..index] == Rest(message)
      modifies state, buffer
      ensures StateOf(state) == hash(Whole(message + data))
      ensures buffer[..|message + data| % 64] == Rest(message + data)
    {
      var i, at := 0, index;
      ghost var m, len := message + data, |message|;
      assert m[..len - index] == Whole(message);
      if index + |data| > 63 {
        i := 64 - index;
        CompleteBuffer(data, index, m);
        i := AbsorbBlocks(data, i, m, len);
        at := 0;
      }
      CopyInto(data[i..], at);
      LastBytes(buffer[..], message, data, m, i, at, len + i - at);
    }

    /** The first new bytes complete the block that waited. */
    method CompleteBuffer(data: octets, index: nat, ghost m: octets)
      requires Shape() && index == |message| % 64 && index + |data| > 63 && m == message + data
      requires StateOf(state) == hash(m[..|message| - index]) && buffer[..index] == Rest(message)
      modifies state, buffer
      ensures StateOf(state) == hash(m[..|message| - index + 64])
    {
      CopyInto(data[..64 - index], index);
      FirstBlock(buffer[..], message, data, index);
      TransformNext(state, buffer[..], hash, m, |message| - index);
    }

    /** The loop over the complete blocks of the new data. */
    method AbsorbBlocks(data: octets, start: nat, ghost m: octets, ghost len: nat) returns (i: nat)
      requires Shape() && start <= |data| && (len + start) % 64 == 0
      requires len <= |m| && m[len..] == data && StateOf(state) == hash(m[..len + start])
      modifies state
      ensures start <= i <= |data| < i + 64 && (len + i) % 64 == 0 && StateOf(state) == hash(m[..len + i])
    {
      i := start;
      ghost var n := len + i;
      while i + 63 < |data|
        invariant start <= i <= |data| && n == len + i && n % 64 == 0
        invariant StateOf(state) == hash(m[..n])
      {
        Inside(m, data, len, i, n);
        TransformNext(state, data[i..i + 64], hash, m, n);
        i := i + 64;
        n := n + 64;
      }
    }

    /** memcpy into the buffer. */
    method CopyInto(data: octets, index: nat)
      requires Shape() && index + |data| <= 64
      modifies buffer
      ensures buffer[..index] == old(buffer[..index]) && buffer[index..index + |data|] == data
    {
      forall k | 0 <= k < |data| {
        buffer[index + k] := data[k];
      }
    }

    /** SHA1Final. */
    method Final() returns (digest: octets)
      requires Valid()
      modifies this, state, buffer
      ensures Shape() && digest == Sha1(old(message))
    {
      ghost var m := message;
      var finalcount := FinalCount();
      PadWithZeros();
      Update(finalcount);
      PadIsWhole(hash, m);
      digest := StateOctets();
      Wipe();
    }

    /** 0x80 and as many zero octets as leave room for the count. */
    method PadWithZeros()
      requires Valid()
      modifies this, state, buffer
      ensures Valid() && message == old(message) + [0x80] + Zeros(PadZeros(|old(message)|))
    {
      ghost var m, k := message, 0;
      Update([0x80]);
      var index := Index();
      while index * 8 != 448
        invariant Valid() && message == m + [0x80] + Zeros(k)
        invariant k <= PadZeros(|m|) && index == |message| % 64
        decreases PadZeros(|m|) - k
      {
        PadStops(|m|, k, |message|);
        Update([0]);
        ZerosMore(m + [0x80], k);
        k := k + 1;
        index := Index();
      }
      PadStops(|m|, k, |message|);
    }

    /** Bits 3 to 8 of the count. */
    method Index() returns (index: nat)
      requires Valid()
      ensures index == |message| % 64
    {
      index := count0 / 8 % 64;
      CountIndex(|message|);
    }

    method FinalCount() returns (finalcount: octets)
      requires Counts(count0, count1, 8 * |message|)
      ensures finalcount == LengthOctets(8 * |message|)
    {
      finalcount := [];
      ghost var r := LengthOctets(8 * |message|);
      for i := 0 to 8
        invariant finalcount == r[..i]
      {
        TakeMore(r, i);
        var octet := CountOctet(i);
        finalcount := finalcount + [octet];
      }
      TakeMore(r, 7);
    }

    method CountOctet(i: nat) returns (octet: bv8)
      requires Counts(count0, count1, 8 * |message|) && i < 8
      ensures octet == LengthOctets(8 * |message|)[i]
    {
      CountOctets(count0, count1, 8 * |message|, i);
      octet := Octet(if i >= 4 then count0 else count1, 3 - i % 4) as bv8;
    }

    method StateOctets() returns (digest: octets)
      requires Shape()
      ensures digest == Digest(StateOf(state))
    {
      digest := [];
      ghost var v := StateOf(state);
      ghost var d := Digest(v);
      for i := 0 to 20
        invariant digest == d[..i]
      {
        DigestIndex(v, i);
        TakeMore(d, i);
        var octet := StateOctet(i);
        digest := digest + [octet];
      }
    }

    method StateOctet(i: nat) returns (octet: bv8)
      requires Shape() && i < 20
      ensures octet == DigestOctet(StateOf(state), i)
    {
      StateWord(state, i / 4);
      octet := WordOctet(state[i / 4], i % 4);
    }

    method Wipe()
      requires Shape()
      modifies this, state, buffer
      ensures count0 == count1 == 0 && forall k :: 0 <= k < 64 ==> buffer[k] == 0
    {
      forall j | 0 <= j < 64 { buffer[j] := 0; }
      forall j | 0 <= j < 5 { state[j] := 0; }
      count0, count1 := 0, 0;
      Transform(state, buffer[..]);
    }
  }

  lemma PadIsWhole(hash: octets -> Vars, m: octets)
    requires IsHash(hash)
    ensures Pad(m) == m + [0x80] + Zeros(PadZeros(|m|)) + LengthOctets(8 * |m|)
    ensures Whole(Pad(m)) == Pad(m) && hash(Pad(m)) == Blocks(H0, Pad(m))
  {
  }
}
