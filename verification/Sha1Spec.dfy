/** SHA-1 as in FIPS 180-4 and HMAC as in RFC 2104. */
module Sha1Spec {

  type word = bv32
  type octets = seq<bv8>

  /** Addition modulo 2^32. */
  function Plus(x: word, y: word): word { x + y }

  function Rotl1(x: word): word { (x << 1) | (x >> 31) }

  function Rotl5(x: word): word { (x << 5) | (x >> 27) }

  function Rotl30(x: word): word { (x << 30) | (x >> 2) }

  // ---- FIPS 180-4, sections 4.1.1 and 4.2.1 ------------------------------------------------------

  function Ch(x: word, y: word, z: word): word { (x & y) ^ (!x & z) }

  function Parity(x: word, y: word, z: word): word { x ^ y ^ z }

  function Maj(x: word, y: word, z: word): word { (x & y) ^ (x & z) ^ (y & z) }

  function F(t: nat, x: word, y: word, z: word): word {
    if t < 20 then Ch(x, y, z) else if t < 40 then Parity(x, y, z) else if t < 60 then Maj(x, y, z) else Parity(x, y, z)
  }

  function K(t: nat): word {
    if t < 20 then 0x5A827999 else if t < 40 then 0x6ED9EBA1 else if t < 60 then 0x8F1BBCDC else 0xCA62C1D6
  }

  // ---- section 5.1.1: padding --------------------------------------------------------------------

  /** A number as eight octets, most significant first. */
  function LengthOctets(n: nat): (r: octets)
    ensures |r| == 8
  {
    seq(8, i requires 0 <= i < 8 => Octet(n, 7 - i) as bv8)
  }

  /** Octet number i of n, counted from the least significant. */
  function Octet(n: nat, i: nat): (r: nat)
    ensures r < 256
  {
    if i == 0 then n % 256 else Octet(n / 256, i - 1)
  }

  function Zeros(n: nat): (r: octets)
    ensures |r| == n
  {
    seq(n, _ => 0)
  }

  /** The number of zero octets behind the octet 0x80. */
  function PadZeros(len: nat): (k: nat)
    ensures k < 64 && (len + 1 + k) % 64 == 56
  {
    (119 - len % 64) % 64
  }

  function Pad(m: octets): octets {
    m + [0x80] + Zeros(PadZeros(|m|)) + LengthOctets(8 * |m|)
  }

  // ---- sections 5.2.1 and 6.1.2: blocks ----------------------------------------------------------

  function BigEndianWord(a: bv8, b: bv8, c: bv8, d: bv8): word {
    (a as word << 24) | (b as word << 16) | (c as word << 8) | (d as word)
  }

  /** The sixteen words of a block. */
  function Words(s: octets): (r: seq<word>)
    requires |s| == 64
    ensures |r| == 16
  {
    seq(16, i requires 0 <= i < 16 => BigEndianWord(s[4 * i], s[4 * i + 1], s[4 * i + 2], s[4 * i + 3]))
  }

  /** The message schedule. */
  function W(block: seq<word>, t: nat): word
    requires |block| == 16
  {
    if t < 16 then block[t]
    else Rotl1(W(block, t - 3) ^ W(block, t - 8) ^ W(block, t - 14) ^ W(block, t - 16))
  }

  datatype Vars = Vars(a: word, b: word, c: word, d: word, e: word)

  /** The sum a round puts into the first variable. */
  function Total(r: word, f: word, e: word, k: word, w: word): word { r + f + e + k + w }

  function Shift(v: Vars, total: word): Vars {
    Vars(total, v.a, Rotl30(v.b), v.c, v.d)
  }

  function Round(v: Vars, t: nat, w: word): Vars {
    Shift(v, Total(Rotl5(v.a), F(t, v.b, v.c, v.d), v.e, K(t), w))
  }

  /** The working variables after t rounds. */
  function Rounds(h: Vars, block: seq<word>, t: nat): Vars
    requires |block| == 16
  {
    if t == 0 then h else Round(Rounds(h, block, t - 1), t - 1, W(block, t - 1))
  }

  function Sum(x: Vars, y: Vars): Vars {
    Vars(Plus(x.a, y.a), Plus(x.b, y.b), Plus(x.c, y.c), Plus(x.d, y.d), Plus(x.e, y.e))
  }

  function Compress(h: Vars, block: seq<word>): Vars
    requires |block| == 16
  {
    Sum(h, Rounds(h, block, 80))
  }

  const H0 := Vars(0x67452301, 0xEFCDAB89, 0x98BADCFE, 0x10325476, 0xC3D2E1F0)

  /** The hash value after the complete blocks of s. */
  function Blocks(h: Vars, s: octets): Vars
    decreases |s|
  {
    if |s| < 64 then h else Blocks(Compress(h, Words(s[..64])), s[64..])
  }

  /** Octet j of a word, most significant first. */
  function WordOctet(x: word, j: nat): bv8
    requires j < 4
  {
    ((if j == 0 then x >> 24 else if j == 1 then x >> 16 else if j == 2 then x >> 8 else x) & 255) as bv8
  }

  function WordAt(v: Vars, i: nat): word
    requires i < 5
  {
    if i == 0 then v.a else if i == 1 then v.b else if i == 2 then v.c else if i == 3 then v.d else v.e
  }

  function DigestOctet(h: Vars, i: nat): bv8
    requires i < 20
  {
    WordOctet(WordAt(h, i / 4), i % 4)
  }

  function Digest(h: Vars): (r: octets)
    ensures |r| == 20
  {
    seq(20, i requires 0 <= i < 20 => DigestOctet(h, i))
  }

  function Sha1(m: octets): (r: octets)
    ensures |r| == 20
  {
    Digest(Blocks(H0, Pad(m)))
  }

  // ---- RFC 2104, section 2 -----------------------------------------------------------------------

  /** A key longer than a block is hashed first; then it is filled up with zeros. */
  function BlockKey(key: octets): (r: octets)
    ensures |r| == 64
  {
    var k := if |key| > 64 then Sha1(key) else key;
    k + Zeros(64 - |k|)
  }

  function XorAll(s: octets, pad: bv8): (r: octets)
    ensures |r| == |s|
  {
    seq(|s|, i requires 0 <= i < |s| => s[i] ^ pad)
  }

  function Hmac(key: octets, data: octets): octets {
    var k := BlockKey(key);
    Sha1(XorAll(k, 0x5C) + Sha1(XorAll(k, 0x36) + data))
  }

  // ---- facts about blocks ------------------------------------------------------------------------

  /** Complete blocks can be hashed one part after the other. */
  lemma {:induction false} BlocksSplit(h: Vars, s: octets, t: octets)
    requires |s| % 64 == 0
    ensures Blocks(h, s + t) == Blocks(Blocks(h, s), t)
    decreases |s|
  {
    if |s| == 0 {
      assert s + t == t;
    } else {
      assert (s + t)[..64] == s[..64] && (s + t)[64..] == s[64..] + t;
      BlocksSplit(Compress(h, Words(s[..64])), s[64..], t);
    }
  }
}
