/** Whole runs of the SHA-1 context, and HmacSha1 of src/base/helpmethods.cpp. */
module Hmacs {
  import opened Sha1Spec
  import opened Sha1Contexts

  function Joined(chunks: seq<octets>): octets {
    if chunks == [] then [] else Joined(chunks[..|chunks| - 1]) + chunks[|chunks| - 1]
  }

  /** Init, one Update for each chunk, Final: the digest does not depend on how the message is cut. */
  method HashChunks(chunks: seq<octets>) returns (digest: octets)
    ensures digest == Sha1(Joined(chunks))
  {
    var context := new Context();
    context.Init();
    for i := 0 to |chunks|
      invariant context.Valid() && context.message == Joined(chunks[..i])
      invariant fresh(context) && fresh(context.state) && fresh(context.buffer)
    {
      assert chunks[..i + 1][..i] == chunks[..i];
      context.Update(chunks[i]);
    }
    assert chunks[..|chunks|] == chunks;
    digest := context.Final();
  }

  /** memxor. */
  method Memxor(dest: array<bv8>, src: octets)
    requires |src| <= dest.Length
    modifies dest
    ensures forall j :: 0 <= j < dest.Length ==> dest[j] == if j < |src| then old(dest[j]) ^ src[j] else old(dest[j])
  {
    for i := 0 to |src|
      invariant forall j :: 0 <= j < i ==> dest[j] == old(dest[j]) ^ src[j]
      invariant forall j :: i <= j < dest.Length ==> dest[j] == old(dest[j])
    {
      dest[i] := dest[i] ^ src[i];
    }
  }

  lemma XorZero(x: bv8)
    ensures x ^ 0 == x && 0 ^ x == x
  {
  }

  lemma XorSwap(x: bv8, y: bv8)
    ensures x ^ y == y ^ x
  {
  }

  /** A block of one octet, xored with the key: the rest of the key would be zeros. */
  method PaddedKey(key: octets, pad: bv8) returns (block: octets)
    requires |key| <= 64
    ensures block == XorAll(key + Zeros(64 - |key|), pad)
  {
    var bytes := new bv8[64](_ => pad);
    Memxor(bytes, key);
    block := bytes[..];
    forall j | 0 <= j < 64 ensures block[j] == (key + Zeros(64 - |key|))[j] ^ pad {
      XorZero(pad);
      if j < |key| {
        XorSwap(pad, key[j]);
      }
    }
  }

  method HmacSha1(key: octets, data: octets) returns (result: octets)
    ensures result == Hmac(key, data)
  {
    var shortKey := key;
    if |key| > 64 {
      shortKey := HashChunks([key]);
      OneChunk(key);
    }
    var block := PaddedKey(shortKey, 0x36);
    var innerhash := HashChunks([block, data]);
    TwoChunks(block, data);
    var outerBlock := PaddedKey(shortKey, 0x5C);
    result := HashChunks([outerBlock, innerhash]);
    TwoChunks(outerBlock, innerhash);
  }

  lemma OneChunk(a: octets)
    ensures Joined([a]) == a
  {
    assert [a][..0] == [];
    assert Joined([]) + a == a;
  }

  lemma TwoChunks(a: octets, b: octets)
    ensures Joined([a, b]) == a + b
  {
    OneChunk(a);
    assert [a, b][..1] == [a];
  }
}
