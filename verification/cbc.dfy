/** Cipher block chaining over whole 16-byte blocks: the block loops of
 *  SeedCryptor::encrypt and SeedCryptor::decryptToBytes, stated for any
 *  block transform (SEED's is plugged in by the Cryptor module). */
module Cbc {
  import opened Bytes
  import opened Blocks

  /** dec undoes enc on every block. */
  ghost predicate Inverts(dec: Block -> Block, enc: Block -> Block) {
    forall b :: dec(enc(b)) == b
  }

  /** Every block is xor-ed with the previous ciphertext block (prev for the
   *  first one) and then encrypted; the ciphertext blocks are concatenated. */
  function CbcEncrypt(enc: Block -> Block, prev: Block, data: seq<byte>): (c: seq<byte>)
    requires |data| % BLOCK_SIZE == 0
    ensures |c| == |data|
    decreases |data|
  {
    if |data| == 0 then []
    else
      var block := enc(Xor(data[..BLOCK_SIZE], prev));
      block + CbcEncrypt(enc, block, data[BLOCK_SIZE..])
  }

  /** Every ciphertext block is decrypted and xor-ed with the ciphertext block
   *  before it (prev for the first one). */
  function CbcDecrypt(dec: Block -> Block, prev: Block, data: seq<byte>): (p: seq<byte>)
    requires |data| % BLOCK_SIZE == 0
    ensures |p| == |data|
    decreases |data|
  {
    if |data| == 0 then []
    else
      var block: Block := data[..BLOCK_SIZE];
      Xor(dec(block), prev) + CbcDecrypt(dec, block, data[BLOCK_SIZE..])
  }

  /** Decryption from the same starting block undoes encryption. */
  lemma {:induction false} CbcDecryptEncrypt(enc: Block -> Block, dec: Block -> Block, prev: Block, data: seq<byte>)
    requires Inverts(dec, enc)
    requires |data| % BLOCK_SIZE == 0
    ensures CbcDecrypt(dec, prev, CbcEncrypt(enc, prev, data)) == data
    decreases |data|
  {
    if |data| > 0 {
      var x := Xor(data[..BLOCK_SIZE], prev);
      var block := enc(x);
      var rest := CbcEncrypt(enc, block, data[BLOCK_SIZE..]);
      var c: seq<byte> := block + rest;
      assert c[..BLOCK_SIZE] == block && c[BLOCK_SIZE..] == rest;
      assert dec(block) == x;
      XorXor(data[..BLOCK_SIZE], prev);
      CbcDecryptEncrypt(enc, dec, block, data[BLOCK_SIZE..]);
      assert data == data[..BLOCK_SIZE] + data[BLOCK_SIZE..];
    }
  }

  /** Encryption undoes decryption when the block transforms invert each
   *  other that way round: every aligned byte string is the ciphertext of
   *  exactly one plaintext. */
  lemma {:induction false} CbcEncryptDecrypt(enc: Block -> Block, dec: Block -> Block, prev: Block, data: seq<byte>)
    requires Inverts(enc, dec)
    requires |data| % BLOCK_SIZE == 0
    ensures CbcEncrypt(enc, prev, CbcDecrypt(dec, prev, data)) == data
    decreases |data|
  {
    if |data| > 0 {
      var block: Block := data[..BLOCK_SIZE];
      var d := dec(block);
      var p := Xor(d, prev) + CbcDecrypt(dec, block, data[BLOCK_SIZE..]);
      assert p[..BLOCK_SIZE] == Xor(d, prev);
      assert p[BLOCK_SIZE..] == CbcDecrypt(dec, block, data[BLOCK_SIZE..]);
      XorXor(d, prev);
      assert enc(d) == block;
      CbcEncryptDecrypt(enc, dec, block, data[BLOCK_SIZE..]);
      assert data == data[..BLOCK_SIZE] + data[BLOCK_SIZE..];
    }
  }

  /** Block k of s: bytes 16k to 16k + 15. */
  function BlockAt(s: seq<byte>, k: nat): Block
    requires (k + 1) * BLOCK_SIZE <= |s|
  {
    s[k * BLOCK_SIZE..(k + 1) * BLOCK_SIZE]
  }

  /** Block k of x + y, for a block x in front, is block k - 1 of y. */
  lemma BlockAtShift(x: Block, y: seq<byte>, k: nat)
    requires 1 <= k && (k + 1) * BLOCK_SIZE <= |x| + |y|
    ensures k * BLOCK_SIZE <= |y|
    ensures BlockAt(x + y, k) == BlockAt(y, k - 1)
  {
    var a := k * BLOCK_SIZE;
    assert (k - 1) * BLOCK_SIZE == a - BLOCK_SIZE;
    assert (x + y)[a..a + BLOCK_SIZE] == y[a - BLOCK_SIZE..a];
  }

  /** Block 0 of x + y is x. */
  lemma BlockAtFront(x: Block, y: seq<byte>)
    ensures BlockAt(x + y, 0) == x
  {
    assert (x + y)[..BLOCK_SIZE] == x;
  }

  /** Ciphertext block k is the encryption of plaintext block k xor-ed with
   *  ciphertext block k - 1, or with prev for the first block. */
  lemma {:induction false} CbcEncryptAt(enc: Block -> Block, prev: Block, data: seq<byte>, k: nat)
    requires |data| % BLOCK_SIZE == 0 && (k + 1) * BLOCK_SIZE <= |data|
    ensures BlockAt(CbcEncrypt(enc, prev, data), k) ==
      enc(Xor(BlockAt(data, k), if k == 0 then prev else BlockAt(CbcEncrypt(enc, prev, data), k - 1)))
    decreases k
  {
    var d0: Block := data[..BLOCK_SIZE];
    var rest := data[BLOCK_SIZE..];
    var b1 := enc(Xor(d0, prev));
    var crest := CbcEncrypt(enc, b1, rest);
    var c := CbcEncrypt(enc, prev, data);
    assert c == b1 + crest;
    assert data == d0 + rest;
    if k == 0 {
      assert BlockAt(c, 0) == b1 by { BlockAtFront(b1, crest); }
      assert BlockAt(data, 0) == d0 by { BlockAtFront(d0, rest); }
    } else {
      assert BlockAt(c, k) == BlockAt(crest, k - 1) by { BlockAtShift(b1, crest, k); }
      assert BlockAt(data, k) == BlockAt(rest, k - 1) by { BlockAtShift(d0, rest, k); }
      CbcEncryptAt(enc, b1, rest, k - 1);
      if k == 1 {
        assert BlockAt(c, 0) == b1 by { BlockAtFront(b1, crest); }
      } else {
        assert BlockAt(c, k - 1) == BlockAt(crest, k - 2) by { BlockAtShift(b1, crest, k - 1); }
      }
    }
  }

  /** Plaintext block k is the decryption of ciphertext block k xor-ed with
   *  ciphertext block k - 1, or with prev for the first block. */
  lemma {:induction false} CbcDecryptAt(dec: Block -> Block, prev: Block, data: seq<byte>, k: nat)
    requires |data| % BLOCK_SIZE == 0 && (k + 1) * BLOCK_SIZE <= |data|
    ensures BlockAt(CbcDecrypt(dec, prev, data), k) ==
      Xor(dec(BlockAt(data, k)), if k == 0 then prev else BlockAt(data, k - 1))
    decreases k
  {
    var d0: Block := data[..BLOCK_SIZE];
    var rest := data[BLOCK_SIZE..];
    var p0 := Xor(dec(d0), prev);
    var prest := CbcDecrypt(dec, d0, rest);
    var p := CbcDecrypt(dec, prev, data);
    assert p == p0 + prest;
    assert data == d0 + rest;
    if k == 0 {
      assert BlockAt(p, 0) == p0 by { BlockAtFront(p0, prest); }
      assert BlockAt(data, 0) == d0 by { BlockAtFront(d0, rest); }
    } else {
      assert BlockAt(p, k) == BlockAt(prest, k - 1) by { BlockAtShift(p0, prest, k); }
      assert BlockAt(data, k) == BlockAt(rest, k - 1) by { BlockAtShift(d0, rest, k); }
      CbcDecryptAt(dec, d0, rest, k - 1);
      if k == 1 {
        assert BlockAt(data, 0) == d0 by { BlockAtFront(d0, rest); }
      } else {
        assert BlockAt(data, k - 1) == BlockAt(rest, k - 2) by { BlockAtShift(d0, rest, k - 1); }
      }
    }
  }

  /** The encryption loop of SeedCryptor::encrypt: copy each block, xor it
   *  with the previous ciphertext block, encrypt it, append it. The loop
   *  walks the unprocessed suffix rather than an index. */
  method EncryptBlocks(enc: Block -> Block, iv: Block, data: seq<byte>) returns (out: seq<byte>)
    requires |data| % BLOCK_SIZE == 0
    ensures out == CbcEncrypt(enc, iv, data)
  {
    out := [];
    var previous := iv;
    var rest := data;
    while |rest| > 0
      invariant |rest| % BLOCK_SIZE == 0
      invariant CbcEncrypt(enc, iv, data) == out + CbcEncrypt(enc, previous, rest)
      decreases |rest|
    {
      var block: Block := rest[..BLOCK_SIZE];
      block := enc(Xor(block, previous));
      var later := CbcEncrypt(enc, block, rest[BLOCK_SIZE..]);
      assert out + (block + later) == (out + block) + later;
      out := out + block;
      previous := block;
      rest := rest[BLOCK_SIZE..];
    }
    assert out + [] == out;
  }

  /** The decryption loop of SeedCryptor::decryptToBytes: copy each block,
   *  keep it as the next chaining block, decrypt it, xor it with the
   *  previous ciphertext block, append it. */
  method DecryptBlocks(dec: Block -> Block, iv: Block, data: seq<byte>) returns (out: seq<byte>)
    requires |data| % BLOCK_SIZE == 0
    ensures out == CbcDecrypt(dec, iv, data)
  {
    out := [];
    var previous := iv;
    var rest := data;
    while |rest| > 0
      invariant |rest| % BLOCK_SIZE == 0
      invariant CbcDecrypt(dec, iv, data) == out + CbcDecrypt(dec, previous, rest)
      decreases |rest|
    {
      var block: Block := rest[..BLOCK_SIZE];
      var cipherBlock := block;
      block := Xor(dec(block), previous);
      var later := CbcDecrypt(dec, cipherBlock, rest[BLOCK_SIZE..]);
      assert out + (block + later) == (out + block) + later;
      out := out + block;
      previous := cipherBlock;
      rest := rest[BLOCK_SIZE..];
    }
    assert out + [] == out;
  }
}
