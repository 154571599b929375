/** 16-byte blocks as the four big-endian words L0, L1, R0, R1 of the
 *  Feistel state, and a block transform built from any Feistel network on
 *  32-bit words. */
module Blocks {
  import opened Bytes
  import opened Feistel

  /** Block length in bytes (SeedCryptor::BLOCK_SIZE). */
  const BLOCK_SIZE: nat := 16

  /** The `std::array<unsigned char, BLOCK_SIZE>` the cipher transforms. */
  type Block = s: seq<byte> | |s| == BLOCK_SIZE witness seq(16, _ => 0)

  /** The block read as L0, L1, R0, R1, each big-endian. */
  function StateOfBlock(b: Block): State<bv32> {
    State(WordOf(b[0], b[1], b[2], b[3]), WordOf(b[4], b[5], b[6], b[7]),
          WordOf(b[8], b[9], b[10], b[11]), WordOf(b[12], b[13], b[14], b[15]))
  }

  /** The four words written back big-endian, L0 first. */
  function BlockOfState(s: State<bv32>): (b: Block)
    ensures b[0..4] == WordBytes(s.l0) && b[4..8] == WordBytes(s.l1)
    ensures b[8..12] == WordBytes(s.r0) && b[12..16] == WordBytes(s.r1)
  {
    var b := WordBytes(s.l0) + WordBytes(s.l1) + WordBytes(s.r0) + WordBytes(s.r1);
    JoinFour(WordBytes(s.l0), WordBytes(s.l1), WordBytes(s.r0), WordBytes(s.r1));
    b
  }

  /** The quarters of four joined 4-element sequences. */
  lemma JoinFour<T>(a: seq<T>, b: seq<T>, c: seq<T>, d: seq<T>)
    requires |a| == 4 && |b| == 4 && |c| == 4 && |d| == 4
    ensures |a + b + c + d| == 16
    ensures (a + b + c + d)[0..4] == a && (a + b + c + d)[4..8] == b
    ensures (a + b + c + d)[8..12] == c && (a + b + c + d)[12..16] == d
  {
  }

  /** Four consecutive bytes packed and unpacked again. */
  lemma WordBytesAt(b: seq<byte>, o: nat)
    requires o + 4 <= |b|
    ensures WordBytes(WordOf(b[o], b[o + 1], b[o + 2], b[o + 3])) == b[o..o + 4]
  {
    WordBytesOfWordOf(b[o], b[o + 1], b[o + 2], b[o + 3]);
  }

  /** A 16-element sequence is the join of its quarters. */
  lemma SplitFour<T>(b: seq<T>, q0: seq<T>, q1: seq<T>, q2: seq<T>, q3: seq<T>)
    requires |b| == 16
    requires q0 == b[0..4] && q1 == b[4..8] && q2 == b[8..12] && q3 == b[12..16]
    ensures q0 + q1 + q2 + q3 == b
  {
    assert b == b[0..4] + b[4..8] + b[8..12] + b[12..16];
  }

  /** Writing back the words read from a block gives the block. */
  lemma BlockOfStateOfBlock(b: Block)
    ensures BlockOfState(StateOfBlock(b)) == b
  {
    var s := StateOfBlock(b);
    WordBytesAt(b, 0);
    WordBytesAt(b, 4);
    WordBytesAt(b, 8);
    WordBytesAt(b, 12);
    SplitFour(b, WordBytes(s.l0), WordBytes(s.l1), WordBytes(s.r0), WordBytes(s.r1));
  }

  /** The word packed from the bytes written for w is w. */
  lemma WordOfBytesAt(b: seq<byte>, o: nat, w: bv32)
    requires o + 4 <= |b| && b[o..o + 4] == WordBytes(w)
    ensures WordOf(b[o], b[o + 1], b[o + 2], b[o + 3]) == w
  {
    assert b[o] == WordBytes(w)[0] && b[o + 1] == WordBytes(w)[1];
    assert b[o + 2] == WordBytes(w)[2] && b[o + 3] == WordBytes(w)[3];
    WordOfWordBytes(w);
  }

  /** Reading the words from a written block gives the words. */
  lemma StateOfBlockOfState(s: State<bv32>)
    ensures StateOfBlock(BlockOfState(s)) == s
  {
    var b := BlockOfState(s);
    WordOfBytesAt(b, 0, s.l0);
    WordOfBytesAt(b, 4, s.l1);
    WordOfBytesAt(b, 8, s.r0);
    WordOfBytesAt(b, 12, s.r1);
  }

  /** A block transform of network n: read the words, run rounds 0..15,
   *  write back R0, R1, L0, L1. */
  function EncryptWith(n: Network<bv32>, rk: seq<bv32>, b: Block): Block
    requires |rk| == 2 * ROUNDS
  {
    BlockOfState(Swap(EncryptRounds(n, rk, StateOfBlock(b), ROUNDS)))
  }

  /** The inverse transform: read the words, run rounds 15..0, write back
   *  R0, R1, L0, L1. */
  function DecryptWith(n: Network<bv32>, rk: seq<bv32>, b: Block): Block
    requires |rk| == 2 * ROUNDS
  {
    BlockOfState(Swap(DecryptRounds(n, rk, StateOfBlock(b), ROUNDS)))
  }

  lemma DecryptWithEncryptWith(n: Network<bv32>, rk: seq<bv32>, b: Block)
    requires SelfInverse(n) && |rk| == 2 * ROUNDS
    ensures DecryptWith(n, rk, EncryptWith(n, rk, b)) == b
  {
    var s := StateOfBlock(b);
    var e := EncryptRounds(n, rk, s, ROUNDS);
    StateOfBlockOfState(Swap(e));
    DecryptUndoesEncrypt(n, rk, s, ROUNDS);
    assert Swap(Swap(s)) == s;
    BlockOfStateOfBlock(b);
  }

  lemma EncryptWithDecryptWith(n: Network<bv32>, rk: seq<bv32>, b: Block)
    requires SelfInverse(n) && |rk| == 2 * ROUNDS
    ensures EncryptWith(n, rk, DecryptWith(n, rk, b)) == b
  {
    var s := StateOfBlock(b);
    var d := DecryptRounds(n, rk, s, ROUNDS);
    StateOfBlockOfState(Swap(d));
    EncryptUndoesDecrypt(n, rk, s, ROUNDS);
    assert Swap(Swap(s)) == s;
    BlockOfStateOfBlock(b);
  }
}
