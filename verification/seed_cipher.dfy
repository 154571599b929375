/** The SEED block transform of SeedCryptor: the substitution function G, the
 *  round function F, the round-key schedule, and the 16-byte block encryption
 *  and decryption built on the Feistel network. */
module SeedCipher {
  import opened Bytes
  import opened SeedTables
  import opened Keys
  import opened Feistel
  import opened KeySchedule
  import opened Blocks
  import Cbc

  /** The engine's `std::array<unsigned int, 32>` of round-key words. */
  type RoundKeyArray = s: seq<bv32> | |s| == 2 * ROUNDS witness seq(32, _ => 0)

  // ---------------------------------------------------------------------------
  // G and F
  // ---------------------------------------------------------------------------

  /** G: each byte of x, most significant first, selects a word of SS0..SS3;
   *  the four words are combined by exclusive or. */
  function G(x: bv32): bv32 {
    LookupBytes(SS0, SS1, SS2, SS3, x)
  }

  /** G of the word packed from b0..b3 (big-endian) looks up b0 in SS0, b1 in
   *  SS1, b2 in SS2 and b3 in SS3. */
  lemma GOfPackedBytes(b0: byte, b1: byte, b2: byte, b3: byte)
    ensures G(WordOf(b0, b1, b2, b3)) == Lookup4(SS0, SS1, SS2, SS3, b0, b1, b2, b3)
  {
    LookupBytesOfWordOf(SS0, SS1, SS2, SS3, b0, b1, b2, b3);
  }

  /** The G-layer of F for any G-box g: three applications of g on the
   *  key-masked halves t0 and t1, with all additions modulo 2^32. */
  function GLayer(g: bv32 -> bv32, t0: bv32, t1: bv32): bv32 {
    var t1 := g(t1 ^ t0);
    var t0 := g(t0 + t1);
    var t1 := g(t1 + t0);
    t0 + t1
  }

  /** The shape of F for any G-box g: the round key masks the right half,
   *  then the G-layer mixes it. */
  function RoundFunction(g: bv32 -> bv32, ki0: bv32, ki1: bv32, r0: bv32, r1: bv32): bv32 {
    GLayer(g, r0 ^ ki0, r1 ^ ki1)
  }

  /** The round key enters the round function only through the xor with the
   *  right half, whatever the G-box. */
  lemma RoundFunctionKeyMixing(g: bv32 -> bv32, ki0: bv32, ki1: bv32, r0: bv32, r1: bv32)
    ensures RoundFunction(g, ki0, ki1, r0, r1) == RoundFunction(g, 0, 0, r0 ^ ki0, r1 ^ ki1)
  {
    var a0, a1 := r0 ^ ki0, r1 ^ ki1;
    assert a0 ^ 0 == a0 && a1 ^ 0 == a1;
  }

  /** F: the round function of the cipher, built on G. */
  function F(ki0: bv32, ki1: bv32, r0: bv32, r1: bv32): bv32 {
    RoundFunction(G, ki0, ki1, r0, r1)
  }

  /** F under any round key is F under the zero key applied to the masked
   *  right half. */
  lemma FKeyMixing(ki0: bv32, ki1: bv32, r0: bv32, r1: bv32)
    ensures F(ki0, ki1, r0, r1) == F(0, 0, r0 ^ ki0, r1 ^ ki1)
  {
    RoundFunctionKeyMixing(G, ki0, ki1, r0, r1);
  }

  // ---------------------------------------------------------------------------
  // Round keys
  // ---------------------------------------------------------------------------

  /** Round-key word j, computed from the key words at the start of round j / 2. */
  function RoundKeyWord(key: SeedKey, j: nat): bv32
    requires j < 2 * ROUNDS
  {
    var w := WordsAt(key, j / 2);
    if j % 2 == 0 then G(EvenInput(w.k0, w.k2, j / 2)) else G(OddInput(w.k1, w.k3, j / 2))
  }

  /** generateRoundKeys: the 32 round-key words. Pair i is
   *  (G(K0 + K2 - KC(i)), G(K1 - K3 + KC(i))) modulo 2^32, where K0 || K1 and
   *  K2 || K3 are the big-endian words of the key halves rotated as PairA
   *  and PairB say. */
  function RoundKeys(key: SeedKey): (rk: RoundKeyArray)
    ensures forall i :: 0 <= i < ROUNDS ==>
      && rk[2 * i] == G(HighWord(PairA(key, i)) + HighWord(PairB(key, i)) - KC(i))
      && rk[2 * i + 1] == G(LowWord(PairA(key, i)) - LowWord(PairB(key, i)) + KC(i))
  {
    var rk := seq(2 * ROUNDS, j requires 0 <= j < 2 * ROUNDS => RoundKeyWord(key, j));
    forall i | 0 <= i < ROUNDS
      ensures rk[2 * i] == G(HighWord(PairA(key, i)) + HighWord(PairB(key, i)) - KC(i))
      ensures rk[2 * i + 1] == G(LowWord(PairA(key, i)) - LowWord(PairB(key, i)) + KC(i))
    {
      RoundKeyWordClosedForm(key, i);
    }
    rk
  }

  lemma RoundKeyWordClosedForm(key: SeedKey, i: nat)
    requires i < ROUNDS
    ensures RoundKeyWord(key, 2 * i) == G(HighWord(PairA(key, i)) + HighWord(PairB(key, i)) - KC(i))
    ensures RoundKeyWord(key, 2 * i + 1) == G(LowWord(PairA(key, i)) - LowWord(PairB(key, i)) + KC(i))
  {
    assert (2 * i) / 2 == i && (2 * i + 1) / 2 == i;
    assert (2 * i) % 2 == 0 && (2 * i + 1) % 2 == 1;
    WordsAtClosedForm(key, i);
  }

  // ---------------------------------------------------------------------------
  // Blocks
  // ---------------------------------------------------------------------------

  /** The exclusive or that masks a left word with F's output. */
  function Xor32(a: bv32, x: bv32): bv32 {
    a ^ x
  }

  /** SEED's round structure: F as round function, exclusive or as mask. */
  function SeedNetwork(): Network<bv32> {
    Network(F, Xor32)
  }

  lemma SeedNetworkSelfInverse()
    ensures SelfInverse(SeedNetwork())
  {
    forall a: bv32, x: bv32
      ensures SeedNetwork().mask(SeedNetwork().mask(a, x), x) == a
    {
      assert Xor32(Xor32(a, x), x) == a;
    }
  }

  /** encryptBlock with the engine's round keys: decryptBlock undoes it. */
  function EncryptBlock(rk: RoundKeyArray, b: Block): (c: Block)
    ensures DecryptWith(SeedNetwork(), rk, c) == b
  {
    SeedNetworkSelfInverse();
    DecryptWithEncryptWith(SeedNetwork(), rk, b);
    EncryptWith(SeedNetwork(), rk, b)
  }

  /** decryptBlock with the engine's round keys: encryptBlock undoes it. */
  function DecryptBlock(rk: RoundKeyArray, c: Block): (b: Block)
    ensures EncryptWith(SeedNetwork(), rk, b) == c
  {
    SeedNetworkSelfInverse();
    EncryptWithDecryptWith(SeedNetwork(), rk, c);
    DecryptWith(SeedNetwork(), rk, c)
  }

  /** decryptBlock inverts encryptBlock under the same round keys, whatever
   *  they are. */
  lemma DecryptBlockEncryptBlock(rk: RoundKeyArray, b: Block)
    ensures DecryptBlock(rk, EncryptBlock(rk, b)) == b
  {
    SeedNetworkSelfInverse();
    DecryptWithEncryptWith(SeedNetwork(), rk, b);
  }

  /** encryptBlock inverts decryptBlock under the same round keys. */
  lemma EncryptBlockDecryptBlock(rk: RoundKeyArray, b: Block)
    ensures EncryptBlock(rk, DecryptBlock(rk, b)) == b
  {
    SeedNetworkSelfInverse();
    EncryptWithDecryptWith(SeedNetwork(), rk, b);
  }

  /** encryptBlock and decryptBlock under fixed round keys, as block
   *  transforms for the chaining mode. */
  function EncryptFn(rk: RoundKeyArray): Block -> Block {
    b => EncryptBlock(rk, b)
  }

  function DecryptFn(rk: RoundKeyArray): Block -> Block {
    b => DecryptBlock(rk, b)
  }

  /** The two transforms invert each other both ways round. */
  lemma BlockTransformsInvert(rk: RoundKeyArray)
    ensures Cbc.Inverts(DecryptFn(rk), EncryptFn(rk))
    ensures Cbc.Inverts(EncryptFn(rk), DecryptFn(rk))
  {
    forall b: Block
      ensures DecryptFn(rk)(EncryptFn(rk)(b)) == b
    {
      DecryptBlockEncryptBlock(rk, b);
    }
    forall b: Block
      ensures EncryptFn(rk)(DecryptFn(rk)(b)) == b
    {
      EncryptBlockDecryptBlock(rk, b);
    }
  }
}
