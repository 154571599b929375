/** The 16-round Feistel network of SeedCryptor::encryptBlock and decryptBlock.
 *  It is stated for any word type, any round function, any masking operation
 *  that undoes itself (the source uses 32-bit words and exclusive or) and any
 *  array of 32 round-key words. */
module Feistel {

  /** Number of rounds. */
  const ROUNDS: nat := 16

  /** The left half (L0, L1) and the right half (R0, R1) of a block. */
  datatype State<W> = State(l0: W, l1: W, r0: W, r1: W)

  /** A cipher's round structure: the round function F(Ki0, Ki1, R0, R1) and
   *  the operation that masks a left word with F's output. */
  datatype Network<!W> = Network(f: (W, W, W, W) -> W, mask: (W, W) -> W)

  /** Masking twice with the same word restores the original word. */
  ghost predicate SelfInverse<W(!new)>(n: Network<W>) {
    forall a, x :: n.mask(n.mask(a, x), x) == a
  }

  /** Round i: the right half moves left, and the old left half, masked
   *  word-wise by F(K[2i], K[2i+1], R0, R1), becomes the new right half. */
  function Round<W>(n: Network<W>, rk: seq<W>, s: State<W>, i: nat): State<W>
    requires |rk| == 2 * ROUNDS && i < ROUNDS
  {
    var x := n.f(rk[2 * i], rk[2 * i + 1], s.r0, s.r1);
    State(s.r0, s.r1, n.mask(s.l0, x), n.mask(s.l1, x))
  }

  /** Exchanges the halves: the order in which a block is written back. */
  function Swap<W>(s: State<W>): State<W> {
    State(s.r0, s.r1, s.l0, s.l1)
  }

  /** A round undoes itself once the halves are exchanged around it. */
  lemma RoundUndoesRound<W(!new)>(n: Network<W>, rk: seq<W>, s: State<W>, i: nat)
    requires SelfInverse(n)
    requires |rk| == 2 * ROUNDS && i < ROUNDS
    ensures Round(n, rk, Swap(Round(n, rk, s, i)), i) == Swap(s)
  {
    var x := n.f(rk[2 * i], rk[2 * i + 1], s.r0, s.r1);
    assert n.mask(n.mask(s.l0, x), x) == s.l0;
    assert n.mask(n.mask(s.l1, x), x) == s.l1;
  }

  /** Rounds 0, 1, ..., k-1 in that order (the loop of encryptBlock). */
  function EncryptRounds<W>(n: Network<W>, rk: seq<W>, s: State<W>, k: nat): State<W>
    requires |rk| == 2 * ROUNDS && k <= ROUNDS
    decreases k
  {
    if k == 0 then s else Round(n, rk, EncryptRounds(n, rk, s, k - 1), k - 1)
  }

  /** Rounds k-1, k-2, ..., 0 in that order (the loop of decryptBlock). */
  function DecryptRounds<W>(n: Network<W>, rk: seq<W>, s: State<W>, k: nat): State<W>
    requires |rk| == 2 * ROUNDS && k <= ROUNDS
    decreases k
  {
    if k == 0 then s else DecryptRounds(n, rk, Round(n, rk, s, k - 1), k - 1)
  }

  /** Running the rounds backwards on the exchanged output restores the
   *  exchanged input, whatever the round function and the round keys. */
  lemma {:induction false} DecryptUndoesEncrypt<W(!new)>(n: Network<W>, rk: seq<W>, s: State<W>, k: nat)
    requires SelfInverse(n)
    requires |rk| == 2 * ROUNDS && k <= ROUNDS
    ensures DecryptRounds(n, rk, Swap(EncryptRounds(n, rk, s, k)), k) == Swap(s)
    decreases k
  {
    if k > 0 {
      var e := EncryptRounds(n, rk, s, k - 1);
      RoundUndoesRound(n, rk, e, k - 1);
      DecryptUndoesEncrypt(n, rk, s, k - 1);
    }
  }

  /** The other direction: forward rounds undo backward rounds. */
  lemma {:induction false} EncryptUndoesDecrypt<W(!new)>(n: Network<W>, rk: seq<W>, s: State<W>, k: nat)
    requires SelfInverse(n)
    requires |rk| == 2 * ROUNDS && k <= ROUNDS
    ensures EncryptRounds(n, rk, Swap(DecryptRounds(n, rk, s, k)), k) == Swap(s)
    decreases k
  {
    if k > 0 {
      var t := Round(n, rk, s, k - 1);
      EncryptUndoesDecrypt(n, rk, t, k - 1);
      RoundUndoesRound(n, rk, s, k - 1);
    }
  }
}
