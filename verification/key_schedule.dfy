/** The key-word updates of SeedCryptor::generateRoundKeys: four big-endian key
 *  words, with one pair shifted by a byte at the end of every round, and their
 *  closed form as byte rotations of the two key halves. */
module KeySchedule {
  import opened Bytes
  import opened Keys
  import opened SeedTables

  /** The four key words K[0..3]. */
  datatype KeyWords = KeyWords(k0: bv32, k1: bv32, k2: bv32, k3: bv32)

  /** The big-endian word held by the first four of eight bytes. */
  function HighWord(p: seq<byte>): bv32
    requires |p| == 8
  {
    WordOf(p[0], p[1], p[2], p[3])
  }

  /** The big-endian word held by the last four of eight bytes. */
  function LowWord(p: seq<byte>): bv32
    requires |p| == 8
  {
    WordOf(p[4], p[5], p[6], p[7])
  }

  /** The key bytes read as four big-endian words. */
  function InitialWords(key: SeedKey): KeyWords {
    var d := key.data;
    KeyWords(WordOf(d[0], d[1], d[2], d[3]), WordOf(d[4], d[5], d[6], d[7]),
             WordOf(d[8], d[9], d[10], d[11]), WordOf(d[12], d[13], d[14], d[15]))
  }

  /** `(a << 8) | (b >> 24)`: a moved up one byte, taking b's top byte. */
  function ShiftInLeft(a: bv32, b: bv32): bv32 {
    (a << 8) | (b >> 24)
  }

  /** `(a >> 8) | (b << 24)`: a moved down one byte, taking b's bottom byte. */
  function ShiftInRight(a: bv32, b: bv32): bv32 {
    (a >> 8) | (b << 24)
  }

  /** The update at the end of round i: an even round shifts K[0], K[1]
   *  left, an odd round shifts K[2], K[3] right, each by one byte. */
  function Rotate(w: KeyWords, i: nat): KeyWords {
    if i % 2 == 0 then KeyWords(ShiftInLeft(w.k0, w.k1), ShiftInLeft(w.k1, w.k0), w.k2, w.k3)
    else KeyWords(w.k0, w.k1, ShiftInRight(w.k2, w.k3), ShiftInRight(w.k3, w.k2))
  }

  /** The key words at the start of round i. */
  function WordsAt(key: SeedKey, i: nat): KeyWords
    decreases i
  {
    if i == 0 then InitialWords(key) else Rotate(WordsAt(key, i - 1), i - 1)
  }

  /** s rotated left by m positions. */
  function RotateLeftSeq(s: seq<byte>, m: nat): (r: seq<byte>)
    requires m <= |s|
    ensures |r| == |s|
    ensures forall k :: 0 <= k < |s| ==> r[k] == if k + m < |s| then s[k + m] else s[k + m - |s|]
  {
    s[m..] + s[..m]
  }

  /** s rotated right by m positions. */
  function RotateRightSeq(s: seq<byte>, m: nat): (r: seq<byte>)
    requires m <= |s|
    ensures |r| == |s|
    ensures forall k :: 0 <= k < |s| ==> r[k] == if k >= m then s[k - m] else s[k - m + |s|]
  {
    s[|s| - m..] + s[..|s| - m]
  }

  lemma RotateLeftSeqStep(s: seq<byte>, m: nat)
    requires m < |s|
    ensures RotateLeftSeq(RotateLeftSeq(s, m), 1) == RotateLeftSeq(s, m + 1)
  {
    var a := RotateLeftSeq(RotateLeftSeq(s, m), 1);
    var b := RotateLeftSeq(s, m + 1);
    assert forall k :: 0 <= k < |s| ==> a[k] == b[k];
  }

  lemma RotateRightSeqStep(s: seq<byte>, m: nat)
    requires m < |s|
    ensures RotateRightSeq(RotateRightSeq(s, m), 1) == RotateRightSeq(s, m + 1)
  {
    var a := RotateRightSeq(RotateRightSeq(s, m), 1);
    var b := RotateRightSeq(s, m + 1);
    assert forall k :: 0 <= k < |s| ==> a[k] == b[k];
  }

  /** K[0] || K[1] at the start of round i: key bytes 0..7 rotated left by
   *  one byte for every even round already done. */
  function PairA(key: SeedKey, i: nat): (p: seq<byte>)
    requires i <= 16
    ensures |p| == 8
  {
    RotateLeftSeq(key.data[..8], (i + 1) / 2)
  }

  /** K[2] || K[3] at the start of round i: key bytes 8..15 rotated right by
   *  one byte for every odd round already done. */
  function PairB(key: SeedKey, i: nat): (p: seq<byte>)
    requires i <= 16
    ensures |p| == 8
  {
    RotateRightSeq(key.data[8..], i / 2)
  }

  /** The even-round update shifts the byte string K[0] || K[1] left by one. */
  lemma ShiftInLeftBytes(b0: byte, b1: byte, b2: byte, b3: byte, b4: byte, b5: byte, b6: byte, b7: byte)
    ensures ShiftInLeft(WordOf(b0, b1, b2, b3), WordOf(b4, b5, b6, b7)) == WordOf(b1, b2, b3, b4)
    ensures ShiftInLeft(WordOf(b4, b5, b6, b7), WordOf(b0, b1, b2, b3)) == WordOf(b5, b6, b7, b0)
  {
  }

  /** The odd-round update shifts the byte string K[2] || K[3] right by one. */
  lemma ShiftInRightBytes(b0: byte, b1: byte, b2: byte, b3: byte, b4: byte, b5: byte, b6: byte, b7: byte)
    ensures ShiftInRight(WordOf(b0, b1, b2, b3), WordOf(b4, b5, b6, b7)) == WordOf(b7, b0, b1, b2)
    ensures ShiftInRight(WordOf(b4, b5, b6, b7), WordOf(b0, b1, b2, b3)) == WordOf(b3, b4, b5, b6)
  {
  }

  /** The closed form holds before the first round. */
  lemma ClosedFormStart(key: SeedKey)
    ensures WordsAt(key, 0).k0 == HighWord(PairA(key, 0))
    ensures WordsAt(key, 0).k1 == LowWord(PairA(key, 0))
    ensures WordsAt(key, 0).k2 == HighWord(PairB(key, 0))
    ensures WordsAt(key, 0).k3 == LowWord(PairB(key, 0))
  {
    assert PairA(key, 0) == key.data[..8];
    assert PairB(key, 0) == key.data[8..];
  }

  /** An even round moves PairA one byte further left and keeps PairB. */
  lemma ClosedFormEvenStep(key: SeedKey, i: nat)
    requires i < 16 && i % 2 == 0
    ensures PairA(key, i + 1) == RotateLeftSeq(PairA(key, i), 1)
    ensures PairB(key, i + 1) == PairB(key, i)
  {
    var m := i / 2;
    assert (i + 1) / 2 == m && (i + 1 + 1) / 2 == m + 1 && (i + 1) / 2 == i / 2;
    assert PairA(key, i + 1) == RotateLeftSeq(RotateLeftSeq(key.data[..8], m), 1) by {
      RotateLeftSeqStep(key.data[..8], m);
    }
  }

  /** An odd round moves PairB one byte further right and keeps PairA. */
  lemma ClosedFormOddStep(key: SeedKey, i: nat)
    requires i < 16 && i % 2 == 1
    ensures PairB(key, i + 1) == RotateRightSeq(PairB(key, i), 1)
    ensures PairA(key, i + 1) == PairA(key, i)
  {
    var m := i / 2;
    assert (i + 1) / 2 == m + 1 && (i + 1 + 1) / 2 == m + 1 && i / 2 == m;
    assert PairB(key, i + 1) == RotateRightSeq(RotateRightSeq(key.data[8..], m), 1) by {
      RotateRightSeqStep(key.data[8..], m);
    }
  }

  /** On words read from eight bytes p, an even round's update reads
   *  p rotated left by one byte. */
  lemma RotateEvenWords(w: KeyWords, p: seq<byte>, i: nat)
    requires |p| == 8 && i % 2 == 0
    requires w.k0 == HighWord(p) && w.k1 == LowWord(p)
    ensures Rotate(w, i).k0 == HighWord(RotateLeftSeq(p, 1))
    ensures Rotate(w, i).k1 == LowWord(RotateLeftSeq(p, 1))
    ensures Rotate(w, i).k2 == w.k2 && Rotate(w, i).k3 == w.k3
  {
    ShiftInLeftBytes(p[0], p[1], p[2], p[3], p[4], p[5], p[6], p[7]);
  }

  /** On words read from eight bytes q, an odd round's update reads
   *  q rotated right by one byte. */
  lemma RotateOddWords(w: KeyWords, q: seq<byte>, i: nat)
    requires |q| == 8 && i % 2 == 1
    requires w.k2 == HighWord(q) && w.k3 == LowWord(q)
    ensures Rotate(w, i).k2 == HighWord(RotateRightSeq(q, 1))
    ensures Rotate(w, i).k3 == LowWord(RotateRightSeq(q, 1))
    ensures Rotate(w, i).k0 == w.k0 && Rotate(w, i).k1 == w.k1
  {
    ShiftInRightBytes(q[0], q[1], q[2], q[3], q[4], q[5], q[6], q[7]);
  }

  /** The four key words at the start of round i are read from PairA and
   *  PairB. */
  predicate ClosedFormAt(key: SeedKey, i: nat)
    requires i <= 16
  {
    var w := WordsAt(key, i);
    w.k0 == HighWord(PairA(key, i)) && w.k1 == LowWord(PairA(key, i)) &&
    w.k2 == HighWord(PairB(key, i)) && w.k3 == LowWord(PairB(key, i))
  }

  /** An even round keeps the key words in closed form. */
  lemma ClosedFormEvenRound(key: SeedKey, i: nat)
    requires i < 16 && i % 2 == 0 && ClosedFormAt(key, i)
    ensures ClosedFormAt(key, i + 1)
  {
    var w := WordsAt(key, i);
    assert WordsAt(key, i + 1) == Rotate(w, i);
    ClosedFormEvenStep(key, i);
    RotateEvenWords(w, PairA(key, i), i);
  }

  /** An odd round keeps the key words in closed form. */
  lemma ClosedFormOddRound(key: SeedKey, i: nat)
    requires i < 16 && i % 2 == 1 && ClosedFormAt(key, i)
    ensures ClosedFormAt(key, i + 1)
  {
    var w := WordsAt(key, i);
    assert WordsAt(key, i + 1) == Rotate(w, i);
    ClosedFormOddStep(key, i);
    RotateOddWords(w, PairB(key, i), i);
  }

  /** The word-wise updates of generateRoundKeys agree with the closed form:
   *  at the start of round i the key words are the big-endian words of the
   *  key halves rotated as PairA and PairB say. */
  lemma {:induction false} WordsAtClosedForm(key: SeedKey, i: nat)
    requires i <= 16
    ensures WordsAt(key, i).k0 == HighWord(PairA(key, i))
    ensures WordsAt(key, i).k1 == LowWord(PairA(key, i))
    ensures WordsAt(key, i).k2 == HighWord(PairB(key, i))
    ensures WordsAt(key, i).k3 == LowWord(PairB(key, i))
    decreases i
  {
    if i == 0 {
      ClosedFormStart(key);
    } else {
      WordsAtClosedForm(key, i - 1);
      if (i - 1) % 2 == 0 {
        ClosedFormEvenRound(key, i - 1);
      } else {
        ClosedFormOddRound(key, i - 1);
      }
    }
  }

  /** The word generateRoundKeys passes to G for the even round-key word of
   *  round i: K[0] + K[2] - KC[i], modulo 2^32. */
  function EvenInput(k0: bv32, k2: bv32, i: nat): bv32
    requires i < 16
  {
    k0 + k2 - KC(i)
  }

  /** The word passed to G for the odd round-key word of round i:
   *  K[1] - K[3] + KC[i], modulo 2^32. */
  function OddInput(k1: bv32, k3: bv32, i: nat): bv32
    requires i < 16
  {
    k1 - k3 + KC(i)
  }
}
