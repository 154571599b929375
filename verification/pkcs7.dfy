/** PKCS#7 padding to whole 16-byte blocks (SeedCryptor::addPadding and
 *  SeedCryptor::removePadding). */
module Pkcs7 {
  import opened Bytes
  import opened Results
  import opened Blocks

  /** Why removePadding throws. */
  datatype PadError =
    | EmptyData       // no bytes at all
    | InvalidPadding  // the last byte is not a consistent pad length

  /** The value of a byte. */
  function NatOfByte(b: byte): (n: nat)
    ensures n < 256
  {
    b as nat
  }

  /** Bytes with the same value are equal. */
  lemma NatOfByteInjective(a: byte, b: byte)
    requires NatOfByte(a) == NatOfByte(b)
    ensures a == b
  {
    assert a == (a as int) as byte;
    assert b == (b as int) as byte;
  }

  /** The number of pad bytes for n data bytes: BLOCK_SIZE - n % BLOCK_SIZE,
   *  so a whole block of padding when n is already aligned. */
  function PadLength(n: nat): (p: nat)
    ensures 1 <= p <= BLOCK_SIZE
    ensures (n + p) % BLOCK_SIZE == 0
    ensures n % BLOCK_SIZE == 0 <==> p == BLOCK_SIZE
  {
    var p := BLOCK_SIZE - n % BLOCK_SIZE;
    // The source's guard for p == 0 can never fire.
    if p == 0 then assert false; BLOCK_SIZE else p
  }

  /** addPadding: append PadLength(|d|) copies of the byte PadLength(|d|). */
  function AddPadding(d: seq<byte>): (r: seq<byte>)
    ensures |r| == |d| + PadLength(|d|)
    ensures |r| % BLOCK_SIZE == 0 && |d| < |r| <= |d| + BLOCK_SIZE
    ensures r[..|d|] == d
    ensures forall i :: |d| <= i < |r| ==> NatOfByte(r[i]) == PadLength(|d|)
  {
    var p := PadLength(|d|);
    var pad := seq(p, _ => ByteOfNat(p));
    assert (d + pad)[..|d|] == d;
    d + pad
  }

  /** The bytes from index i to the end all equal v (the check loop of
   *  removePadding). */
  function AllFrom(d: seq<byte>, i: nat, v: byte): (ok: bool)
    requires i <= |d|
    ensures ok <==> forall k :: i <= k < |d| ==> d[k] == v
    decreases |d| - i
  {
    if i == |d| then true else d[i] == v && AllFrom(d, i + 1, v)
  }

  /** A well-formed PKCS#7 tail with BLOCK_SIZE as the largest pad: the last
   *  byte p is between 1 and BLOCK_SIZE, at most the length, and the last p
   *  bytes all equal p. */
  predicate ValidPadding(d: seq<byte>) {
    && |d| > 0
    && var p := NatOfByte(d[|d| - 1]);
    && 1 <= p <= BLOCK_SIZE && p <= |d|
    && forall k :: |d| - p <= k < |d| ==> NatOfByte(d[k]) == p
  }

  /** removePadding: drop a valid pad, or report why it is not one. */
  function RemovePadding(d: seq<byte>): (r: Result<seq<byte>, PadError>)
    ensures |d| == 0 ==> r == Failure(EmptyData)
    ensures r.Success? <==> ValidPadding(d)
    ensures r.Success? ==> r.value == d[..|d| - NatOfByte(d[|d| - 1])]
    ensures |d| > 0 && !ValidPadding(d) ==> r == Failure(InvalidPadding)
  {
    if |d| == 0 then Failure(EmptyData)
    else
      var last := d[|d| - 1];
      var p := NatOfByte(last);
      if p == 0 || p > BLOCK_SIZE || p > |d| then Failure(InvalidPadding)
      else if !AllFrom(d, |d| - p, last) then Failure(InvalidPadding)
      else Success(d[..|d| - p])
  }

  /** Removing the padding that addPadding added gives the data back. */
  lemma RemoveAddPadding(d: seq<byte>)
    ensures RemovePadding(AddPadding(d)) == Success(d)
  {
    var r := AddPadding(d);
    assert NatOfByte(r[|r| - 1]) == PadLength(|d|);
    assert ValidPadding(r);
  }

  /** On block-aligned input, padding is the only way to get a valid tail:
   *  whatever removePadding accepts, addPadding restores. */
  lemma AddRemovePadding(d: seq<byte>)
    requires |d| % BLOCK_SIZE == 0
    requires RemovePadding(d).Success?
    ensures AddPadding(RemovePadding(d).value) == d
  {
    var p := NatOfByte(d[|d| - 1]);
    var m := RemovePadding(d).value;
    assert |m| == |d| - p && ValidPadding(d);
    assert PadLength(|m|) == p by {
      PadLengthOfAligned(|m|, p);
    }
    var r := AddPadding(m);
    assert r[..|m|] == m == d[..|m|];
    forall i | |m| <= i < |d|
      ensures r[i] == d[i]
    {
      NatOfByteInjective(r[i], d[i]);
    }
    assert r == d by {
      assert forall i :: 0 <= i < |m| ==> r[i] == r[..|m|][i] && d[i] == d[..|m|][i];
    }
  }

  /** The pad length of n data bytes is p when n + p is aligned and p is a
   *  possible pad length. */
  lemma PadLengthOfAligned(n: nat, p: nat)
    requires 1 <= p <= BLOCK_SIZE && (n + p) % BLOCK_SIZE == 0
    ensures PadLength(n) == p
  {
  }
}
