/** Bytes, big-endian 32-bit words and the byte strings of the C++ code. */
module Bytes {

  type byte = bv8

  /** A C++ std::string: every character is one byte. */
  type ByteString = s: seq<char> | forall i :: 0 <= i < |s| ==> s[i] as int < 256

  /** Packs four bytes into a word, most significant byte first. */
  function WordOf(b0: byte, b1: byte, b2: byte, b3: byte): bv32 {
    (b0 as bv32 << 24) | (b1 as bv32 << 16) | (b2 as bv32 << 8) | b3 as bv32
  }

  /** Byte k (0 = most significant) of a word, as `(w >> 8*(3-k)) & 0xFF`. */
  function ByteOf(w: bv32, k: nat): byte
    requires k < 4
  {
    if k == 0 then ((w >> 24) & 0xFF) as byte
    else if k == 1 then ((w >> 16) & 0xFF) as byte
    else if k == 2 then ((w >> 8) & 0xFF) as byte
    else (w & 0xFF) as byte
  }

  /** The four bytes of a word, most significant first. */
  function WordBytes(w: bv32): (r: seq<byte>)
    ensures |r| == 4
  {
    [ByteOf(w, 0), ByteOf(w, 1), ByteOf(w, 2), ByteOf(w, 3)]
  }

  /** Unpacking a packed word gives back its bytes. */
  lemma WordBytesOfWordOf(b0: byte, b1: byte, b2: byte, b3: byte)
    ensures WordBytes(WordOf(b0, b1, b2, b3)) == [b0, b1, b2, b3]
  {
    var w := WordOf(b0, b1, b2, b3);
    assert ByteOf(w, 0) == b0;
    assert ByteOf(w, 1) == b1;
    assert ByteOf(w, 2) == b2;
    assert ByteOf(w, 3) == b3;
  }

  /** Packing the bytes of a word gives back the word. */
  lemma WordOfWordBytes(w: bv32)
    ensures WordOf(ByteOf(w, 0), ByteOf(w, 1), ByteOf(w, 2), ByteOf(w, 3)) == w
  {
  }

  /** The four bytes of x, most significant first, each looked up in its own
   *  table, combined by exclusive or. */
  function LookupBytes(t0: byte -> bv32, t1: byte -> bv32, t2: byte -> bv32, t3: byte -> bv32, x: bv32): bv32 {
    Lookup4(t0, t1, t2, t3, ByteOf(x, 0), ByteOf(x, 1), ByteOf(x, 2), ByteOf(x, 3))
  }

  /** b0 looked up in t0, ..., b3 in t3, combined by exclusive or. */
  function Lookup4(t0: byte -> bv32, t1: byte -> bv32, t2: byte -> bv32, t3: byte -> bv32,
                   b0: byte, b1: byte, b2: byte, b3: byte): bv32 {
    t0(b0) ^ t1(b1) ^ t2(b2) ^ t3(b3)
  }

  /** On a packed word, table k sees byte k, most significant first. */
  lemma LookupBytesOfWordOf(t0: byte -> bv32, t1: byte -> bv32, t2: byte -> bv32, t3: byte -> bv32,
                            b0: byte, b1: byte, b2: byte, b3: byte)
    ensures LookupBytes(t0, t1, t2, t3, WordOf(b0, b1, b2, b3)) == Lookup4(t0, t1, t2, t3, b0, b1, b2, b3)
  {
    var w := WordOf(b0, b1, b2, b3);
    WordBytesOfWordOf(b0, b1, b2, b3);
    assert WordBytes(w)[0] == b0 && WordBytes(w)[1] == b1;
    assert WordBytes(w)[2] == b2 && WordBytes(w)[3] == b3;
  }

  /** Bytewise exclusive or of two equally long buffers. */
  function Xor(a: seq<byte>, b: seq<byte>): (r: seq<byte>)
    requires |a| == |b|
    ensures |r| == |a|
    ensures forall i :: 0 <= i < |r| ==> r[i] == a[i] ^ b[i]
  {
    seq(|a|, i requires 0 <= i < |a| => a[i] ^ b[i])
  }

  /** Xor with the same mask twice cancels. */
  lemma XorXor(a: seq<byte>, m: seq<byte>)
    requires |a| == |m|
    ensures Xor(Xor(a, m), m) == a
  {
    var x := Xor(Xor(a, m), m);
    forall i | 0 <= i < |a|
      ensures x[i] == a[i]
    {
      assert x[i] == (a[i] ^ m[i]) ^ m[i];
    }
  }

  /** The byte whose unsigned value is x, counted up from zero so that no
   *  integer-to-bit-vector conversion is needed. */
  function ByteOfNat(x: nat): (b: byte)
    requires x < 256
    ensures b as int == x
  {
    if x == 0 then 0 else ByteOfNat(x - 1) + 1
  }

  /** The byte a character of a std::string holds. */
  function ByteOfChar(c: char): byte
    requires c as int < 256
  {
    ByteOfNat(c as int)
  }

  /** The character holding a byte. */
  function CharOfByte(b: byte): (c: char)
    ensures c as int < 256
  {
    (b as int) as char
  }

  lemma CharOfByteOfChar(c: char)
    requires c as int < 256
    ensures CharOfByte(ByteOfChar(c)) == c
  {
  }

  lemma ByteOfCharOfByte(b: byte)
    ensures ByteOfChar(CharOfByte(b)) == b
  {
    var r := ByteOfNat(b as int);
    assert r == (r as int) as byte;
    assert b == (b as int) as byte;
  }

  /** The bytes of a std::string, as `std::vector<unsigned char>(s.begin(), s.end())`. */
  function ToBytes(s: ByteString): (r: seq<byte>)
    ensures |r| == |s|
    ensures forall i :: 0 <= i < |s| ==> r[i] == ByteOfChar(s[i])
  {
    seq(|s|, i requires 0 <= i < |s| => ByteOfChar(s[i]))
  }

  /** The std::string holding the given bytes, as `std::string(v.begin(), v.end())`. */
  function FromBytes(b: seq<byte>): (r: ByteString)
    ensures |r| == |b|
    ensures forall i :: 0 <= i < |b| ==> r[i] == CharOfByte(b[i])
  {
    seq(|b|, i requires 0 <= i < |b| => CharOfByte(b[i]))
  }

  /** Converting bytes to a string and back is the identity. */
  lemma ToBytesFromBytes(b: seq<byte>)
    ensures ToBytes(FromBytes(b)) == b
  {
    var r := ToBytes(FromBytes(b));
    forall i | 0 <= i < |b|
      ensures r[i] == b[i]
    {
      ByteOfCharOfByte(b[i]);
    }
  }

  /** Converting a string to bytes and back is the identity. */
  lemma FromBytesToBytes(s: ByteString)
    ensures FromBytes(ToBytes(s)) == s
  {
    var r := FromBytes(ToBytes(s));
    forall i | 0 <= i < |s|
      ensures r[i] == s[i]
    {
      CharOfByteOfChar(s[i]);
    }
  }
}
