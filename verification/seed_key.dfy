/** The 128-bit key value of the SEED cryptor (class SeedKey). */
module Keys {
  import opened Bytes

  /** Key length in bytes (SeedKey::KEY_SIZE). */
  const KEY_SIZE: nat := 16

  /** The fixed-size key array `std::array<unsigned char, KEY_SIZE>`. */
  type KeyBytes = s: seq<byte> | |s| == KEY_SIZE witness seq(16, _ => 0)

  datatype SeedKey = SeedKey(data: KeyBytes)

  /** The default constructor: a value-initialised, all-zero key. */
  function DefaultKey(): (k: SeedKey)
    ensures forall i :: 0 <= i < KEY_SIZE ==> k.data[i] == 0
  {
    SeedKey(seq(KEY_SIZE, _ => 0))
  }

  /** The constructor from an explicit byte array stores it verbatim. */
  function KeyOf(data: KeyBytes): (k: SeedKey)
    ensures k.data == data
  {
    SeedKey(data)
  }

  /** getData: the bytes that determine the key. */
  function GetData(k: SeedKey): (d: KeyBytes)
    ensures KeyOf(d) == k
  {
    k.data
  }

  /** setData replaces every byte: the result depends on the new bytes only. */
  function SetData(k: SeedKey, data: KeyBytes): (r: SeedKey)
    ensures GetData(r) == data
    ensures r == KeyOf(data)
  {
    SeedKey(data)
  }

  /** The scan of isValid from position i: does some byte at or after i differ from zero? */
  function NonZeroFrom(s: seq<byte>, i: nat): (r: bool)
    requires i <= |s|
    ensures r <==> exists j :: i <= j < |s| && s[j] != 0
    decreases |s| - i
  {
    if i == |s| then false
    else if s[i] != 0 then true
    else NonZeroFrom(s, i + 1)
  }

  /** isValid: true iff at least one key byte is non-zero. */
  function IsValid(k: SeedKey): (r: bool)
    ensures r <==> exists j :: 0 <= j < KEY_SIZE && k.data[j] != 0
  {
    NonZeroFrom(k.data, 0)
  }

  /** The element-wise comparison of std::array from position i on. */
  function SameFrom(a: seq<byte>, b: seq<byte>, i: nat): (r: bool)
    requires |a| == |b| && i <= |a|
    ensures r <==> forall j :: i <= j < |a| ==> a[j] == b[j]
    decreases |a| - i
  {
    if i == |a| then true
    else if a[i] != b[i] then false
    else SameFrom(a, b, i + 1)
  }

  /** operator==: byte-wise equality, which is equality of the key values. */
  function Equal(a: SeedKey, b: SeedKey): (r: bool)
    ensures r <==> forall j :: 0 <= j < KEY_SIZE ==> a.data[j] == b.data[j]
    ensures r <==> a == b
  {
    var same := SameFrom(a.data, b.data, 0);
    assert same ==> a.data == b.data;
    same
  }

  /** operator!=: the negation of operator==. */
  function NotEqual(a: SeedKey, b: SeedKey): (r: bool)
    ensures r <==> a != b
  {
    !Equal(a, b)
  }

  /** A key is valid exactly when it is not the default all-zero key. */
  lemma ValidIffNotDefault(k: SeedKey)
    ensures IsValid(k) <==> k != DefaultKey()
  {
    if !IsValid(k) {
      assert k.data == DefaultKey().data;
    }
  }
}
