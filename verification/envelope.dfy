/** The message format of SeedCryptor::encrypt and decryptToBytes for any
 *  block transform: IV || CBC(PKCS#7-padded data), with the length and
 *  padding checks of decryption. */
module Envelope {
  import opened Bytes
  import opened Results
  import opened Blocks
  import opened Pkcs7
  import opened Cbc

  /** Why decryptToBytes throws. */
  datatype CryptError =
    | TooShort              // fewer than two blocks (IV and one data block)
    | BadLength             // the data after the IV is not whole blocks
    | BadPadding(e: PadError)

  /** The IV, then the CBC encryption, chained on the IV, of the padded data. */
  function Seal(enc: Block -> Block, iv: Block, plainData: seq<byte>): (r: seq<byte>)
    ensures |r| == BLOCK_SIZE * (|plainData| / BLOCK_SIZE + 2)
    ensures r[..BLOCK_SIZE] == iv
  {
    var padded := AddPadding(plainData);
    assert |padded| == BLOCK_SIZE * (|plainData| / BLOCK_SIZE + 1);
    iv + CbcEncrypt(enc, iv, padded)
  }

  /** Check the length, take the IV, CBC-decrypt the rest, strip the padding. */
  function Open(dec: Block -> Block, cipherData: seq<byte>): (r: Result<seq<byte>, CryptError>)
    ensures |cipherData| < 2 * BLOCK_SIZE ==> r == Failure(TooShort)
    ensures |cipherData| >= 2 * BLOCK_SIZE && |cipherData| % BLOCK_SIZE != 0 ==> r == Failure(BadLength)
    ensures r.Success? ==>
      && |cipherData| >= 2 * BLOCK_SIZE && |cipherData| % BLOCK_SIZE == 0
      && |cipherData| - 2 * BLOCK_SIZE <= |r.value| < |cipherData| - BLOCK_SIZE
    ensures |cipherData| >= 2 * BLOCK_SIZE && |cipherData| % BLOCK_SIZE == 0 ==>
      var padded := CbcDecrypt(dec, cipherData[..BLOCK_SIZE], cipherData[BLOCK_SIZE..]);
      && (r.Failure? <==> RemovePadding(padded).Failure?)
      && (r.Failure? ==> r.error == BadPadding(RemovePadding(padded).error))
      && (r.Success? ==> r.value == RemovePadding(padded).value)
  {
    if |cipherData| < 2 * BLOCK_SIZE then Failure(TooShort)
    else if (|cipherData| - BLOCK_SIZE) % BLOCK_SIZE != 0 then
      AlignedAfterIv(|cipherData|);
      Failure(BadLength)
    else
      AlignedAfterIv(|cipherData|);
      var iv: Block := cipherData[..BLOCK_SIZE];
      var padded := CbcDecrypt(dec, iv, cipherData[BLOCK_SIZE..]);
      match RemovePadding(padded)
      case Success(plain) => Success(plain)
      case Failure(e) => Failure(BadPadding(e))
  }

  /** Whole blocks after the IV means whole blocks overall. */
  lemma AlignedAfterIv(n: nat)
    requires n >= BLOCK_SIZE
    ensures (n - BLOCK_SIZE) % BLOCK_SIZE == 0 <==> n % BLOCK_SIZE == 0
  {
  }

  /** Opening what was sealed gives the plaintext back, whatever the IV. */
  lemma OpenSeal(enc: Block -> Block, dec: Block -> Block, iv: Block, plainData: seq<byte>)
    requires Inverts(dec, enc)
    ensures Open(dec, Seal(enc, iv, plainData)) == Success(plainData)
  {
    var padded := AddPadding(plainData);
    var body := CbcEncrypt(enc, iv, padded);
    var r := iv + body;
    assert Seal(enc, iv, plainData) == r;
    assert r[..BLOCK_SIZE] == iv && r[BLOCK_SIZE..] == body;
    assert |padded| >= BLOCK_SIZE && |padded| % BLOCK_SIZE == 0;
    assert |r| - BLOCK_SIZE == |padded|;
    CbcDecryptEncrypt(enc, dec, iv, padded);
    RemoveAddPadding(plainData);
    OpenAligned(dec, r, plainData);
  }

  /** Open on an aligned message whose decrypted body carries valid padding. */
  lemma OpenAligned(dec: Block -> Block, r: seq<byte>, plainData: seq<byte>)
    requires |r| >= 2 * BLOCK_SIZE && (|r| - BLOCK_SIZE) % BLOCK_SIZE == 0
    requires RemovePadding(CbcDecrypt(dec, r[..BLOCK_SIZE], r[BLOCK_SIZE..])) == Success(plainData)
    ensures Open(dec, r) == Success(plainData)
  {
  }

  /** Whatever Open accepts is the sealing of the plaintext it returns under
   *  the IV at its front. */
  lemma SealOpen(enc: Block -> Block, dec: Block -> Block, cipherData: seq<byte>)
    requires Inverts(enc, dec)
    requires Open(dec, cipherData).Success?
    ensures Seal(enc, cipherData[..BLOCK_SIZE], Open(dec, cipherData).value) == cipherData
  {
    var iv: Block := cipherData[..BLOCK_SIZE];
    var body := cipherData[BLOCK_SIZE..];
    var padded := CbcDecrypt(dec, iv, body);
    var plain := Open(dec, cipherData).value;
    assert RemovePadding(padded) == Success(plain);
    AddRemovePadding(padded);
    CbcEncryptDecrypt(enc, dec, iv, body);
    assert cipherData == iv + body;
  }

  /** The blocks of a sealed message: block 0 is the IV, and block k + 1 is the
   *  encryption of padded block k masked with block k, the one before it. */
  lemma SealChaining(enc: Block -> Block, iv: Block, plainData: seq<byte>, k: nat)
    requires (k + 2) * BLOCK_SIZE <= |Seal(enc, iv, plainData)|
    ensures BlockAt(Seal(enc, iv, plainData), 0) == iv
    ensures (k + 1) * BLOCK_SIZE <= |AddPadding(plainData)|
    ensures BlockAt(Seal(enc, iv, plainData), k + 1) ==
      enc(Xor(BlockAt(AddPadding(plainData), k), BlockAt(Seal(enc, iv, plainData), k)))
  {
    var padded := AddPadding(plainData);
    var body := CbcEncrypt(enc, iv, padded);
    var r := iv + body;
    assert Seal(enc, iv, plainData) == r;
    BlockAtFront(iv, body);
    BlockAtShift(iv, body, k + 1);
    CbcEncryptAt(enc, iv, padded, k);
    if k > 0 {
      BlockAtShift(iv, body, k);
    }
  }
}
