/** SeedCryptor: a key with its 32 round-key words, and the public
 *  encrypt / decrypt operations on byte vectors and on strings. The IV is a
 *  parameter: the source draws it from a random device. */
module Cryptor {
  import opened Bytes
  import opened Results
  import opened Keys
  import opened Blocks
  import opened SeedCipher
  import opened Envelope
  import opened Pkcs7
  import opened Cbc

  /** The cryptor's state: its key and the round keys derived from it. */
  datatype SeedCryptor = SeedCryptor(key: SeedKey, roundKeys: RoundKeyArray)

  /** The round keys are those of the key (what every constructor and
   *  setKey establish). */
  predicate Consistent(c: SeedCryptor) {
    c.roundKeys == RoundKeys(c.key)
  }

  /** The constructor SeedCryptor(const SeedKey&). */
  function NewCryptor(key: SeedKey): (c: SeedCryptor)
    ensures c.key == key && Consistent(c)
  {
    SeedCryptor(key, RoundKeys(key))
  }

  /** getKey: a consistent cryptor is the one built from its key. */
  function GetKey(c: SeedCryptor): (key: SeedKey)
    ensures Consistent(c) ==> NewCryptor(key) == c
  {
    c.key
  }

  /** setKey: replace the key and regenerate every round key. */
  function SetKey(c: SeedCryptor, key: SeedKey): (r: SeedCryptor)
    ensures GetKey(r) == key && Consistent(r)
  {
    SeedCryptor(key, RoundKeys(key))
  }

  /** Setting the key a consistent cryptor already has changes nothing. */
  lemma SetKeyGetKey(c: SeedCryptor)
    requires Consistent(c)
    ensures SetKey(c, GetKey(c)) == c
  {
  }

  /** The bytes encrypt produces: the IV, then the CBC encryption, chained on
   *  the IV, of the PKCS#7-padded data. */
  function EncryptToBytes(c: SeedCryptor, iv: Block, plainData: seq<byte>): (r: seq<byte>)
    ensures |r| == BLOCK_SIZE * (|plainData| / BLOCK_SIZE + 2)
    ensures r[..BLOCK_SIZE] == iv
  {
    Seal(EncryptFn(c.roundKeys), iv, plainData)
  }

  /** encrypt(const std::vector<unsigned char>&): the ciphertext as a string. */
  function Encrypt(c: SeedCryptor, iv: Block, plainData: seq<byte>): (r: ByteString)
    ensures ToBytes(r) == EncryptToBytes(c, iv, plainData)
  {
    ToBytesFromBytes(EncryptToBytes(c, iv, plainData));
    FromBytes(EncryptToBytes(c, iv, plainData))
  }

  /** encrypt(const std::string&): the string's bytes encrypted. */
  function EncryptString(c: SeedCryptor, iv: Block, plaintext: ByteString): (r: ByteString)
    ensures ToBytes(r) == EncryptToBytes(c, iv, ToBytes(plaintext))
  {
    Encrypt(c, iv, ToBytes(plaintext))
  }

  /** decryptToBytes(const std::vector<unsigned char>&). */
  function DecryptToBytes(c: SeedCryptor, cipherData: seq<byte>): (r: Result<seq<byte>, CryptError>)
    ensures |cipherData| < 2 * BLOCK_SIZE ==> r == Failure(TooShort)
    ensures |cipherData| >= 2 * BLOCK_SIZE && |cipherData| % BLOCK_SIZE != 0 ==> r == Failure(BadLength)
    ensures |cipherData| >= 2 * BLOCK_SIZE && |cipherData| % BLOCK_SIZE == 0 ==>
      var padded := CbcDecrypt(DecryptFn(c.roundKeys), cipherData[..BLOCK_SIZE], cipherData[BLOCK_SIZE..]);
      && (r.Failure? <==> RemovePadding(padded).Failure?)
      && (r.Failure? ==> r.error == BadPadding(RemovePadding(padded).error))
      && (r.Success? ==> r.value == RemovePadding(padded).value)
  {
    Open(DecryptFn(c.roundKeys), cipherData)
  }

  /** decryptToBytes(const std::string&). */
  function DecryptToBytesString(c: SeedCryptor, cipherData: ByteString): (r: Result<seq<byte>, CryptError>)
    ensures r == DecryptToBytes(c, ToBytes(cipherData))
  {
    DecryptToBytes(c, ToBytes(cipherData))
  }

  /** decrypt(const std::vector<unsigned char>&): the plaintext as a string. */
  function Decrypt(c: SeedCryptor, cipherData: seq<byte>): (r: Result<ByteString, CryptError>)
    ensures r.Success? <==> DecryptToBytes(c, cipherData).Success?
    ensures r.Success? ==> ToBytes(r.value) == DecryptToBytes(c, cipherData).value
    ensures r.Failure? ==> r.error == DecryptToBytes(c, cipherData).error
  {
    match DecryptToBytes(c, cipherData)
    case Success(plain) =>
      ToBytesFromBytes(plain);
      Success(FromBytes(plain))
    case Failure(e) => Failure(e)
  }

  /** decrypt(const std::string&). */
  function DecryptString(c: SeedCryptor, cipherData: ByteString): (r: Result<ByteString, CryptError>)
    ensures r == Decrypt(c, ToBytes(cipherData))
  {
    Decrypt(c, ToBytes(cipherData))
  }

  /** Decrypting what the same cryptor encrypted gives the plaintext back,
   *  whatever the IV. */
  lemma DecryptEncrypt(c: SeedCryptor, iv: Block, plainData: seq<byte>)
    ensures DecryptToBytes(c, EncryptToBytes(c, iv, plainData)) == Success(plainData)
  {
    BlockTransformsInvert(c.roundKeys);
    OpenSeal(EncryptFn(c.roundKeys), DecryptFn(c.roundKeys), iv, plainData);
  }

  /** Every ciphertext decryptToBytes accepts is the encryption of the
   *  plaintext it returns, under the IV at its front. */
  lemma EncryptDecrypt(c: SeedCryptor, cipherData: seq<byte>)
    requires DecryptToBytes(c, cipherData).Success?
    ensures EncryptToBytes(c, cipherData[..BLOCK_SIZE], DecryptToBytes(c, cipherData).value) == cipherData
  {
    BlockTransformsInvert(c.roundKeys);
    SealOpen(EncryptFn(c.roundKeys), DecryptFn(c.roundKeys), cipherData);
  }

  /** Two cryptors built from equal keys read each other's ciphertexts. */
  lemma SameKeyDecrypts(c1: SeedCryptor, c2: SeedCryptor, iv: Block, plainData: seq<byte>)
    requires Consistent(c1) && Consistent(c2) && GetKey(c1) == GetKey(c2)
    ensures DecryptToBytes(c2, EncryptToBytes(c1, iv, plainData)) == Success(plainData)
  {
    assert c1 == c2;
    DecryptEncrypt(c1, iv, plainData);
  }

  /** The string round trip: decrypt(encrypt(s)) == s. */
  lemma DecryptStringEncryptString(c: SeedCryptor, iv: Block, plaintext: ByteString)
    ensures DecryptString(c, EncryptString(c, iv, plaintext)) == Success(plaintext)
  {
    DecryptEncrypt(c, iv, ToBytes(plaintext));
    FromBytesToBytes(plaintext);
  }
}
