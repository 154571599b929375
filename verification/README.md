# Website-traffic forecast: cipher, parsers and dataset loader in Dafny

This project models four parts of the website-traffic forecasting tool:

- **The file cipher (`SeedKey`, `SeedCryptor`).** A 128-bit key drives a
  16-round SEED-style block transform. The transform has four 8-to-32-bit
  substitution tables (G), the round function F, and a key schedule that
  rotates the key halves one byte per round. Messages are written
  `IV || CBC(PKCS#7-padded data)`. Decryption checks the length, undoes the
  chaining and strips the padding, and reports each malformed input as an
  error.
- **The forecasting helpers (`forecast_utils`).** These cover:
  - a number parser that drops thousands separators and quotes and falls
    back to 0;
  - a date parser that clamps out-of-range fields;
  - the weekday successor `nextDayString`;
  - the one-day time step `nextDayTimeT`;
  - the bracketed vector printer `printVector`.
- **The record (`DatasetValue`).** It holds one day of traffic. There are
  four constructors, getters, setters, and its own number parser, which
  drops only `,`.
- **The container (`Dataset`).** It has `addRow`, `clearRows`, `getRows`,
  `setRows`, and the CSV loader `fromCSV`.

The modules follow the source:

| module | models |
|---|---|
| `Bytes` | bytes, big-endian packing, and `std::string` as bytes |
| `SeedTables` | the SS0..SS3 and KC constants |
| `Keys` | `SeedKey` |
| `KeySchedule` | the key-word state of `generateRoundKeys` and its closed form |
| `Feistel` | the round structure, generic in the round function |
| `Blocks` | the 16-byte block codec |
| `SeedCipher` | G, F, the round keys, `encryptBlock`, `decryptBlock` |
| `Cbc` | the chaining loops |
| `Pkcs7` | `addPadding`, `removePadding` |
| `Envelope` | the message format, for any block transform |
| `Cryptor` | `SeedCryptor`'s public API |
| `TextParse` | `std::stoi`, `istream >> int`, and `parseDateString` |
| `ForecastUtils` | the forecasting helpers |
| `DatasetValues` | the `DatasetValue` record |
| `Datasets` | the `Dataset` container and its loader |

Integers follow the C++ widths:

- `unsigned int` arithmetic is `bv32`, so it wraps modulo 2^32.
- `int` is `Int32`; a parse whose value does not fit is a failure.
- `time_t` is `Int64`.

Where code and documentation disagree, the model follows the code:

- `forecast_utils.h` documents `parseNumberString` as dropping only commas.
  The `.cpp` also drops `"`; `ForecastUtils.ParseNumberString` drops both.
- The block transform is not RFC 4269 SEED:
  - F returns one word, and that word masks both left words.
  - The key schedule is the source's own.
  
  The model is the transform the code computes.

## Model

| member | source | states |
|---|---|---|
| Bytes.WordBytesOfWordOf | crypt/crypt.cpp:328-375 | Unpacking a big-endian packed word (`block[0] = (R0 >> 24) & 0xFF` …) gives back the four bytes it was packed from, most significant first |
| Bytes.WordOfWordBytes | crypt/crypt.cpp:328-375 | Packing the four bytes of a word gives back the word, so the block codec loses nothing |
| Bytes.LookupBytesOfWordOf | crypt/crypt.cpp:267-274 | Splitting a big-endian packed word into its bytes and looking each up in its own table is looking up the bytes it was packed from |
| Bytes.Xor | crypt/crypt.cpp:498-500 | The byte-wise xor of two equal-length buffers: same length, and byte i is `a[i] ^ b[i]` |
| Bytes.XorXor | crypt/crypt.cpp:552-554 | Xoring twice with the same previous block restores the buffer, which is what lets CBC decryption undo encryption |
| Bytes.ToBytesFromBytes | crypt/crypt.cpp:508-513 | Building a `std::string` from a byte vector and copying it back yields the same bytes |
| Bytes.FromBytesToBytes | crypt/crypt.cpp:475-478 | Copying a string's bytes into a vector and back yields the same string |
| Keys.DefaultKey | crypt/crypt.cpp:178 | The default key is sixteen zero bytes |
| Keys.KeyOf | crypt/crypt.cpp:180 | A key built from a byte array holds exactly those bytes |
| Keys.GetData | crypt/crypt.cpp:221-223 | `getData` returns the bytes that determine the key: building a key from them gives the same key |
| Keys.SetData | crypt/crypt.cpp:225-227 | After `setData` the key holds exactly the new bytes, and the old key no longer matters |
| Keys.IsValid | crypt/crypt.cpp:229-236 | `isValid` is true exactly when some key byte is non-zero |
| Keys.Equal | crypt/crypt.cpp:238-240 | `==` holds exactly when all sixteen bytes agree, which is exactly equality of keys |
| Keys.NotEqual | crypt/crypt.cpp:242-244 | `!=` is the negation of key equality |
| Keys.ValidIffNotDefault | crypt/crypt.cpp:178-236 | A key is valid exactly when it differs from the default-constructed key |
| KeySchedule.RotateEvenWords | crypt/crypt.cpp:312-316 | On an even round, the two shifts of K[0] and K[1] are a one-byte left rotation of the 8 bytes K[0] \|\| K[1]; K[2] and K[3] are unchanged |
| KeySchedule.RotateOddWords | crypt/crypt.cpp:317-322 | On an odd round, the two shifts of K[2] and K[3] are a one-byte right rotation of the 8 bytes K[2] \|\| K[3]; K[0] and K[1] are unchanged |
| KeySchedule.ShiftInLeftBytes | crypt/crypt.cpp:315-316 | `(a << 8) \| (b >> 24)` on packed words moves every byte up one place and takes b's top byte |
| KeySchedule.ShiftInRightBytes | crypt/crypt.cpp:320-321 | `(a >> 8) \| (b << 24)` on packed words moves every byte down one place and takes b's bottom byte |
| KeySchedule.WordsAtClosedForm | crypt/crypt.cpp:295-322 | At the start of round i, the key words of the iterative loop are the words of the first key half rotated left by ceil(i/2) bytes and the second half rotated right by floor(i/2) bytes |
| KeySchedule.RotateLeftSeqStep | crypt/crypt.cpp:312-316 | Rotating left by m bytes and then by one more is a rotation by m + 1 |
| KeySchedule.RotateRightSeqStep | crypt/crypt.cpp:317-322 | Rotating right by m bytes and then by one more is a rotation by m + 1 |
| SeedCipher.GOfPackedBytes | crypt/crypt.cpp:267-275 | G of a big-endian packed word is SS0 of its most significant byte xor SS1 of the next xor SS2 of the next xor SS3 of the least significant byte |
| SeedCipher.RoundFunctionKeyMixing | crypt/crypt.cpp:277-289 | Whatever the G-box, the round key is xored into the right half once, before any G, and nowhere else |
| SeedCipher.FKeyMixing | crypt/crypt.cpp:277-289 | F under round key (Ki0, Ki1) is F under the zero key applied to R0 ^ Ki0 and R1 ^ Ki1 |
| SeedCipher.RoundKeys | crypt/crypt.cpp:291-324 | Round-key pair i is `G(K0 + K2 - KC[i])`, `G(K1 - K3 + KC[i])` modulo 2^32, with K0..K3 taken from the key halves rotated in closed form rather than from the loop's state |
| SeedCipher.RoundKeyWordClosedForm | crypt/crypt.cpp:304-309 | The loop's round-key words agree with the closed form, one round at a time |
| Feistel.RoundUndoesRound | crypt/crypt.cpp:346-356 | For any round function, re-applying a round to its swapped output gives back the swapped input, because xor with the same word undoes itself |
| Feistel.DecryptUndoesEncrypt | crypt/crypt.cpp:346-356 | Running the rounds in reverse order on the swapped output of the forward rounds restores the swapped input |
| Feistel.EncryptUndoesDecrypt | crypt/crypt.cpp:346-356 | The forward rounds also undo the reverse rounds |
| Blocks.BlockOfState | crypt/crypt.cpp:360-375 | Writing back: bytes 0..3 hold the first word big-endian, and so on for each 4-byte quarter |
| Blocks.BlockOfStateOfBlock | crypt/crypt.cpp:328-375 | Reading a block into four words and writing them back in the same order is the identity |
| Blocks.StateOfBlockOfState | crypt/crypt.cpp:328-375 | Writing four words out and reading them back is the identity |
| Blocks.DecryptWithEncryptWith | crypt/crypt.cpp:326-427 | `decryptBlock` inverts `encryptBlock` for any self-inverse round structure and any 32 round keys |
| Blocks.EncryptWithDecryptWith | crypt/crypt.cpp:326-427 | `encryptBlock` inverts `decryptBlock` under the same conditions |
| SeedCipher.SeedNetworkSelfInverse | crypt/crypt.cpp:352-353 | Masking with xor by F's output undoes itself |
| SeedCipher.EncryptBlock | crypt/crypt.cpp:326-376 | `encryptBlock` under any round keys: `decryptBlock`'s round structure applied to its output gives the input block back |
| SeedCipher.DecryptBlock | crypt/crypt.cpp:378-427 | `decryptBlock` under any round keys: `encryptBlock`'s round structure applied to its output gives the ciphertext block back |
| SeedCipher.DecryptBlockEncryptBlock | crypt/crypt.cpp:326-427 | Under any round keys, the engine's `decryptBlock` restores what `encryptBlock` produced |
| SeedCipher.EncryptBlockDecryptBlock | crypt/crypt.cpp:326-427 | Under any round keys, `encryptBlock` restores what `decryptBlock` produced |
| SeedCipher.BlockTransformsInvert | crypt/crypt.cpp:326-427 | The block encryption and decryption with fixed round keys are inverse functions both ways round |
| Cbc.CbcEncrypt | crypt/crypt.cpp:493-506 | CBC encryption keeps the length of the block-aligned input |
| Cbc.CbcDecrypt | crypt/crypt.cpp:543-558 | CBC decryption keeps the length of the block-aligned input |
| Cbc.CbcDecryptEncrypt | crypt/crypt.cpp:493-558 | If the block decryption inverts the block encryption, CBC decryption with the same IV inverts CBC encryption on any aligned data |
| Cbc.CbcEncryptDecrypt | crypt/crypt.cpp:493-558 | Conversely, CBC encryption inverts CBC decryption |
| Cbc.CbcEncryptAt | crypt/crypt.cpp:493-506 | Ciphertext block k is the encryption of plaintext block k xored with ciphertext block k - 1, or with the IV when k = 0 |
| Cbc.CbcDecryptAt | crypt/crypt.cpp:543-558 | Plaintext block k is the decryption of ciphertext block k xored with ciphertext block k - 1, or with the IV when k = 0 |
| Cbc.EncryptBlocks | crypt/crypt.cpp:490-506 | The source's loop, which carries the previous ciphertext block, computes the CBC encryption |
| Cbc.DecryptBlocks | crypt/crypt.cpp:540-558 | The source's loop, which keeps a copy of the ciphertext block before decrypting it, computes the CBC decryption |
| Pkcs7.PadLength | crypt/crypt.cpp:429-434 | The pad length is 1..16, makes the length a multiple of 16, and is a whole block exactly when the data is already aligned |
| Pkcs7.AddPadding | crypt/crypt.cpp:429-439 | `addPadding` keeps the data as a prefix and appends PadLength bytes, each equal to that length |
| Pkcs7.AllFrom | crypt/crypt.cpp:453-457 | The check loop accepts exactly when every byte from i on equals the pad byte |
| Pkcs7.RemovePadding | crypt/crypt.cpp:441-460 | `removePadding` succeeds exactly on a valid pad: non-empty, last byte p with 1 <= p <= 16 and p <= length, and the last p bytes all p. On success it drops those p bytes; every other input is an error |
| Pkcs7.RemoveAddPadding | crypt/crypt.cpp:429-460 | Removing the padding just added gives the data back |
| Pkcs7.AddRemovePadding | crypt/crypt.cpp:429-460 | On aligned data with a valid pad, padding what `removePadding` returns rebuilds the input |
| Envelope.Seal | crypt/crypt.cpp:480-509 | The message is the IV followed by the padded data's CBC encryption: 16 × (n / 16 + 2) bytes, starting with the IV |
| Envelope.Open | crypt/crypt.cpp:526-562 | Fewer than 32 bytes is TooShort; a length that is not IV plus whole blocks is BadLength. A success implies both checks passed and yields at most one block less than the data after the IV. A long-enough aligned message fails exactly when the CBC-decrypted data has no valid padding, with that padding error, and otherwise yields the unpadded data |
| Envelope.AlignedAfterIv | crypt/crypt.cpp:526-533 | The data after a one-block IV is whole blocks exactly when the whole message is |
| Envelope.OpenSeal | crypt/crypt.cpp:480-562 | If the block decryption inverts the block encryption, decrypting an encrypted message gives back the plaintext, whatever the IV |
| Envelope.SealOpen | crypt/crypt.cpp:480-562 | A message that decrypts is exactly the encryption of its plaintext under its own IV |
| Envelope.OpenAligned | crypt/crypt.cpp:526-562 | A long-enough, block-aligned message whose unchained data unpads successfully decrypts to that data |
| Envelope.SealChaining | crypt/crypt.cpp:488-506 | The first 16 bytes of a message are the IV, and each later block is the encryption of the matching padded-plaintext block xored with the block before it |
| Cryptor.NewCryptor | crypt/crypt.cpp:250-252 | The constructor keeps the key and derives the round keys from it |
| Cryptor.GetKey | crypt/crypt.cpp:258-260 | `getKey` of a consistent cryptor returns the key it is built from: constructing a cryptor from it gives the same cryptor |
| Cryptor.SetKey | crypt/crypt.cpp:262-265 | `setKey` installs the key and regenerates every round key, so no round key of the old key survives |
| Cryptor.SetKeyGetKey | crypt/crypt.cpp:258-265 | Setting the key the cryptor already has changes nothing |
| Cryptor.EncryptToBytes | crypt/crypt.cpp:480-509 | Ciphertext length is 16 × (n / 16 + 2), and the ciphertext starts with the IV |
| Cryptor.Encrypt | crypt/crypt.cpp:480-509 | `encrypt(vector)` returns those ciphertext bytes as a string |
| Cryptor.EncryptString | crypt/crypt.cpp:475-478 | `encrypt(string)` encrypts the string's bytes |
| Cryptor.DecryptToBytes | crypt/crypt.cpp:526-562 | Too-short and misaligned inputs are reported as errors. A long-enough aligned input fails exactly when the block-by-block CBC decryption under the round keys has no valid padding, with that padding error, and otherwise returns the unpadded data |
| Cryptor.DecryptToBytesString | crypt/crypt.cpp:521-524 | `decryptToBytes(string)` decrypts the string's bytes |
| Cryptor.Decrypt | crypt/crypt.cpp:511-514 | `decrypt` succeeds exactly when `decryptToBytes` does: on success it returns the same bytes as a string, and otherwise the same error |
| Cryptor.DecryptString | crypt/crypt.cpp:516-519 | `decrypt(string)` decrypts the string's bytes |
| Cryptor.DecryptEncrypt | crypt/crypt.cpp:480-562 | For every cryptor, every IV and every plaintext, `decryptToBytes(encrypt(p)) == p` |
| Cryptor.EncryptDecrypt | crypt/crypt.cpp:480-562 | A ciphertext that decrypts is the encryption of its plaintext under its own IV |
| Cryptor.SameKeyDecrypts | crypt/crypt.cpp:250-265 | Two consistent cryptors with the same key decrypt each other's output |
| Cryptor.DecryptStringEncryptString | crypt/crypt.cpp:475-519 | The string API round-trips: `decrypt(encrypt(s)) == s` |
| TextParse.SkipSpaces | forecast_utils/forecast_utils.cpp:19 | Leading whitespace skipping by `>>`: what remains is a suffix starting at a non-space, and everything dropped was whitespace |
| TextParse.DigitRun | forecast_utils/forecast_utils.cpp:19 | The longest run of leading digits |
| TextParse.ReadUnsigned | forecast_utils/forecast_utils.cpp:19 | Reading digits succeeds exactly when the text starts with a digit, and leaves a proper suffix that does not start with a digit |
| TextParse.ReadUnsignedDigits | forecast_utils/forecast_utils.cpp:19 | The decimal digits of n, followed by a non-digit or nothing, read back as n with the rest left over |
| TextParse.ReadSignedNegative | forecast_utils/forecast_utils.cpp:19 | A minus sign followed by the digits of n reads as -n when that fits an int |
| TextParse.ReadSignedNonNegative | forecast_utils/forecast_utils.cpp:19 | The digits of an n that fits an int read as n |
| TextParse.ReadInt | forecast_utils/forecast_utils.cpp:19 | `>> int` consumes at least one character when it succeeds and stops before a digit, so it read the whole digit run |
| TextParse.ReadIntShowInt | forecast_utils/forecast_utils.cpp:19 | Every int printed in decimal reads back as itself, with the rest of the text left unread |
| TextParse.NoDigitsNoInt | forecast_utils/forecast_utils.cpp:47-50 | A text with no digit never parses as an int |
| TextParse.Stoi | forecast_utils/forecast_utils.cpp:47-50 | `stoi` succeeds exactly when an int can be read from the front, and returns that int |
| TextParse.ReadChar | forecast_utils/forecast_utils.cpp:19 | `>> char` succeeds exactly when a non-space character remains; it returns the first one and the text after it |
| TextParse.ReadCharFront | forecast_utils/forecast_utils.cpp:19 | A non-space character at the front is read as itself |
| TextParse.ExtractDayYear | forecast_utils/forecast_utils.cpp:19 | The remaining reads keep the month already read |
| TextParse.ExtractYear | forecast_utils/forecast_utils.cpp:19 | The last read keeps the month and day already read |
| TextParse.ExtractDate | forecast_utils/forecast_utils.cpp:16-19 | The date read fails when the month cannot be read; a successful read has the month `>> int` reads first |
| TextParse.ExtractDateShow | forecast_utils/forecast_utils.cpp:19 | `m<sep>d<sep>y` with printed ints and non-space, non-digit separators is read back as (m, d, y) |
| TextParse.ExtractDayYearShow | forecast_utils/forecast_utils.cpp:19 | The day and year part of a printed date reads back as (d, y) |
| TextParse.ExtractYearShow | forecast_utils/forecast_utils.cpp:19 | The year part of a printed date reads back as y |
| TextParse.ClampDate | forecast_utils/forecast_utils.cpp:22-32 | Month is clamped to 1..12, day to at least 1 and year to at least 1900, then stored as `tm_mon = month - 1` and `tm_year = year - 1900` with midnight; in-range fields pass through unchanged |
| TextParse.ParseDateString | forecast_utils/forecast_utils.cpp:14-34 | 0 when the date cannot be read; otherwise `mktime` of the clamped fields |
| TextParse.Strip | forecast_utils/forecast_utils.cpp:42-46 | The filter loop keeps no dropped character and leaves text without such characters unchanged |
| TextParse.StripAppend | forecast_utils/forecast_utils.cpp:44-46 | Filtering distributes over concatenation |
| TextParse.StripIdempotent | forecast_utils/forecast_utils.cpp:44-46 | Filtering twice is filtering once |
| TextParse.StripKeeps | forecast_utils/forecast_utils.cpp:44-46 | Every character the filter keeps occurs in the input |
| TextParse.ParseNumber | forecast_utils/forecast_utils.cpp:41-52 | When `stoi` accepts the filtered text the result is the int it reads, and when it rejects it the result is 0 |
| TextParse.ParseNumberOfPrinted | forecast_utils/forecast_utils.cpp:41-52 | A text whose filtered form is a printed int parses as that int |
| TextParse.ParseNumberNoDigits | forecast_utils/forecast_utils.cpp:41-52 | A text without digits parses as 0, the caught exception |
| ForecastUtils.ParseNumberString | forecast_utils/forecast_utils.cpp:41-52 | With `,` and `"` dropped: the result is the `stoi` of the filtered text when that succeeds, and 0 when it fails |
| ForecastUtils.ParseNumberStringGrouped | forecast_utils/forecast_utils.cpp:41-52 | "1,234" and similar, quoted or not, parse as the number they group |
| ForecastUtils.ParseNumberStringQuoted | forecast_utils/forecast_utils.cpp:45 | Surrounding a field with CSV quotes does not change its value |
| ForecastUtils.ParseNumberStringSeparator | forecast_utils/forecast_utils.cpp:45 | Inserting a thousands separator anywhere does not change the value |
| ForecastUtils.NextDayString | forecast_utils/forecast_utils.cpp:93-102 | The result is always a weekday name; weekday i goes to weekday (i + 1) mod 7, and any other text goes to "Monday" |
| ForecastUtils.IndexAfter | forecast_utils/forecast_utils.cpp:93-102 | k successor steps from position i land on (i + k) mod 7 |
| ForecastUtils.IterateTable | forecast_utils/forecast_utils.cpp:93-102 | A step that moves one place along a 7-entry table moves k places when applied k times |
| ForecastUtils.DaysAfterNameIndex | forecast_utils/forecast_utils.cpp:93-102 | k applications of `nextDayString` to weekday i give weekday (i + k) mod 7 |
| ForecastUtils.WeekCycles | forecast_utils/forecast_utils.cpp:93-102 | A whole number of weeks later it is the same weekday |
| ForecastUtils.NextDayTimeT | forecast_utils/forecast_utils.cpp:107-109 | One day later is exactly 86400 seconds later, so strictly later |
| ForecastUtils.DaysLater | forecast_utils/forecast_utils.cpp:107-109 | k steps of `nextDayTimeT` add exactly k × 86400 seconds |
| ForecastUtils.JoinAppend | forecast_utils/forecast_utils.cpp:62-66 | Printing two non-empty runs joins their texts with exactly one separator |
| ForecastUtils.JoinLength | forecast_utils/forecast_utils.cpp:62-66 | The joined text is the elements plus one separator between each neighbouring pair |
| ForecastUtils.PrintVectorLength | forecast_utils/forecast_utils.cpp:60-69 | The printed length is the elements, n - 1 separators and the two brackets |
| ForecastUtils.WriteVector | forecast_utils/forecast_utils.cpp:60-69 | The element-by-element loop writes `[`, the elements separated by `sep`, and `]` after what the stream held |
| ForecastUtils.PrintVectorDefaultExample | forecast_utils/forecast_utils.h:37 | With the default separator `", "`, the strings a, b, c print as `[a, b, c]` |
| DatasetValues.ParseNumberString | dataset/dataset_value/DatasetValue.cpp:38-49 | With only `,` dropped: the result is the `stoi` of the filtered text when that succeeds, and 0 when it fails |
| DatasetValues.ParseNumberStringGrouped | dataset/dataset_value/DatasetValue.cpp:38-49 | "1,234" and similar parse as the number they group |
| DatasetValues.PrintedCount | dataset/dataset_value/DatasetValue.cpp:38-49 | A printed int parses as itself |
| DatasetValues.ParseNumberStringQuotedIsZero | dataset/dataset_value/DatasetValue.cpp:41-42 | Unlike the forecasting copy, this copy keeps quotes, so a field starting with `"` parses as 0 |
| DatasetValues.WithDateString | dataset/dataset_value/DatasetValue.cpp:67-75 | The date-string constructor stores the other fields as given and the date `parseDateString` makes of its text: 0 when the date cannot be read |
| DatasetValues.WithCountStrings | dataset/dataset_value/DatasetValue.cpp:81-89 | The count-string constructor stores day, weekday and date as given, and each count as `parseNumberString` of its text |
| DatasetValues.FromStrings | dataset/dataset_value/DatasetValue.cpp:95-103 | The all-strings constructor stores day and weekday as given, the date `parseDateString` makes of its text (0 when unreadable), and each count as `parseNumberString` of its text |
| DatasetValues.ConstructorsAgree | dataset/dataset_value/DatasetValue.cpp:54-103 | The all-strings constructor is the date-string constructor applied to parsed counts, and also the count-string constructor applied to the parsed date |
| DatasetValues.FromStringsPrinted | dataset/dataset_value/DatasetValue.cpp:95-103 | A row of printed values builds the record of those values, dated `mktime` of the clamped date |
| DatasetValues.SetDay | dataset/dataset_value/DatasetValue.cpp:121 | Sets the day name and leaves every other field alone |
| DatasetValues.SetDayOfWeek | dataset/dataset_value/DatasetValue.cpp:123 | Sets the weekday number and leaves every other field alone |
| DatasetValues.SetDayOfWeekText | dataset/dataset_value/DatasetValue.cpp:125 | Sets the weekday from text through `parseNumberString`, and nothing else |
| DatasetValues.SetDate | dataset/dataset_value/DatasetValue.cpp:127 | Sets the date and leaves every other field alone |
| DatasetValues.SetPageLoads | dataset/dataset_value/DatasetValue.cpp:129 | Sets page loads and leaves every other field alone |
| DatasetValues.SetPageLoadsText | dataset/dataset_value/DatasetValue.cpp:131 | Sets page loads from text through `parseNumberString`, and nothing else |
| DatasetValues.SetUniqueVisitors | dataset/dataset_value/DatasetValue.cpp:133 | Sets unique visitors and leaves every other field alone |
| DatasetValues.SetUniqueVisitorsText | dataset/dataset_value/DatasetValue.cpp:135 | Sets unique visitors from text, and nothing else |
| DatasetValues.SetFirstTimeVisitors | dataset/dataset_value/DatasetValue.cpp:137 | Sets first-time visitors and leaves every other field alone |
| DatasetValues.SetFirstTimeVisitorsText | dataset/dataset_value/DatasetValue.cpp:139 | Sets first-time visitors from text, and nothing else |
| DatasetValues.SetReturningVisitors | dataset/dataset_value/DatasetValue.cpp:141 | Sets returning visitors and leaves every other field alone |
| DatasetValues.SetReturningVisitorsText | dataset/dataset_value/DatasetValue.cpp:143 | Sets returning visitors from text, and nothing else |
| DatasetValues.SetUnchanged | dataset/dataset_value/DatasetValue.cpp:106-143 | Setting a field to what its getter returns changes nothing |
| DatasetValues.SettersCommute | dataset/dataset_value/DatasetValue.cpp:129-143 | Setters of different fields commute, and a text setter is the int setter applied to the parsed text |
| Datasets.AddRow | dataset/dataset/Dataset.cpp:12-14 | `addRow` appends exactly one row at the end and keeps the earlier rows in order |
| Datasets.ClearRows | dataset/dataset/Dataset.cpp:19-21 | `clearRows` leaves no rows |
| Datasets.GetRows | dataset/dataset/Dataset.cpp:28-30 | `getRows` returns the rows that make up the dataset: a dataset of them is the same dataset |
| Datasets.SetRows | dataset/dataset/Dataset.cpp:39-41 | After `setRows`, `getRows` returns exactly the given rows |
| Datasets.AddRowsAppends | dataset/dataset/Dataset.cpp:12-30 | Adding rows one by one appends them, in order, to what `getRows` returned |
| Datasets.AddRowsSetRows | dataset/dataset/Dataset.cpp:12-41 | Clearing and then adding rows one by one equals `setRows` with those rows |
| Datasets.FieldEnd | dataset/dataset/Dataset.cpp:67-74 | The field extent read by `getline(iss, f, ',')`: no comma before it, and a comma at it unless the text ends |
| Datasets.GetField | dataset/dataset/Dataset.cpp:67-74 | `getline` with `,` fails exactly on empty remaining input; otherwise it yields a comma-free field and consumes at least one character |
| Datasets.GetFieldSplits | dataset/dataset/Dataset.cpp:67-74 | The field, the consumed comma if any, and the rest make up the input |
| Datasets.SplitFields | dataset/dataset/Dataset.cpp:67-74 | The eight chained reads, when they all succeed, yield exactly n fields |
| Datasets.SplitJoinFields | dataset/dataset/Dataset.cpp:67-74 | Comma-free fields joined by commas (non-empty last field, or followed by a comma-led tail) split back into exactly those fields |
| Datasets.TrailingEmptyFieldFails | dataset/dataset/Dataset.cpp:67-74 | A line ending in a comma has one read fewer than its commas suggest, so an empty last field makes the eighth read fail and the line is skipped |
| Datasets.ParseLine | dataset/dataset/Dataset.cpp:64-79 | A line with fewer than eight fields is skipped. Otherwise the row exists exactly when `stoi(dayOfWeek)` succeeds; then it holds that weekday, the day field, the date parsed from field 4 and the counts parsed from fields 5..8, and otherwise the load fails naming that field |
| Datasets.Collect | dataset/dataset/Dataset.cpp:63-80 | No more rows than lines |
| Datasets.CollectAppend | dataset/dataset/Dataset.cpp:63-80 | Loading two runs of lines one after the other gives the first run's rows, then the second's, unless one fails; the earlier failure wins |
| Datasets.CollectOne | dataset/dataset/Dataset.cpp:63-80 | One line adds its row, nothing when skipped, or stops the load with its failure |
| Datasets.CollectNext | dataset/dataset/Dataset.cpp:63-80 | One more successful line adds its row, if any, at the end |
| Datasets.CollectStops | dataset/dataset/Dataset.cpp:76 | The first line whose `stoi` fails ends the whole load with that failure, whatever follows |
| Datasets.FromCsv | dataset/dataset/Dataset.cpp:57-83 | The header alone, or no lines, gives an empty dataset, whatever it held before; a load has at most one row per body line |
| Datasets.LoadCsv | dataset/dataset/Dataset.cpp:57-83 | The loop that clears, skips the header and pushes row by row computes `FromCsv` |
| Datasets.CollectLoop | dataset/dataset/Dataset.cpp:63-80 | The source's while-loop computes the line-by-line collection, stopping at the first failure |
| Datasets.FromCsvOneLine | dataset/dataset/Dataset.cpp:57-83 | A header plus one well-formed line loads as exactly the record the all-strings constructor builds from fields 1..7 |
| Datasets.FromCsvBadDayOfWeek | dataset/dataset/Dataset.cpp:76 | A well-formed line whose weekday field is not a number makes the load fail, naming that field |
| Datasets.FromCsvIgnoresHeader | dataset/dataset/Dataset.cpp:58-62 | The result depends neither on the header line nor on the rows held before |
| Datasets.FromCsvAppend | dataset/dataset/Dataset.cpp:63-80 | Loading more lines after a successful load appends their rows in order, or fails with their first failure |

## Left out

- Key files: the `SeedKey(filePath)` and `SeedCryptor(keyFilePath)` constructors read a key from disk (crypt/crypt.cpp:182-219, 254-256). File I/O is not modelled.
- Randomness: the IV from `generateIV` (crypt/crypt.cpp:462-473) is a parameter of every encryption. The random device and its distribution are not modelled.
- The substitution tables SS0..SS3 and the constants KC are copied verbatim. No property depends on their values, and G and F are not checked against published test vectors.
- `addPadding`'s `paddingSize == 0` branch (crypt/crypt.cpp:432-434) cannot be reached: `BLOCK_SIZE - n % BLOCK_SIZE` is always 1..16. Pkcs7.PadLength keeps the branch and proves it unreachable.
- Exceptions: the `std::runtime_error`s of `decryptToBytes` and `removePadding` are `Failure` values, and their messages are not kept.
- `std::stoi` and `istream >> int` are modelled as:
  - skip C-locale whitespace;
  - read an optional sign, then the longest run of digits;
  - fail when no digit follows or the value does not fit 32 bits.
  
  Hexadecimal prefixes, locales and `errno` are not modelled.
- TextParse, ForecastUtils, DatasetValues, Datasets: text is a sequence of characters, not of bytes as in `std::string`. The two agree on ASCII input; multi-byte encodings are not modelled.
- `mktime` is a function parameter, since the time zone and the C library's normalisation of out-of-range days cannot be modelled.
- `Datasets.FromCsv`: the file is given as its lines. Opening, reading, and `std::getline` on a file are left out. An unopenable file is the empty list of lines.
- `Datasets.FromCsv`: the source does not catch the exception from `stoi(dayOfWeek)` (dataset/dataset/Dataset.cpp:76). The model ends the load with `BadDayOfWeek`, and the rows pushed so far are not kept.
- `ForecastUtils.NextDayTimeT`: signed overflow of `time_t` is undefined behaviour. The caller must keep the result in the 64-bit range.
- Stream output: `operator<<` for vectors (forecast_utils/forecast_utils.cpp:74-77) and for `Dataset` and `DatasetValue` are not modelled. `printVector`'s element output is the parameter `show`.
- `parseArgs`, the forecasting model (forecast/forecast.cpp) and `main.cpp` are not part of this model.
- Cbc.EncryptBlocks: the loops walk the remaining suffix rather than a byte index `i`. The step is still one 16-byte block.
- Cbc.DecryptBlocks: the loop has the same shape as `Cbc.EncryptBlocks`.
