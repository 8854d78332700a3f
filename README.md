# RskJ storage-side codecs and caches in Dafny

This project models four small parts of the RskJ blockchain node and proves their
properties.

- **Trie key-symbol codec** (`TrieImpl.bytesToKey`, module `TrieKey`). A key of bytes
  is split into trie symbols of log2(arity) bits each. Bits are taken most significant
  first, and bytes stay in their original order. The arities handled are 2, 4, 16 and
  256. Any other arity is a `ConfigurationError` of the checked entry point
  `CheckedBytesToKey`. Java returns the symbols as a `byte[]`; here they are natural
  numbers, each below the arity, so every symbol fits a byte.
- **Write-back details cache** (`DetailsDataStore`, module `DetailsStore`). It is a
  class with two fields:
  - `cache`: a map from key to `Option<Details>`, where `None` marks a removal not yet
    flushed;
  - `db`: a map from key to `Details`, standing in for the backing `DatabaseImpl`.

  `get` reads the cache first and then the database. A database hit is put into the
  cache. `update` and `remove` change only the cache. `flush` walks the cache one key
  at a time: it writes resident entries, deletes removed keys, and then evicts the
  removal markers.
- **Block header** (`org.ethereum.core.BlockHeader`, modules `Header` and
  `UnsignedBytes`). It consists of:
  - the header's nineteen fields, as the value `Header` and the mutable class
    `BlockHeader` with its setters;
  - the `getEncoded(withMergedMiningFields)` layout: one item per field, 16 items, or
    19 when the merged-mining fields are asked for and present;
  - the `BlockHeader(RLPList)` decoder, with its defaults;
  - `hasMiningFields`, `getUnclesEncoded` and `getPowBoundary`.

  An RLP item is modelled as what `getRLPData()` gives back: `None` (Java null) or a
  non-empty byte string. RLP writes null and the empty array alike, and reads both back
  as null; `Element` expresses this. Numbers are unsigned big-endian byte strings, and
  zero is the empty item. The decoder's `longValue()` and `intValue()` are
  two's-complement truncations, written out in `UnsignedBytes.LongValue` and
  `UnsignedBytes.IntValue`. `EMPTY_TRIE_HASH` is the 32-byte constant. The proofs use
  only the fact that it is not empty.

  `getEncoded()` is `GetEncoded(true)`, and `getEncodedWithoutNonceMergedMiningFields()`
  is `GetEncoded(false)`.
- **Peer event scoring** (`PeerScoring`, module `Scoring`). It has one counter per
  event type and a running total. The class invariant `Valid()` says that the total is
  the sum of the counters.

`Wrappers` holds `Option` and `Result`.

The implementations of `TrieImpl.bytesToKey`, `DetailsDataStore` and `PeerScoring` are
not part of this model. Their behaviour is taken from their unit tests, which the table
cites, and from the documented contract of the details store.

The model reads that contract of `DetailsDataStore` as these rules:
- `get` returns the cached entry (absence for a removed key), and otherwise loads from
  the database and caches the result.
- `update` overwrites any prior state, including a removal.
- `flush` persists the written entries, deletes the removed keys, and leaves every
  `get` result unchanged. Flushing again is harmless, so a retried flush is safe.

Two further points about what the model accepts:
- Arity. A byte must hold a whole number of log2(arity)-bit symbols, so the model
  accepts only the arities 2, 4, 16 and 256. Arities 1, 8, 32, 64 and 128 are powers of
  two, but 8 / log2(arity) is not a whole number for them, and the model rejects them
  with `ConfigurationError`, as it does zero and every non-power of two. The tests use
  only the arities 2, 16 and 4, so this rejection is the model's own choice.
- The 17-item header list. In the decoder (`BlockHeader.java`, lines 138-148) the
  `r++` index makes a 17-item list read a missing item 17. The model keeps this
  failure: `Decode` errs exactly when there are fewer than 15 items or exactly 17.

## Model

| member | source | states |
|---|---|---|
| TrieKey.BytesToKey | rskj-core/src/test/java/co/rsk/trie/TrieImplTest.java:30-32 | a key of N bytes gives N * (8 / log2 arity) symbols, and every symbol is below the arity |
| TrieKey.CheckedBytesToKey | rskj-core/src/test/java/co/rsk/trie/TrieImplTest.java:30-32 | the result is a ConfigurationError exactly when the arity is not 2, 4, 16 or 256; otherwise it is the symbol sequence |
| TrieKey.SymbolCount | rskj-core/src/test/java/co/rsk/trie/TrieImplTest.java:30-32 | symbols times bits per symbol equals 8 times the key length (8, 2 and 4 symbols for one byte at arity 2, 16 and 4) |
| TrieKey.BytesToKeyAppend | rskj-core/src/test/java/co/rsk/trie/TrieImplTest.java:30-32 | the symbols of a concatenation are the concatenated symbols, so each byte is encoded on its own and in order |
| TrieKey.BytesToKeyAt | rskj-core/src/test/java/co/rsk/trie/TrieImplTest.java:30-32 | the symbols of byte k sit at offset k * (8 / log2 arity) and are that byte's base-arity digits, most significant first |
| TrieKey.ByteReconstruction | rskj-core/src/test/java/co/rsk/trie/TrieImplTest.java:30-32 | reading byte k's symbols as base-arity digits, most significant first, gives back byte k |
| TrieKey.DigitsRoundTrip | rskj-core/src/test/java/co/rsk/trie/TrieImplTest.java:30-32 | n base-arity digits of a value below arity^n read back as that value |
| TrieKey.WholeGroups | rskj-core/src/test/java/co/rsk/trie/TrieImplTest.java:30-32 | the symbol count is always a multiple of the symbols per byte |
| TrieKey.KeyRoundTrip | rskj-core/src/test/java/co/rsk/trie/TrieImplTest.java:30-32 | regrouping the symbols into bytes gives back the original key |
| TrieKey.BytesToKeyInjective | rskj-core/src/test/java/co/rsk/trie/TrieImplTest.java:30-32 | two keys with the same symbols are the same key |
| TrieKey.BinaryExample | rskj-core/src/test/java/co/rsk/trie/TrieImplTest.java:30 | 0xAA at arity 2 gives the bits 1,0,1,0,1,0,1,0 |
| TrieKey.HexExample | rskj-core/src/test/java/co/rsk/trie/TrieImplTest.java:31 | 0xAA at arity 16 gives the nibbles 0x0a, 0x0a |
| TrieKey.QuaternaryExample | rskj-core/src/test/java/co/rsk/trie/TrieImplTest.java:32 | 0xAA at arity 4 gives 2,2,2,2 |
| DetailsStore.Lookup | rskj-core/src/test/java/org/ethereum/db/DetailsDataStoreTest.java:56-63 | get returns the cache entry when there is one (null for a removal); otherwise the database entry, or null when there is none |
| DetailsStore.Committed | rskj-core/src/test/java/org/ethereum/db/DetailsDataStoreTest.java:65-69 | the flushed database holds a key exactly when get returned details for it, and holds those details |
| DetailsStore.Resident | rskj-core/src/test/java/org/ethereum/db/DetailsDataStoreTest.java:103-106 | after flush, the cache keeps exactly its written entries and drops the removal markers |
| DetailsStore.FlushTransparent | rskj-core/src/test/java/org/ethereum/db/DetailsDataStoreTest.java:65-69 | every key reads the same through the flushed cache and database as it did before flush |
| DetailsStore.FlushIdempotent | rskj-core/src/test/java/org/ethereum/db/DetailsDataStoreTest.java:65 | a second flush changes neither the database nor the cache, so retrying a flush is safe |
| DetailsStore.FlushCommits | rskj-core/src/test/java/org/ethereum/db/DetailsDataStoreTest.java:103-106 | after flush, a removed key is absent from the database, a written key holds its details, and other keys are as before |
| DetailsStore.CommitStep | rskj-core/src/test/java/org/ethereum/db/DetailsDataStoreTest.java:103 | committing one more key puts its details into the partly flushed database, or deletes the key for a removal |
| DetailsStore.DetailsDataStore.constructor | rskj-core/src/test/java/org/ethereum/db/DetailsDataStoreTest.java:43 | a new store has an empty cache and an empty database |
| DetailsStore.DetailsDataStore.SetDB | rskj-core/src/test/java/org/ethereum/db/DetailsDataStoreTest.java:44 | the store switches to the given database and keeps its cache |
| DetailsStore.DetailsDataStore.Get | rskj-core/src/test/java/org/ethereum/db/DetailsDataStoreTest.java:58 | returns Lookup of the key; a database hit is cached; no key's get result changes |
| DetailsStore.DetailsDataStore.Update | rskj-core/src/test/java/org/ethereum/db/DetailsDataStoreTest.java:56 | the key now reads as the new details, whatever it was before; every other key reads as before |
| DetailsStore.DetailsDataStore.Remove | rskj-core/src/test/java/org/ethereum/db/DetailsDataStoreTest.java:98 | the key now reads as null while the database is untouched; every other key reads as before |
| DetailsStore.DetailsDataStore.Flush | rskj-core/src/test/java/org/ethereum/db/DetailsDataStoreTest.java:65 | the database becomes Committed of the old state, the cache becomes Resident, and no key's get result changes |
| DetailsStore.UpdateGetFlushGet | rskj-core/src/test/java/org/ethereum/db/DetailsDataStoreTest.java:41-70 | details read back equal to what was updated, before and after flush |
| DetailsStore.UpdateRemoveFlush | rskj-core/src/test/java/org/ethereum/db/DetailsDataStoreTest.java:72-107 | after update then remove, get returns null, and still null after flush |
| DetailsStore.RemoveThenUpdate | rskj-core/src/test/java/org/ethereum/db/DetailsDataStoreTest.java:109-146 | an update after a removal is read back, before and after flush |
| DetailsStore.GetUnknown | rskj-core/src/test/java/org/ethereum/db/DetailsDataStoreTest.java:148-159 | a fresh store over an empty database returns null |
| UnsignedBytes.Value | rskj-core/src/main/java/org/ethereum/core/BlockHeader.java:127 | `new BigInteger(1, bytes)` is below 256 to the number of bytes |
| UnsignedBytes.Minimal | rskj-core/src/main/java/org/ethereum/core/BlockHeader.java:362 | the encoding of a number is empty exactly for zero and otherwise has no leading zero byte |
| UnsignedBytes.Fixed | rskj-core/src/main/java/org/ethereum/core/BlockHeader.java:426 | the fixed-width form has exactly the requested length |
| UnsignedBytes.LongValue | rskj-core/src/main/java/org/ethereum/core/BlockHeader.java:127 | `longValue()` is congruent to the value modulo 2^64, and equals it when below 2^63 |
| UnsignedBytes.IntValue | rskj-core/src/main/java/org/ethereum/core/BlockHeader.java:141 | `intValue()` is congruent to the value modulo 2^32, and equals it when below 2^31 |
| UnsignedBytes.ValueOfMinimal | rskj-core/src/main/java/org/ethereum/core/BlockHeader.java:362 | a number written in minimal form reads back as itself |
| UnsignedBytes.MinimalOfValue | rskj-core/src/main/java/org/ethereum/core/BlockHeader.java:127 | bytes without a leading zero are the minimal form of their value |
| UnsignedBytes.ValueOfFixed | rskj-core/src/main/java/org/ethereum/core/BlockHeader.java:426 | a number below 256^len written in len bytes reads back as itself |
| Header.Scalar | rskj-core/src/main/java/org/ethereum/core/BlockHeader.java:362-373 | `RLP.encodeBigInteger(BigInteger.valueOf(n))` of a non-negative number is the empty item (read back as null) exactly for zero, and otherwise starts with a non-zero byte |
| Header.ScalarValue | rskj-core/src/main/java/org/ethereum/core/BlockHeader.java:127-141 | a null item reads as 0, and a present item is below 256 to its length |
| Header.HasMiningFields | rskj-core/src/main/java/org/ethereum/core/BlockHeader.java:401-412 | holds exactly when one of the three merged-mining fields encodes to a non-null item |
| Header.Element | rskj-core/src/main/java/org/ethereum/core/BlockHeader.java:347 | an item read back is null or a non-empty byte string |
| Header.RootOrEmpty | rskj-core/src/main/java/org/ethereum/core/BlockHeader.java:107-117 | a decoded root is never null |
| Header.WithDefaultRoots | rskj-core/src/main/java/org/ethereum/core/BlockHeader.java:354-358 | after getEncoded, the transaction and receipt roots are not null |
| Header.Encode | rskj-core/src/main/java/org/ethereum/core/BlockHeader.java:346-387 | the encoding has 19 items when merged-mining fields are asked for and hasMiningFields holds, and 16 otherwise |
| Header.Decode | rskj-core/src/main/java/org/ethereum/core/BlockHeader.java:103-149 | decoding fails exactly for fewer than 15 items or exactly 17, and every decoded root is non-null |
| Header.DecodeLayout | rskj-core/src/main/java/org/ethereum/core/BlockHeader.java:138-148 | item 15 is the uncle count only for 16 or 19 items (else 0); the merged-mining fields come from items 16-18 for 19 items, from items 15-17 for 18 or 20 or more items, and are null otherwise |
| Header.DecodeDefaults | rskj-core/src/main/java/org/ethereum/core/BlockHeader.java:107-136 | missing roots become EMPTY_TRIE_HASH; missing number, gasUsed, timestamp and paidFees become 0; present ones are unsigned big-endian truncated to a long |
| Header.ScalarRoundTrip | rskj-core/src/main/java/org/ethereum/core/BlockHeader.java:362 | a non-negative number encoded and read back is unchanged |
| Header.DecodeEncode | rskj-core/src/main/java/org/ethereum/core/BlockHeader.java:346-387 | decoding an encoding succeeds and gives back every field; empty arrays read back as null, null roots as EMPTY_TRIE_HASH, and merged-mining fields only when written |
| Header.CanonicalRoundTrip | rskj-core/src/main/java/org/ethereum/core/BlockHeader.java:103-149 | a header in decoded form is recovered exactly from getEncoded(true), and from getEncoded(false) without its merged-mining fields |
| Header.EncodeIgnoresDefaultRoots | rskj-core/src/main/java/org/ethereum/core/BlockHeader.java:354-358 | filling in the default roots does not change the encoding, so encoding twice gives the same list |
| Header.PowBoundary | rskj-core/src/main/java/org/ethereum/core/BlockHeader.java:425-427 | succeeds exactly when the difficulty is present and at least 2, giving 32 bytes whose value is floor(2^256 / difficulty); null, 0 and 1 are the three errors |
| Header.BoundaryFits | rskj-core/src/main/java/org/ethereum/core/BlockHeader.java:425-427 | a quotient of 2^256 by 2 or more, written in 32 bytes, reads back as that quotient |
| Header.UnitDifficultyOverflows | rskj-core/src/main/java/org/ethereum/core/BlockHeader.java:425-427 | a difficulty of 1 fails, because 2^256 does not fit in 32 bytes |
| Header.BlockHeader.FromRlp | rskj-core/src/main/java/org/ethereum/core/BlockHeader.java:103-149 | the object's fields are Decode of the items |
| Header.BlockHeader.constructor | rskj-core/src/main/java/org/ethereum/core/BlockHeader.java:151-171 | fields as given; state and receipt roots EMPTY_TRIE_HASH; transaction root and merged-mining fields null; paidFees 0 |
| Header.BlockHeader.WithMergedMining | rskj-core/src/main/java/org/ethereum/core/BlockHeader.java:173-198 | fields as given, merged-mining fields included; state and receipt roots EMPTY_TRIE_HASH; transaction root null; paidFees 0 |
| Header.BlockHeader.GetEncoded | rskj-core/src/main/java/org/ethereum/core/BlockHeader.java:346-387 | fills in null transaction and receipt roots, and returns Encode of the header as it was |
| Header.BlockHeader.SetUncleCount | rskj-core/src/main/java/org/ethereum/core/BlockHeader.java:212-214 | only the uncle count changes |
| Header.BlockHeader.SetUnclesHash | rskj-core/src/main/java/org/ethereum/core/BlockHeader.java:220-222 | only the uncles hash changes |
| Header.BlockHeader.SetCoinbase | rskj-core/src/main/java/org/ethereum/core/BlockHeader.java:228-230 | only the coinbase changes |
| Header.BlockHeader.SetStateRoot | rskj-core/src/main/java/org/ethereum/core/BlockHeader.java:236-238 | only the state root changes |
| Header.BlockHeader.SetReceiptsRoot | rskj-core/src/main/java/org/ethereum/core/BlockHeader.java:244-246 | only the receipt root changes |
| Header.BlockHeader.SetTransactionsRoot | rskj-core/src/main/java/org/ethereum/core/BlockHeader.java:252-254 | only the transaction root changes |
| Header.BlockHeader.SetDifficulty | rskj-core/src/main/java/org/ethereum/core/BlockHeader.java:270-272 | only the difficulty changes |
| Header.BlockHeader.SetTimestamp | rskj-core/src/main/java/org/ethereum/core/BlockHeader.java:278-280 | only the timestamp changes |
| Header.BlockHeader.SetNumber | rskj-core/src/main/java/org/ethereum/core/BlockHeader.java:286-288 | only the number changes |
| Header.BlockHeader.SetGasLimit | rskj-core/src/main/java/org/ethereum/core/BlockHeader.java:294-296 | only the gas limit changes |
| Header.BlockHeader.SetPaidFees | rskj-core/src/main/java/org/ethereum/core/BlockHeader.java:302-304 | only the paid fees change |
| Header.BlockHeader.SetGasUsed | rskj-core/src/main/java/org/ethereum/core/BlockHeader.java:310-312 | only the gas used changes |
| Header.BlockHeader.SetLogsBloom | rskj-core/src/main/java/org/ethereum/core/BlockHeader.java:318-320 | only the logs bloom changes |
| Header.BlockHeader.SetExtraData | rskj-core/src/main/java/org/ethereum/core/BlockHeader.java:322-324 | only the extra data changes |
| Header.BlockHeader.SetMinimumGasPrice | rskj-core/src/main/java/org/ethereum/core/BlockHeader.java:342-344 | only the minimum gas price changes |
| Header.BlockHeader.SetBitcoinMergedMiningHeader | rskj-core/src/main/java/org/ethereum/core/BlockHeader.java:476-478 | only the merged-mining header changes |
| Header.BlockHeader.SetBitcoinMergedMiningMerkleProof | rskj-core/src/main/java/org/ethereum/core/BlockHeader.java:484-486 | only the merged-mining Merkle proof changes |
| Header.BlockHeader.SetBitcoinMergedMiningCoinbaseTransaction | rskj-core/src/main/java/org/ethereum/core/BlockHeader.java:492-494 | only the merged-mining coinbase transaction changes |
| Header.EncodeUncle | rskj-core/src/main/java/org/ethereum/core/BlockHeader.java:419-420 | one uncle's getEncoded() is the encoding of its initial value, whether or not its roots were already filled in |
| Header.UnclesEncoded | rskj-core/src/main/java/org/ethereum/core/BlockHeader.java:414-423 | entry i is the encoding of uncle i as it was on entry, and every uncle ends with its roots filled in, even if it is listed twice |
| Scoring.SumRemove | rskj-core/src/test/java/co/rsk/scoring/PeerScoringTest.java:47-55 | the sum of the counters is any one counter plus the sum of the rest |
| Scoring.SumUpdate | rskj-core/src/test/java/co/rsk/scoring/PeerScoringTest.java:23-27 | setting one counter changes the sum by exactly the difference |
| Scoring.SumOfTypes | rskj-core/src/test/java/co/rsk/scoring/PeerScoringTest.java:53-55 | the sum of the counters is the invalid-block count plus the invalid-transaction count |
| Scoring.PeerScoring.constructor | rskj-core/src/test/java/co/rsk/scoring/PeerScoringTest.java:12-16 | a new scoring satisfies the invariant, with every counter and the total at 0 |
| Scoring.CountBelowSum | rskj-core/src/test/java/co/rsk/scoring/PeerScoringTest.java:53-55 | no counter exceeds the sum of the counters |
| Scoring.PeerScoring.GetEventCounter | rskj-core/src/test/java/co/rsk/scoring/PeerScoringTest.java:14-15 | a type never recorded counts 0, and under the invariant no counter exceeds the total |
| Scoring.PeerScoring.GetTotalEventCounter | rskj-core/src/test/java/co/rsk/scoring/PeerScoringTest.java:53-55 | under the invariant, the total equals the two per-type counters added |
| Scoring.PeerScoring.RecordEvent | rskj-core/src/test/java/co/rsk/scoring/PeerScoringTest.java:23-27 | keeps the invariant, raises the event's counter and the total by exactly 1, and leaves the other counters unchanged |
| Scoring.PeerScoring.RecordRepeatedly | rskj-core/src/test/java/co/rsk/scoring/PeerScoringTest.java:34-36 | recording one type n times raises its counter and the total by n, and leaves the other counters unchanged |
| Scoring.NewScoring | rskj-core/src/test/java/co/rsk/scoring/PeerScoringTest.java:11-17 | both counters and the total are 0 |
| Scoring.RecordOne | rskj-core/src/test/java/co/rsk/scoring/PeerScoringTest.java:19-28 | one invalid block gives counters 1 and 0 and a total of 1 |
| Scoring.RecordMany | rskj-core/src/test/java/co/rsk/scoring/PeerScoringTest.java:30-41 | n events of one type give that counter n, the other 0, and a total of n (3 in the test) |
| Scoring.RecordMixed | rskj-core/src/test/java/co/rsk/scoring/PeerScoringTest.java:43-56 | three invalid blocks and two invalid transactions give 3, 2 and a total of 5 |

## Left out

- Hashing: `getHash` and `getHashForMergedMining` (Keccak-256 over the encoding) are foreign cryptographic calls.
- The byte-level RLP format: `RLP.encodeElement`, `encodeList` and `decode2` are not part of this model. The `BlockHeader(byte[])` constructor, which only decodes the bytes and then calls the list decoder, is left out with them.
- `calcDifficulty` depends on global configuration and on consensus code that is not part of this model.
- `isGenesis` depends on `Genesis.NUMBER`, which is not part of this model.
- Display: `toString`, `toFlatString`, `getShortHashForMergedMining` and the hex formatting they use.
- Simple getters: they are the fields of `BlockHeader.Fields()`. `getDifficultyBI` is `Value` of the difficulty, used inside `PowBoundary`.
- `getUnclesEncodedEx` has the same body as `getUnclesEncoded`.
- `getEncodedRaw` and `getRawHash`: their bodies are not part of this model.
- Header.Encode: requires number, gasUsed, timestamp, paidFees and uncleCount to be non-negative, because how `RLP.encodeBigInteger` writes a negative number is not part of this model.
- Header.BlockHeader.GetEncoded, Header.EncodeUncle and Header.UnclesEncoded: carry the same requirement of non-negative scalars as `Header.Encode`, for the same reason.
- Header.Element: the length prefixes and the list header that RLP adds are not modelled. Items are compared by content.
- Header.UnclesEncoded: returns the list of per-uncle item lists. The outer `RLP.encodeList` is not modelled.
- Scoring.EventType: holds exactly the two event types the tests record, invalid block and invalid transaction. The enum's own source is not part of this model. `SumOfTypes` and the contract of `GetTotalEventCounter` rely on there being just these two; `Sum`, `SumRemove`, `SumUpdate` and `RecordEvent` do not.
- Scoring.PeerScoring.RecordEvent: counters and the total are unbounded. Java's `int` wrap-around after 2^31 - 1 events is not modelled, because the `PeerScoring` implementation (and so its counter width) is not part of this model.
- DetailsStore.DetailsDataStore.Flush: flush writes every resident entry, including ones only loaded by `get`. The contract's Clean and Dirty entry states are not distinguished. Loaded entries equal the database's own values unless `setDB` switched databases under a warm cache.
- DetailsStore.DetailsDataStore.Flush: a failing backend write and the locking around flush are not modelled. Database writes cannot fail in this model.
- `ContractDetails` internals (code, storage, address and their encoding): details are opaque values compared by equality. `randomAddress()` is test-only randomness.
- The trie itself (nodes, put, get, delete, root hashing, the node store): none of its source is part of this model. Only `bytesToKey` is modelled.
