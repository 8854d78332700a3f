/**
 * The block header (org.ethereum.core.BlockHeader): its field set, the
 * layout of its RLP list (16 items, or 19 with the merged-mining fields),
 * the decoder that reads such a list back with defaults for missing values,
 * and the proof-of-work boundary derived from the difficulty.
 *
 * The RLP byte format itself is abstract here: a header is encoded to an
 * ordered list of items, one per field, each item being what
 * `RLPItem.getRLPData()` returns for it.
 */
module Header {
  import opened Wrappers
  import opened UnsignedBytes

  type Bytes = seq<byte>

  /** A nullable `byte[]` field. */
  type Field = Option<Bytes>

  /** One element of the header's RLP list, as `getRLPData()` returns it:
      null for an empty byte string. */
  type Item = Option<Bytes>

  /** HashUtil.EMPTY_TRIE_HASH, the root hash of a trie with no entries (the
      Keccak-256 digest of the RLP empty string). Proofs use only that it is
      not empty. */
  const EMPTY_TRIE_HASH: Bytes := [
    0x56, 0xe8, 0x1f, 0x17, 0x1b, 0xcc, 0x55, 0xa6, 0xff, 0x83, 0x45, 0xe6, 0x92, 0xc0, 0xf8, 0x6e,
    0x5b, 0x48, 0xe0, 0x1b, 0x99, 0x6c, 0xad, 0xc0, 0x01, 0x62, 0x2f, 0xb5, 0xe3, 0x63, 0xb4, 0x21]

  /** The values a header holds, in the order of its RLP list. */
  datatype Header = Header(
    parentHash: Field,
    unclesHash: Field,
    coinbase: Field,
    stateRoot: Field,
    txTrieRoot: Field,
    receiptTrieRoot: Field,
    logsBloom: Field,
    difficulty: Field,
    number: Long,
    gasLimit: Field,
    gasUsed: Long,
    timestamp: Long,
    extraData: Field,
    paidFees: Long,
    minimumGasPrice: Field,
    uncleCount: Int32,
    bitcoinMergedMiningHeader: Field,
    bitcoinMergedMiningMerkleProof: Field,
    bitcoinMergedMiningCoinbaseTransaction: Field)

  /** `rlpHeader.get(index)` beyond the end of the list. */
  datatype DecodeError = MissingItem(index: nat)

  /** The exceptions of getPowBoundary: a null difficulty, a zero difficulty
      (division by zero), and a quotient that does not fit in 32 bytes. */
  datatype PowError = NullDifficulty | DivisionByZero | LengthExceeded

  // ---------------------------------------------------------------------------
  // Items

  /** `RLP.encodeElement(f)` read back with `getRLPData()`: null and the empty
      array both become the empty string, which reads back as null. */
  function Element(f: Field): (i: Item)
    ensures i.Some? ==> i.value != []
  {
    if f.Some? && f.value != [] then f else None
  }

  /** `RLP.encodeBigInteger(BigInteger.valueOf(n))` for n >= 0: zero is the
      empty string, any other value its minimal unsigned big-endian bytes. */
  function Scalar(n: int): (i: Item)
    requires n >= 0
    ensures i.None? <==> n == 0
    ensures i.Some? ==> i.value != [] && i.value[0] != 0
  {
    Element(Some(Minimal(n)))
  }

  /** `new BigInteger(1, bytes)` of a scalar item, a null item counting as 0. */
  function ScalarValue(i: Item): (v: nat)
    ensures i.None? ==> v == 0
    ensures i.Some? ==> v < Pow256(|i.value|)
  {
    if i.None? then 0 else Value(i.value)
  }

  /** A trie root read from an item: null becomes EMPTY_TRIE_HASH. */
  function RootOrEmpty(i: Item): (f: Field)
    ensures f.Some?
  {
    if i.None? then Some(EMPTY_TRIE_HASH) else i
  }

  predicate NonEmpty(f: Field) {
    f.Some? && |f.value| > 0
  }

  /** hasMiningFields(): some merged-mining field is non-null and non-empty,
      that is, some merged-mining field encodes to a non-empty item. */
  predicate HasMiningFields(h: Header): (b: bool)
    ensures b <==> (Element(h.bitcoinMergedMiningHeader).Some?
                    || Element(h.bitcoinMergedMiningMerkleProof).Some?
                    || Element(h.bitcoinMergedMiningCoinbaseTransaction).Some?)
  {
    NonEmpty(h.bitcoinMergedMiningCoinbaseTransaction)
    || NonEmpty(h.bitcoinMergedMiningHeader)
    || NonEmpty(h.bitcoinMergedMiningMerkleProof)
  }

  /** The scalars RLP.encodeBigInteger is given are non-negative. */
  predicate Encodable(h: Header) {
    h.number >= 0 && h.gasUsed >= 0 && h.timestamp >= 0 && h.paidFees >= 0 && h.uncleCount >= 0
  }

  /** The side effect of getEncoded: a null transaction or receipt root is
      set to EMPTY_TRIE_HASH. */
  function WithDefaultRoots(h: Header): (d: Header)
    ensures d.txTrieRoot.Some? && d.receiptTrieRoot.Some?
  {
    h.(txTrieRoot := if h.txTrieRoot.None? then Some(EMPTY_TRIE_HASH) else h.txTrieRoot,
       receiptTrieRoot := if h.receiptTrieRoot.None? then Some(EMPTY_TRIE_HASH) else h.receiptTrieRoot)
  }

  // ---------------------------------------------------------------------------
  // Encoding and decoding

  /** getEncoded(withMergedMiningFields) as a list of items: the fifteen
      fields from parentHash to minimumGasPrice, the uncle count, and the
      three merged-mining fields when asked for and present. */
  function Encode(h: Header, withMergedMiningFields: bool): (items: seq<Item>)
    requires Encodable(h)
    ensures |items| == if withMergedMiningFields && HasMiningFields(h) then 19 else 16
  {
    var d := WithDefaultRoots(h);
    var fixed := [
      Element(d.parentHash), Element(d.unclesHash), Element(d.coinbase),
      Element(d.stateRoot), Element(d.txTrieRoot), Element(d.receiptTrieRoot),
      Element(d.logsBloom), Element(d.difficulty), Scalar(d.number),
      Element(d.gasLimit), Scalar(d.gasUsed), Scalar(d.timestamp),
      Element(d.extraData), Scalar(d.paidFees), Element(d.minimumGasPrice),
      Scalar(d.uncleCount)];
    if withMergedMiningFields && HasMiningFields(d) then
      fixed + [Element(d.bitcoinMergedMiningHeader), Element(d.bitcoinMergedMiningMerkleProof),
               Element(d.bitcoinMergedMiningCoinbaseTransaction)]
    else fixed
  }

  /** The BlockHeader(RLPList) constructor: items 0-14 are read in order; item
      15 is the uncle count only for a list of 16 or 19 items; the three
      merged-mining fields follow if any items remain. */
  function Decode(items: seq<Item>): (r: Result<Header, DecodeError>)
    ensures r.Err? <==> |items| < 15 || |items| == 17
    ensures r.Ok? ==> r.value.stateRoot.Some? && r.value.txTrieRoot.Some? && r.value.receiptTrieRoot.Some?
  {
    if |items| < 15 then Err(MissingItem(|items|))
    else
      var withUncleCount := |items| == 16 || |items| == 19;
      var r := if withUncleCount then 16 else 15;
      if r < |items| < r + 3 then Err(MissingItem(|items|))
      else
        var merged := |items| > r;
        Ok(Header(
          items[0], items[1], items[2],
          RootOrEmpty(items[3]), RootOrEmpty(items[4]), RootOrEmpty(items[5]),
          items[6], items[7], LongValue(ScalarValue(items[8])),
          items[9], LongValue(ScalarValue(items[10])), LongValue(ScalarValue(items[11])),
          items[12], LongValue(ScalarValue(items[13])), items[14],
          if withUncleCount then IntValue(ScalarValue(items[15])) else 0,
          if merged then items[r] else None,
          if merged then items[r + 1] else None,
          if merged then items[r + 2] else None))
  }

  /** Where the decoder finds the uncle count and the merged-mining fields. */
  lemma DecodeLayout(items: seq<Item>)
    requires Decode(items).Ok?
    ensures var h := Decode(items).value;
      && (|items| == 16 || |items| == 19 ==> h.uncleCount == IntValue(ScalarValue(items[15])))
      && (|items| != 16 && |items| != 19 ==> h.uncleCount == 0)
      && (|items| <= 16 ==>
            h.bitcoinMergedMiningHeader.None? && h.bitcoinMergedMiningMerkleProof.None?
            && h.bitcoinMergedMiningCoinbaseTransaction.None?)
      && (|items| == 19 ==>
            [h.bitcoinMergedMiningHeader, h.bitcoinMergedMiningMerkleProof,
             h.bitcoinMergedMiningCoinbaseTransaction] == items[16..19])
      && (|items| == 18 || |items| >= 20 ==>
            [h.bitcoinMergedMiningHeader, h.bitcoinMergedMiningMerkleProof,
             h.bitcoinMergedMiningCoinbaseTransaction] == items[15..18])
  {
  }

  /** Missing numbers read as zero, present ones as unsigned big-endian
      integers truncated to a long; missing roots read as EMPTY_TRIE_HASH. */
  lemma DecodeDefaults(items: seq<Item>)
    requires Decode(items).Ok?
    ensures var h := Decode(items).value;
      && (items[3].None? ==> h.stateRoot == Some(EMPTY_TRIE_HASH))
      && (items[4].None? ==> h.txTrieRoot == Some(EMPTY_TRIE_HASH))
      && (items[5].None? ==> h.receiptTrieRoot == Some(EMPTY_TRIE_HASH))
      && (items[8].None? ==> h.number == 0)
      && (items[10].None? ==> h.gasUsed == 0)
      && (items[11].None? ==> h.timestamp == 0)
      && (items[13].None? ==> h.paidFees == 0)
      && (items[8].Some? ==> h.number == LongValue(Value(items[8].value)))
      && (items[10].Some? ==> h.gasUsed == LongValue(Value(items[10].value)))
      && (items[11].Some? ==> h.timestamp == LongValue(Value(items[11].value)))
      && (items[13].Some? ==> h.paidFees == LongValue(Value(items[13].value)))
  {
  }

  /** A non-negative scalar survives encoding and decoding. */
  lemma ScalarRoundTrip(n: int)
    requires n >= 0
    ensures ScalarValue(Scalar(n)) == n
  {
    ValueOfMinimal(n);
  }

  /** Decoding an encoded header gives back every field, up to the
      normalisations the format imposes: an empty array reads back as null, a
      null root as EMPTY_TRIE_HASH, and the merged-mining fields are present
      only when they were written. */
  lemma DecodeEncode(h: Header, withMergedMiningFields: bool)
    requires Encodable(h)
    ensures Decode(Encode(h, withMergedMiningFields)).Ok?
    ensures var d := Decode(Encode(h, withMergedMiningFields)).value;
      var merged := withMergedMiningFields && HasMiningFields(h);
      && d.parentHash == Element(h.parentHash)
      && d.unclesHash == Element(h.unclesHash)
      && d.coinbase == Element(h.coinbase)
      && d.stateRoot == RootOrEmpty(Element(h.stateRoot))
      && d.txTrieRoot == RootOrEmpty(Element(h.txTrieRoot))
      && d.receiptTrieRoot == RootOrEmpty(Element(h.receiptTrieRoot))
      && d.logsBloom == Element(h.logsBloom)
      && d.difficulty == Element(h.difficulty)
      && d.number == h.number
      && d.gasLimit == Element(h.gasLimit)
      && d.gasUsed == h.gasUsed
      && d.timestamp == h.timestamp
      && d.extraData == Element(h.extraData)
      && d.paidFees == h.paidFees
      && d.minimumGasPrice == Element(h.minimumGasPrice)
      && d.uncleCount == h.uncleCount
      && d.bitcoinMergedMiningHeader == (if merged then Element(h.bitcoinMergedMiningHeader) else None)
      && d.bitcoinMergedMiningMerkleProof == (if merged then Element(h.bitcoinMergedMiningMerkleProof) else None)
      && d.bitcoinMergedMiningCoinbaseTransaction ==
           (if merged then Element(h.bitcoinMergedMiningCoinbaseTransaction) else None)
  {
    ScalarRoundTrip(h.number);
    ScalarRoundTrip(h.gasUsed);
    ScalarRoundTrip(h.timestamp);
    ScalarRoundTrip(h.paidFees);
    ScalarRoundTrip(h.uncleCount);
    var items := Encode(h, withMergedMiningFields);
    if withMergedMiningFields && HasMiningFields(h) {
      assert |items| == 19;
    } else {
      assert |items| == 16;
    }
  }

  /** A header already in the form the decoder produces: no empty arrays,
      all three roots present, and merged-mining fields either all null or
      carrying data. */
  predicate Canonical(h: Header) {
    && Element(h.parentHash) == h.parentHash
    && Element(h.unclesHash) == h.unclesHash
    && Element(h.coinbase) == h.coinbase
    && NonEmpty(h.stateRoot) && NonEmpty(h.txTrieRoot) && NonEmpty(h.receiptTrieRoot)
    && Element(h.logsBloom) == h.logsBloom
    && Element(h.difficulty) == h.difficulty
    && Element(h.gasLimit) == h.gasLimit
    && Element(h.extraData) == h.extraData
    && Element(h.minimumGasPrice) == h.minimumGasPrice
    && Element(h.bitcoinMergedMiningHeader) == h.bitcoinMergedMiningHeader
    && Element(h.bitcoinMergedMiningMerkleProof) == h.bitcoinMergedMiningMerkleProof
    && Element(h.bitcoinMergedMiningCoinbaseTransaction) == h.bitcoinMergedMiningCoinbaseTransaction
    && (HasMiningFields(h)
        || (h.bitcoinMergedMiningHeader.None? && h.bitcoinMergedMiningMerkleProof.None?
            && h.bitcoinMergedMiningCoinbaseTransaction.None?))
  }

  /** A canonical header is exactly recovered from getEncoded(true), and from
      getEncoded(false) with its merged-mining fields dropped. */
  lemma CanonicalRoundTrip(h: Header)
    requires Encodable(h) && Canonical(h)
    ensures Decode(Encode(h, true)) == Ok(h)
    ensures Decode(Encode(h, false)) == Ok(h.(bitcoinMergedMiningHeader := None,
      bitcoinMergedMiningMerkleProof := None, bitcoinMergedMiningCoinbaseTransaction := None))
  {
    DecodeEncode(h, true);
    DecodeEncode(h, false);
  }

  /** The roots getEncoded fills in do not change the encoding, so encoding
      twice gives the same list. */
  lemma EncodeIgnoresDefaultRoots(h: Header, withMergedMiningFields: bool)
    requires Encodable(h)
    ensures Encodable(WithDefaultRoots(h))
    ensures Encode(WithDefaultRoots(h), withMergedMiningFields) == Encode(h, withMergedMiningFields)
  {
  }

  // ---------------------------------------------------------------------------
  // Proof-of-work boundary

  /** 2^256. */
  const TWO_256: nat := Pow256(32)

  /** getPowBoundary(): 2^256 divided by the difficulty, as 32 unsigned
      big-endian bytes. */
  function PowBoundary(difficulty: Field): (r: Result<Bytes, PowError>)
    ensures r.Ok? <==> difficulty.Some? && Value(difficulty.value) >= 2
    ensures r.Ok? ==> |r.value| == 32 && Value(r.value) == TWO_256 / Value(difficulty.value)
  {
    if difficulty.None? then Err(NullDifficulty)
    else
      var d := Value(difficulty.value);
      if d == 0 then Err(DivisionByZero)
      else if d == 1 then Err(LengthExceeded)
      else
        BoundaryFits(TWO_256, d);
        Ok(Fixed(TWO_256 / d, 32))
  }

  lemma QuotientBelow(n: nat, d: nat)
    requires n >= 1 && d >= 2
    ensures n / d < n
  {
  }

  /** A quotient of 2^256 by at least 2 fits in 32 bytes and reads back as itself. */
  lemma BoundaryFits(n: nat, d: nat)
    requires 1 <= n <= Pow256(32) && d >= 2
    ensures Value(Fixed(n / d, 32)) == n / d
  {
    QuotientBelow(n, d);
    ValueOfFixed(n / d, 32);
  }

  /** A difficulty of one gives 2^256, which needs 33 bytes. */
  lemma UnitDifficultyOverflows()
    ensures TWO_256 / 1 == Pow256(32) && PowBoundary(Some([1])).Err?
  {
  }

  // ---------------------------------------------------------------------------
  // The mutable header object

  class BlockHeader {
    var parentHash: Field
    var unclesHash: Field
    var coinbase: Field
    var stateRoot: Field
    var txTrieRoot: Field
    var receiptTrieRoot: Field
    var logsBloom: Field
    var difficulty: Field
    var timestamp: Long
    var number: Long
    var gasLimit: Field
    var gasUsed: Long
    var paidFees: Long
    var extraData: Field
    var bitcoinMergedMiningHeader: Field
    var bitcoinMergedMiningMerkleProof: Field
    var bitcoinMergedMiningCoinbaseTransaction: Field
    var minimumGasPrice: Field
    var uncleCount: Int32

    /** The current values of all fields. */
    function Fields(): Header
      reads this
    {
      Header(parentHash, unclesHash, coinbase, stateRoot, txTrieRoot, receiptTrieRoot,
             logsBloom, difficulty, number, gasLimit, gasUsed, timestamp, extraData, paidFees,
             minimumGasPrice, uncleCount, bitcoinMergedMiningHeader, bitcoinMergedMiningMerkleProof,
             bitcoinMergedMiningCoinbaseTransaction)
    }

    /** The BlockHeader(RLPList) constructor, stepping an index through the list. */
    constructor FromRlp(items: seq<Item>)
      requires Decode(items).Ok?
      ensures Fields() == Decode(items).value
    {
      parentHash := items[0];
      unclesHash := items[1];
      coinbase := items[2];
      var root := items[3];
      if root.None? {
        root := Some(EMPTY_TRIE_HASH);
      }
      stateRoot := root;
      root := items[4];
      if root.None? {
        root := Some(EMPTY_TRIE_HASH);
      }
      txTrieRoot := root;
      root := items[5];
      if root.None? {
        root := Some(EMPTY_TRIE_HASH);
      }
      receiptTrieRoot := root;
      logsBloom := items[6];
      difficulty := items[7];
      number := LongValue(ScalarValue(items[8]));
      gasLimit := items[9];
      gasUsed := LongValue(ScalarValue(items[10]));
      timestamp := LongValue(ScalarValue(items[11]));
      extraData := items[12];
      paidFees := LongValue(ScalarValue(items[13]));
      minimumGasPrice := items[14];
      uncleCount := 0;
      bitcoinMergedMiningHeader := None;
      bitcoinMergedMiningMerkleProof := None;
      bitcoinMergedMiningCoinbaseTransaction := None;
      var r := 15;
      if |items| == 19 || |items| == 16 {
        uncleCount := IntValue(ScalarValue(items[r]));
        r := r + 1;
      }
      if |items| > r {
        bitcoinMergedMiningHeader := items[r];
        r := r + 1;
        bitcoinMergedMiningMerkleProof := items[r];
        r := r + 1;
        bitcoinMergedMiningCoinbaseTransaction := items[r];
        r := r + 1;
      }
    }

    /** The field-value constructor without merged-mining data: the state
        and receipt roots start as EMPTY_TRIE_HASH, the transaction root null. */
    constructor (parentHash: Field, unclesHash: Field, coinbase: Field, logsBloom: Field,
                 difficulty: Field, number: Long, gasLimit: Field, gasUsed: Long, timestamp: Long,
                 extraData: Field, minimumGasPrice: Field, uncleCount: Int32)
      ensures Fields() == Header(parentHash, unclesHash, coinbase, Some(EMPTY_TRIE_HASH), None,
        Some(EMPTY_TRIE_HASH), logsBloom, difficulty, number, gasLimit, gasUsed, timestamp,
        extraData, 0, minimumGasPrice, uncleCount, None, None, None)
    {
      this.parentHash := parentHash;
      this.unclesHash := unclesHash;
      this.coinbase := coinbase;
      this.logsBloom := logsBloom;
      this.difficulty := difficulty;
      this.number := number;
      this.gasLimit := gasLimit;
      this.gasUsed := gasUsed;
      this.timestamp := timestamp;
      this.extraData := extraData;
      this.stateRoot := Some(EMPTY_TRIE_HASH);
      this.minimumGasPrice := minimumGasPrice;
      this.receiptTrieRoot := Some(EMPTY_TRIE_HASH);
      this.uncleCount := uncleCount;
      this.txTrieRoot := None;
      this.paidFees := 0;
      this.bitcoinMergedMiningHeader := None;
      this.bitcoinMergedMiningMerkleProof := None;
      this.bitcoinMergedMiningCoinbaseTransaction := None;
    }

    /** The field-value constructor with the three merged-mining fields. */
    constructor WithMergedMining(parentHash: Field, unclesHash: Field, coinbase: Field,
                 logsBloom: Field, difficulty: Field, number: Long, gasLimit: Field, gasUsed: Long,
                 timestamp: Long, extraData: Field, bitcoinMergedMiningHeader: Field,
                 bitcoinMergedMiningMerkleProof: Field, bitcoinMergedMiningCoinbaseTransaction: Field,
                 minimumGasPrice: Field, uncleCount: Int32)
      ensures Fields() == Header(parentHash, unclesHash, coinbase, Some(EMPTY_TRIE_HASH), None,
        Some(EMPTY_TRIE_HASH), logsBloom, difficulty, number, gasLimit, gasUsed, timestamp,
        extraData, 0, minimumGasPrice, uncleCount, bitcoinMergedMiningHeader,
        bitcoinMergedMiningMerkleProof, bitcoinMergedMiningCoinbaseTransaction)
    {
      this.parentHash := parentHash;
      this.unclesHash := unclesHash;
      this.coinbase := coinbase;
      this.logsBloom := logsBloom;
      this.difficulty := difficulty;
      this.number := number;
      this.gasLimit := gasLimit;
      this.gasUsed := gasUsed;
      this.timestamp := timestamp;
      this.extraData := extraData;
      this.stateRoot := Some(EMPTY_TRIE_HASH);
      this.bitcoinMergedMiningHeader := bitcoinMergedMiningHeader;
      this.bitcoinMergedMiningMerkleProof := bitcoinMergedMiningMerkleProof;
      this.bitcoinMergedMiningCoinbaseTransaction := bitcoinMergedMiningCoinbaseTransaction;
      this.minimumGasPrice := minimumGasPrice;
      this.receiptTrieRoot := Some(EMPTY_TRIE_HASH);
      this.uncleCount := uncleCount;
      this.txTrieRoot := None;
      this.paidFees := 0;
    }

    /** getEncoded(withMergedMiningFields): fills in null transaction and
        receipt roots, then lists the items. */
    method GetEncoded(withMergedMiningFields: bool) returns (items: seq<Item>)
      requires Encodable(Fields())
      modifies this
      ensures Fields() == WithDefaultRoots(old(Fields()))
      ensures items == Encode(old(Fields()), withMergedMiningFields)
    {
      if txTrieRoot.None? {
        txTrieRoot := Some(EMPTY_TRIE_HASH);
      }
      if receiptTrieRoot.None? {
        receiptTrieRoot := Some(EMPTY_TRIE_HASH);
      }
      var fieldToEncodeList := [
        Element(parentHash), Element(unclesHash), Element(coinbase),
        Element(stateRoot), Element(txTrieRoot), Element(receiptTrieRoot),
        Element(logsBloom), Element(difficulty), Scalar(number),
        Element(gasLimit), Scalar(gasUsed), Scalar(timestamp),
        Element(extraData), Scalar(paidFees), Element(minimumGasPrice)];
      fieldToEncodeList := fieldToEncodeList + [Scalar(uncleCount)];
      if withMergedMiningFields && HasMiningFields(Fields()) {
        fieldToEncodeList := fieldToEncodeList + [Element(bitcoinMergedMiningHeader)];
        fieldToEncodeList := fieldToEncodeList + [Element(bitcoinMergedMiningMerkleProof)];
        fieldToEncodeList := fieldToEncodeList + [Element(bitcoinMergedMiningCoinbaseTransaction)];
      }
      items := fieldToEncodeList;
    }

    method SetUncleCount(uCount: Int32)
      modifies this
      ensures Fields() == old(Fields()).(uncleCount := uCount)
    {
      uncleCount := uCount;
    }

    method SetUnclesHash(unclesHash: Field)
      modifies this
      ensures Fields() == old(Fields()).(unclesHash := unclesHash)
    {
      this.unclesHash := unclesHash;
    }

    method SetCoinbase(coinbase: Field)
      modifies this
      ensures Fields() == old(Fields()).(coinbase := coinbase)
    {
      this.coinbase := coinbase;
    }

    method SetStateRoot(stateRoot: Field)
      modifies this
      ensures Fields() == old(Fields()).(stateRoot := stateRoot)
    {
      this.stateRoot := stateRoot;
    }

    method SetReceiptsRoot(receiptTrieRoot: Field)
      modifies this
      ensures Fields() == old(Fields()).(receiptTrieRoot := receiptTrieRoot)
    {
      this.receiptTrieRoot := receiptTrieRoot;
    }

    /** setTransactionsRoot sets the transaction root (its parameter is named stateRoot). */
    method SetTransactionsRoot(stateRoot: Field)
      modifies this
      ensures Fields() == old(Fields()).(txTrieRoot := stateRoot)
    {
      this.txTrieRoot := stateRoot;
    }

    method SetDifficulty(difficulty: Field)
      modifies this
      ensures Fields() == old(Fields()).(difficulty := difficulty)
    {
      this.difficulty := difficulty;
    }

    method SetTimestamp(timestamp: Long)
      modifies this
      ensures Fields() == old(Fields()).(timestamp := timestamp)
    {
      this.timestamp := timestamp;
    }

    method SetNumber(number: Long)
      modifies this
      ensures Fields() == old(Fields()).(number := number)
    {
      this.number := number;
    }

    method SetGasLimit(gasLimit: Field)
      modifies this
      ensures Fields() == old(Fields()).(gasLimit := gasLimit)
    {
      this.gasLimit := gasLimit;
    }

    method SetPaidFees(paidFees: Long)
      modifies this
      ensures Fields() == old(Fields()).(paidFees := paidFees)
    {
      this.paidFees := paidFees;
    }

    method SetGasUsed(gasUsed: Long)
      modifies this
      ensures Fields() == old(Fields()).(gasUsed := gasUsed)
    {
      this.gasUsed := gasUsed;
    }

    method SetLogsBloom(logsBloom: Field)
      modifies this
      ensures Fields() == old(Fields()).(logsBloom := logsBloom)
    {
      this.logsBloom := logsBloom;
    }

    method SetExtraData(extraData: Field)
      modifies this
      ensures Fields() == old(Fields()).(extraData := extraData)
    {
      this.extraData := extraData;
    }

    method SetMinimumGasPrice(minimumGasPrice: Field)
      modifies this
      ensures Fields() == old(Fields()).(minimumGasPrice := minimumGasPrice)
    {
      this.minimumGasPrice := minimumGasPrice;
    }

    method SetBitcoinMergedMiningHeader(bitcoinMergedMiningHeader: Field)
      modifies this
      ensures Fields() == old(Fields()).(bitcoinMergedMiningHeader := bitcoinMergedMiningHeader)
    {
      this.bitcoinMergedMiningHeader := bitcoinMergedMiningHeader;
    }

    method SetBitcoinMergedMiningMerkleProof(bitcoinMergedMiningMerkleProof: Field)
      modifies this
      ensures Fields() == old(Fields()).(bitcoinMergedMiningMerkleProof := bitcoinMergedMiningMerkleProof)
    {
      this.bitcoinMergedMiningMerkleProof := bitcoinMergedMiningMerkleProof;
    }

    method SetBitcoinMergedMiningCoinbaseTransaction(bitcoinMergedMiningCoinbaseTransaction: Field)
      modifies this
      ensures Fields() == old(Fields()).(bitcoinMergedMiningCoinbaseTransaction :=
        bitcoinMergedMiningCoinbaseTransaction)
    {
      this.bitcoinMergedMiningCoinbaseTransaction := bitcoinMergedMiningCoinbaseTransaction;
    }
  }

  /** A header value either as it started or with its roots filled in. */
  predicate InitialOrFilled(current: Header, initial: Header) {
    current == initial || current == WithDefaultRoots(initial)
  }

  /** One uncle's getEncoded(true), whether or not its roots were already filled in. */
  method EncodeUncle(uncle: BlockHeader, ghost initial: Header) returns (e: seq<Item>)
    requires Encodable(initial) && InitialOrFilled(uncle.Fields(), initial)
    modifies uncle
    ensures e == Encode(initial, true)
    ensures uncle.Fields() == WithDefaultRoots(initial)
  {
    EncodeIgnoresDefaultRoots(initial, true);
    e := uncle.GetEncoded(true);
  }

  /** getUnclesEncoded: the full encoding of every uncle, in list order. Each
      uncle's null roots are filled in on the way; an uncle listed twice is
      encoded the same both times. */
  method UnclesEncoded(uncles: seq<BlockHeader>) returns (encoded: seq<seq<Item>>)
    requires forall u :: u in uncles ==> Encodable(u.Fields())
    modifies set u | u in uncles
    ensures |encoded| == |uncles|
    ensures forall i :: 0 <= i < |uncles| ==> encoded[i] == Encode(old(uncles[i].Fields()), true)
    ensures forall i :: 0 <= i < |uncles| ==> uncles[i].Fields() == WithDefaultRoots(old(uncles[i].Fields()))
  {
    var unclesEncoded: seq<seq<Item>> := [];
    var i := 0;
    while i < |uncles|
      invariant 0 <= i <= |uncles|
      invariant |unclesEncoded| == i
      invariant forall u :: u in uncles ==> InitialOrFilled(u.Fields(), old(u.Fields()))
      invariant forall j :: 0 <= j < i ==> unclesEncoded[j] == Encode(old(uncles[j].Fields()), true)
      invariant forall u :: u in uncles[..i] ==> u.Fields() == WithDefaultRoots(old(u.Fields()))
    {
      var uncle := uncles[i];
      var e := EncodeUncle(uncle, old(uncle.Fields()));
      unclesEncoded := unclesEncoded + [e];
      assert uncles[..i + 1] == uncles[..i] + [uncle];
      i := i + 1;
    }
    assert uncles[..i] == uncles;
    encoded := unclesEncoded;
  }
}
