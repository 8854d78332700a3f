/**
 * The trie's key-symbol codec (TrieImpl.bytesToKey): a key of bytes becomes a
 * sequence of symbols, one per trie level, each symbol taking log2(arity) bits
 * of a byte, most-significant bits first, bytes in their original order.
 */
module TrieKey {
  import opened Wrappers
  import opened UnsignedBytes

  /** The error the checked entry point reports for an unusable arity. */
  datatype KeyError = ConfigurationError

  /** The arities whose symbol width (1, 2, 4 or 8 bits) divides a byte. */
  predicate ValidArity(arity: int) {
    arity == 2 || arity == 4 || arity == 16 || arity == 256
  }

  function Pow(base: nat, e: nat): nat {
    if e == 0 then 1 else base * Pow(base, e - 1)
  }

  /** Bits per symbol: log2(arity). */
  function SymbolWidth(arity: int): (w: nat)
    requires ValidArity(arity)
    ensures 1 <= w <= 8 && 8 % w == 0 && Pow(2, w) == arity
  {
    if arity == 2 then 1 else if arity == 4 then 2 else if arity == 16 then 4 else 8
  }

  /** Symbols per byte: 8 / log2(arity); arity to that power is 256. */
  function SymbolsPerByte(arity: int): (n: nat)
    requires ValidArity(arity)
    ensures n * SymbolWidth(arity) == 8 && Pow(arity, n) == 256
  {
    8 / SymbolWidth(arity)
  }

  /** The last n base-`arity` digits of v, most significant first. */
  function Digits(v: nat, arity: nat, n: nat): (ds: seq<nat>)
    requires arity >= 2
    ensures |ds| == n
    ensures forall i :: 0 <= i < n ==> ds[i] < arity
  {
    if n == 0 then [] else Digits(v / arity, arity, n - 1) + [v % arity]
  }

  /** The value of base-`arity` digits read most significant first. */
  function FromDigits(ds: seq<nat>, arity: nat): nat {
    if ds == [] then 0 else FromDigits(ds[..|ds| - 1], arity) * arity + ds[|ds| - 1]
  }

  /** The symbols of one byte. */
  function ByteSymbols(b: byte, arity: int): seq<nat>
    requires ValidArity(arity)
  {
    Digits(b as nat, arity, SymbolsPerByte(arity))
  }

  /** TrieImpl.bytesToKey for a supported arity. */
  function BytesToKey(key: seq<byte>, arity: int): (r: seq<nat>)
    requires ValidArity(arity)
    ensures |r| == |key| * SymbolsPerByte(arity)
    ensures forall i :: 0 <= i < |r| ==> r[i] < arity
  {
    if key == [] then []
    else
      var f := SymbolsPerByte(arity);
      var rest := BytesToKey(key[1..], arity);
      assert |rest| == (|key| - 1) * f;
      ByteSymbols(key[0], arity) + rest
  }

  /** The checked form: an arity that is zero, not a power of two, or whose
      symbol width does not divide a byte is a configuration error. */
  function CheckedBytesToKey(key: seq<byte>, arity: int): (r: Result<seq<nat>, KeyError>)
    ensures r.Err? <==> !ValidArity(arity)
    ensures r.Ok? ==> r.value == BytesToKey(key, arity)
  {
    if ValidArity(arity) then Ok(BytesToKey(key, arity)) else Err(ConfigurationError)
  }

  /** The inverse of BytesToKey: each group of SymbolsPerByte symbols is read
      back as one byte. */
  function KeyToBytes(symbols: seq<nat>, arity: int): seq<byte>
    requires ValidArity(arity)
    requires |symbols| % SymbolsPerByte(arity) == 0
    requires forall i :: 0 <= i < |symbols| ==> symbols[i] < arity
    decreases |symbols|
  {
    if symbols == [] then []
    else
      var f := SymbolsPerByte(arity);
      var group := symbols[..f];
      FromDigitsBound(group, arity);
      ModStep(|symbols|, arity);
      [FromDigits(group, arity) as byte] + KeyToBytes(symbols[f..], arity)
  }

  // ---------------------------------------------------------------------------
  // Arithmetic facts about digits

  /** n digits, each below the base, have a value below base^n. */
  lemma {:induction false} FromDigitsBound(ds: seq<nat>, arity: nat)
    requires arity >= 2
    requires forall i :: 0 <= i < |ds| ==> ds[i] < arity
    ensures FromDigits(ds, arity) < Pow(arity, |ds|)
  {
    if ds != [] {
      var init := ds[..|ds| - 1];
      FromDigitsBound(init, arity);
      var hi := FromDigits(init, arity);
      var p := Pow(arity, |ds| - 1);
      DigitBound(hi, ds[|ds| - 1], p, arity);
    }
  }

  /** One more digit below the base keeps the value below the next power. */
  lemma DigitBound(hi: nat, d: nat, p: nat, arity: nat)
    requires hi < p && d < arity
    ensures hi * arity + d < arity * p
  {
    MulMonotone(hi + 1, p, arity);
  }

  lemma MulAssoc(a: nat, b: nat, c: nat)
    ensures a * b * c == a * (b * c)
  {
  }

  lemma MulMonotone(a: nat, b: nat, c: nat)
    requires a <= b
    ensures a * c <= b * c
  {
  }

  lemma ModStep(n: nat, arity: int)
    requires ValidArity(arity)
    requires n % SymbolsPerByte(arity) == 0 && n > 0
    ensures n >= SymbolsPerByte(arity) && (n - SymbolsPerByte(arity)) % SymbolsPerByte(arity) == 0
  {
  }

  /** Reading back the digits of v gives v, when v has at most n digits. */
  lemma {:induction false} DigitsRoundTrip(v: nat, arity: nat, n: nat)
    requires arity >= 2
    requires v < Pow(arity, n)
    ensures FromDigits(Digits(v, arity, n), arity) == v
  {
    if n > 0 {
      var q := v / arity;
      assert FromDigits(Digits(q, arity, n - 1), arity) == q by {
        DivBound(v, arity, Pow(arity, n - 1));
        DigitsRoundTrip(q, arity, n - 1);
      }
      DigitsStep(v, arity, n);
    }
  }

  /** The last digit and the digits of v / arity make up v. */
  lemma DigitsStep(v: nat, arity: nat, n: nat)
    requires arity >= 2 && n > 0
    requires FromDigits(Digits(v / arity, arity, n - 1), arity) == v / arity
    ensures FromDigits(Digits(v, arity, n), arity) == v
  {
    FromDigitsAppend(Digits(v / arity, arity, n - 1), v % arity, arity);
    DivMod(v, arity);
  }

  lemma FromDigitsAppend(ds: seq<nat>, d: nat, arity: nat)
    ensures FromDigits(ds + [d], arity) == FromDigits(ds, arity) * arity + d
  {
  }

  lemma DivMod(v: nat, d: nat)
    requires d >= 1
    ensures (v / d) * d + v % d == v
  {
  }

  lemma DivBound(v: nat, d: nat, p: nat)
    requires d >= 1
    requires v < d * p
    ensures v / d < p
  {
    if v / d >= p {
      assert (v / d) * d >= p * d by {
        MulMonotone(p, v / d, d);
      }
    }
  }

  // ---------------------------------------------------------------------------
  // Properties of BytesToKey

  /** Symbol count: N bytes give N * 8 / log2(arity) symbols. */
  lemma SymbolCount(key: seq<byte>, arity: int)
    requires ValidArity(arity)
    ensures |BytesToKey(key, arity)| * SymbolWidth(arity) == 8 * |key|
  {
    var f := SymbolsPerByte(arity);
    var w := SymbolWidth(arity);
    MulAssoc(|key|, f, w);
  }

  /** BytesToKey works byte by byte: it maps concatenation to concatenation. */
  lemma {:induction false} BytesToKeyAppend(a: seq<byte>, b: seq<byte>, arity: int)
    requires ValidArity(arity)
    ensures BytesToKey(a + b, arity) == BytesToKey(a, arity) + BytesToKey(b, arity)
  {
    if a != [] {
      assert (a + b)[0] == a[0];
      assert (a + b)[1..] == a[1..] + b;
      BytesToKeyAppend(a[1..], b, arity);
      assert BytesToKey(a + b, arity) == ByteSymbols(a[0], arity) + BytesToKey(a[1..] + b, arity);
    } else {
      assert a + b == b;
    }
  }

  /** Where the symbols of byte k start in the key's symbol sequence. */
  function SymbolOffset(k: nat, arity: int): nat
    requires ValidArity(arity)
  {
    k * SymbolsPerByte(arity)
  }

  /** The symbols for byte k of the key are the digits of that byte. */
  lemma BytesToKeyAt(key: seq<byte>, arity: int, k: nat)
    requires ValidArity(arity)
    requires k < |key|
    ensures SymbolOffset(k, arity) + SymbolsPerByte(arity) <= |BytesToKey(key, arity)|
    ensures BytesToKey(key, arity)[SymbolOffset(k, arity)..SymbolOffset(k, arity) + SymbolsPerByte(arity)]
            == ByteSymbols(key[k], arity)
  {
    var f := SymbolsPerByte(arity);
    assert key == key[..k] + [key[k]] + key[k + 1..];
    BytesToKeyAppend(key[..k] + [key[k]], key[k + 1..], arity);
    BytesToKeyAppend(key[..k], [key[k]], arity);
    var pre := BytesToKey(key[..k], arity);
    var mid := BytesToKey([key[k]], arity);
    var post := BytesToKey(key[k + 1..], arity);
    assert mid == ByteSymbols(key[k], arity);
    assert |pre| == SymbolOffset(k, arity);
    assert BytesToKey(key, arity) == pre + mid + post;
  }

  /** Reading the symbols of byte k as base-arity digits, most significant
      first, gives back byte k. */
  lemma ByteReconstruction(key: seq<byte>, arity: int, k: nat)
    requires ValidArity(arity)
    requires k < |key|
    ensures SymbolOffset(k, arity) + SymbolsPerByte(arity) <= |BytesToKey(key, arity)|
    ensures FromDigits(BytesToKey(key, arity)[SymbolOffset(k, arity)..SymbolOffset(k, arity) + SymbolsPerByte(arity)], arity)
            == key[k] as nat
  {
    BytesToKeyAt(key, arity, k);
    DigitsRoundTrip(key[k] as nat, arity, SymbolsPerByte(arity));
  }

  /** A whole number of bytes gives a whole number of symbol groups. */
  lemma {:induction false} WholeGroups(key: seq<byte>, arity: int)
    requires ValidArity(arity)
    ensures |BytesToKey(key, arity)| % SymbolsPerByte(arity) == 0
  {
    if key != [] {
      WholeGroups(key[1..], arity);
      var f := SymbolsPerByte(arity);
      var x := |BytesToKey(key[1..], arity)|;
      assert |BytesToKey(key, arity)| == f + x;
      AddGroup(x, arity);
    }
  }

  lemma AddGroup(x: nat, arity: int)
    requires ValidArity(arity)
    requires x % SymbolsPerByte(arity) == 0
    ensures (SymbolsPerByte(arity) + x) % SymbolsPerByte(arity) == 0
  {
    if arity == 2 {
      assert (8 + x) % 8 == 0;
    } else if arity == 4 {
      assert (4 + x) % 4 == 0;
    } else if arity == 16 {
      assert (2 + x) % 2 == 0;
    }
  }

  /** KeyToBytes undoes BytesToKey, so distinct keys have distinct symbol sequences. */
  lemma {:induction false} KeyRoundTrip(key: seq<byte>, arity: int)
    requires ValidArity(arity)
    ensures (WholeGroups(key, arity); KeyToBytes(BytesToKey(key, arity), arity) == key)
  {
    if key != [] {
      var f := SymbolsPerByte(arity);
      var s := BytesToKey(key, arity);
      var head := ByteSymbols(key[0], arity);
      var rest := BytesToKey(key[1..], arity);
      assert s == head + rest;
      assert s[..f] == head;
      assert s[f..] == rest;
      DigitsRoundTrip(key[0] as nat, arity, f);
      assert FromDigits(head, arity) as byte == key[0];
      KeyRoundTrip(key[1..], arity);
      assert key == [key[0]] + key[1..];
    }
  }

  lemma BytesToKeyInjective(a: seq<byte>, b: seq<byte>, arity: int)
    requires ValidArity(arity)
    requires BytesToKey(a, arity) == BytesToKey(b, arity)
    ensures a == b
  {
    KeyRoundTrip(a, arity);
    KeyRoundTrip(b, arity);
  }

  // ---------------------------------------------------------------------------
  // The three vectors of the unit test

  lemma BinaryExample()
    ensures BytesToKey([0xaa], 2) == [1, 0, 1, 0, 1, 0, 1, 0]
  {
  }

  lemma HexExample()
    ensures BytesToKey([0xaa], 16) == [0x0a, 0x0a]
  {
  }

  lemma QuaternaryExample()
    ensures BytesToKey([0xaa], 4) == [2, 2, 2, 2]
  {
  }
}
