/**
 * Unsigned big-endian integers over bytes, as the header codec uses them:
 * `new BigInteger(1, bytes)`, the minimal unsigned form written for a
 * non-negative scalar, the fixed-width form of a 256-bit boundary, and the
 * two's-complement truncations `longValue()` and `intValue()`.
 */
module UnsignedBytes {

  /** A Java byte array element, taken unsigned. */
  newtype byte = x: int | 0 <= x < 256

  const TWO_31: int := 0x8000_0000
  const TWO_32: int := 0x1_0000_0000
  const TWO_63: int := 0x8000_0000_0000_0000
  const TWO_64: int := 0x1_0000_0000_0000_0000

  /** Java's `long`. */
  type Long = x: int | -0x8000_0000_0000_0000 <= x < 0x8000_0000_0000_0000

  /** Java's `int`. */
  type Int32 = x: int | -0x8000_0000 <= x < 0x8000_0000

  function Pow256(n: nat): (p: nat)
    ensures p >= 1
  {
    if n == 0 then 1 else 256 * Pow256(n - 1)
  }

  /** `new BigInteger(1, bytes)`: the bytes read as an unsigned number, most significant first. */
  function Value(bytes: seq<byte>): (v: nat)
    ensures v < Pow256(|bytes|)
  {
    if bytes == [] then 0
    else
      var hi := Value(bytes[..|bytes| - 1]);
      assert hi * 256 + 256 <= Pow256(|bytes| - 1) * 256;
      hi * 256 + bytes[|bytes| - 1] as nat
  }

  /** The shortest big-endian form of n: empty for zero, otherwise without a leading zero byte. */
  function Minimal(n: nat): (r: seq<byte>)
    ensures r == [] <==> n == 0
    ensures r != [] ==> r[0] != 0
  {
    if n == 0 then [] else Minimal(n / 256) + [(n % 256) as byte]
  }

  /** n written in exactly len bytes, with leading zero bytes as needed (n below 256^len). */
  function Fixed(n: nat, len: nat): (r: seq<byte>)
    ensures |r| == len
  {
    if len == 0 then [] else Fixed(n / 256, len - 1) + [(n % 256) as byte]
  }

  /** `BigInteger.longValue()`: the low 64 bits read as a two's-complement number. */
  function LongValue(v: nat): (r: Long)
    ensures (v - r) % TWO_64 == 0
    ensures v < TWO_63 ==> r == v
  {
    var low := v % TWO_64;
    if low < TWO_63 then low else low - TWO_64
  }

  /** `BigInteger.intValue()`: the low 32 bits read as a two's-complement number. */
  function IntValue(v: nat): (r: Int32)
    ensures (v - r) % TWO_32 == 0
    ensures v < TWO_31 ==> r == v
  {
    var low := v % TWO_32;
    if low < TWO_31 then low else low - TWO_32
  }

  lemma ValueAppend(bytes: seq<byte>, b: byte)
    ensures Value(bytes + [b]) == Value(bytes) * 256 + b as nat
  {
  }

  /** Reading back the minimal form of n gives n. */
  lemma {:induction false} ValueOfMinimal(n: nat)
    ensures Value(Minimal(n)) == n
  {
    if n > 0 {
      ValueOfMinimal(n / 256);
      ValueAppend(Minimal(n / 256), (n % 256) as byte);
    }
  }

  /** Bytes without a leading zero are the minimal form of their value. */
  lemma {:induction false} MinimalOfValue(bytes: seq<byte>)
    requires bytes == [] || bytes[0] != 0
    ensures Minimal(Value(bytes)) == bytes
  {
    if bytes != [] {
      var init := bytes[..|bytes| - 1];
      var last := bytes[|bytes| - 1];
      var v := Value(bytes);
      assert v == Value(init) * 256 + last as nat;
      assert v / 256 == Value(init) && v % 256 == last as nat by {
        DivModUnique(Value(init), last as nat, v);
      }
      if init == [] {
        assert last == bytes[0];
        assert v != 0;
      } else {
        assert init[0] == bytes[0];
        MinimalOfValue(init);
        assert Value(init) != 0;
      }
      assert last == (v % 256) as byte;
      assert bytes == init + [last];
    }
  }

  /** Division by 256 recovers the quotient and remainder a number was built from. */
  lemma DivModUnique(q: nat, r: nat, v: nat)
    requires r < 256 && v == q * 256 + r
    ensures v / 256 == q && v % 256 == r
  {
  }

  /** Reading back the fixed-width form of n gives n when n fits. */
  lemma {:induction false} ValueOfFixed(n: nat, len: nat)
    requires n < Pow256(len)
    ensures Value(Fixed(n, len)) == n
  {
    if len > 0 {
      assert n / 256 < Pow256(len - 1);
      ValueOfFixed(n / 256, len - 1);
      ValueAppend(Fixed(n / 256, len - 1), (n % 256) as byte);
    }
  }
}
