/**
  What the protocol needs of the Java runtime it was written for: bytes, 32-bit
  two's-complement ints with wrap-around, the truncating remainder operator, the
  big-endian int layout of `java.nio.ByteBuffer`, and the runtime exceptions the
  protocol code lets escape, as an error value.
 */
module JavaRuntime {

  /** A wire byte, as its unsigned bit pattern (Java's `byte` is the same 8 bits). */
  type Byte = b: int | 0 <= b < 256

  const INT_MIN: int := -0x8000_0000
  const INT_MAX: int := 0x7fff_ffff
  const TWO_32: int := 0x1_0000_0000

  const LONG_MIN: int := -0x8000_0000_0000_0000
  const LONG_MAX: int := 0x7fff_ffff_ffff_ffff
  const TWO_64: int := 0x1_0000_0000_0000_0000

  /** Integer.BYTES */
  const INT_BYTES: int := 4

  predicate IsInt32(x: int) {
    INT_MIN <= x <= INT_MAX
  }

  predicate IsInt64(x: int) {
    LONG_MIN <= x <= LONG_MAX
  }

  /** `n`, or 0 when it is negative: how often a `for (i = 0; i < n; i++)` loop runs. */
  function Max0(n: int): nat {
    if n < 0 then 0 else n
  }

  function Min(a: int, b: int): int {
    if a <= b then a else b
  }

  datatype Option<+T> = None | Some(value: T)

  /** The unchecked runtime exceptions the modelled code can raise. */
  datatype Fault =
    | NegativeArraySize   // `new byte[n]` with n < 0
    | BufferUnderflow     // `ByteBuffer.getInt` past the buffer's limit
    | IndexOutOfBounds    // `List.get`/`remove` outside the list

  datatype Result<+T> = Ok(value: T) | Err(fault: Fault)

  /** The Java `int` that the mathematical integer `x` wraps to. */
  function Wrap32(x: int): (r: int)
    ensures IsInt32(r)
    ensures (x - r) % TWO_32 == 0
    ensures IsInt32(x) ==> r == x
  {
    var u := x % TWO_32;
    if u <= INT_MAX then u else u - TWO_32
  }

  /** The Java `long` that the mathematical integer `x` wraps to. */
  function Wrap64(x: int): (r: int)
    ensures IsInt64(r)
    ensures (x - r) % TWO_64 == 0
    ensures IsInt64(x) ==> r == x
  {
    var u := x % TWO_64;
    if u <= LONG_MAX then u else u - TWO_64
  }

  /**
    `Math.ceil(n / d)` for a quotient the floating-point division computes
    exactly: the least k with k * d >= n.
   */
  function CeilDiv(n: nat, d: nat): (k: nat)
    requires d > 0
    ensures k * d >= n
    ensures k == 0 || (k - 1) * d < n
  {
    (n + d - 1) / d
  }

  /** Java's `a % b` for b > 0: truncates toward zero, so the result takes the sign of `a`. */
  function JavaRem(a: int, b: int): (r: int)
    requires b > 0
    ensures -b < r < b
    ensures a >= 0 ==> 0 <= r && r == a % b
    ensures a < 0 ==> r <= 0
  {
    if a >= 0 then a % b else -((-a) % b)
  }

  /** `ByteBuffer.putInt`: the four bytes of `x` (wrapped to 32 bits), most significant first. */
  function PutInt(x: int): (r: seq<Byte>)
    ensures |r| == INT_BYTES
  {
    var u := x % TWO_32;
    [u / 0x100_0000, (u / 0x1_0000) % 0x100, (u / 0x100) % 0x100, u % 0x100]
  }

  /** `ByteBuffer.getInt` on the first four bytes of `b`. */
  function GetInt(b: seq<Byte>): (r: int)
    requires |b| >= INT_BYTES
    ensures IsInt32(r)
  {
    var u := (b[0] as int) * 0x100_0000 + (b[1] as int) * 0x1_0000 + (b[2] as int) * 0x100 + (b[3] as int);
    if u <= INT_MAX then u else u - TWO_32
  }

  /** Reading back an int that was written gives the written value, wrapped to 32 bits. */
  lemma GetPutInt(x: int)
    ensures GetInt(PutInt(x)) == Wrap32(x)
  {
    var u := x % TWO_32;
    var b := PutInt(x);
    var hi := u / 0x100;
    var mid := hi / 0x100;
    assert u == hi * 0x100 + u % 0x100;
    assert hi == mid * 0x100 + hi % 0x100;
    assert mid == (mid / 0x100) * 0x100 + mid % 0x100;
    assert mid / 0x100 == u / 0x100_0000;
    assert mid == u / 0x1_0000;
    assert (b[0] as int) * 0x100_0000 + (b[1] as int) * 0x1_0000 + (b[2] as int) * 0x100 + (b[3] as int) == u;
  }

  /** Writing back an int that was read from four bytes reproduces the bytes. */
  lemma PutGetInt(b: seq<Byte>)
    requires |b| == INT_BYTES
    ensures PutInt(GetInt(b)) == b
  {
    var u := (b[0] as int) * 0x100_0000 + (b[1] as int) * 0x1_0000 + (b[2] as int) * 0x100 + (b[3] as int);
    assert GetInt(b) % TWO_32 == u;
    assert u % 0x100 == b[3];
    assert u / 0x100 == (b[0] as int) * 0x1_0000 + (b[1] as int) * 0x100 + (b[2] as int);
    assert u / 0x1_0000 == (b[0] as int) * 0x100 + (b[1] as int);
    assert u / 0x100_0000 == b[0];
  }

  /** An int-encoded round trip for values that already fit in a Java int. */
  lemma GetPutInt32(x: int)
    requires IsInt32(x)
    ensures GetInt(PutInt(x)) == x
  {
    GetPutInt(x);
  }

  /** Reading an int at offset `k` of a concatenation whose prefix has length `k`. */
  lemma GetIntAt(prefix: seq<Byte>, x: int, rest: seq<Byte>)
    ensures GetInt((prefix + PutInt(x) + rest)[|prefix|..]) == Wrap32(x)
  {
    var s := prefix + PutInt(x) + rest;
    assert s[|prefix|..][..INT_BYTES] == PutInt(x);
    GetPutInt(x);
  }
}
