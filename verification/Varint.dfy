/** Base 128 varints over 64-bit words, and the skipper for unknown fields.
  *
  * The functions state what is read, over unbounded integers; the methods are the loops of the
  * generated code, with Go's 64-bit wrap-around, and are proved to compute the functions.
  * A Go slice that is only read is a sequence; its length always fits a signed 64-bit word.
  */
module Varint {

  type Byte = x: int | 0 <= x < 256
  type Bytes = seq<Byte>

  const TWO63: int := 0x8000_0000_0000_0000
  const TWO64: int := 0x1_0000_0000_0000_0000

  datatype Error =
    | IntOverflow        // ErrIntOverflowRpc
    | UnexpectedEOF      // io.ErrUnexpectedEOF
    | InvalidLength      // ErrInvalidLengthRpc
    | EndGroup           // "wiretype end group for non-group"
    | IllegalTag         // "illegal tag"
    | WrongWireType      // "wrong wireType"
    | IllegalWireType    // "illegal wireType"
    | Panic              // the panic at the end of skipRpc

  datatype Result<+T> = Ok(value: T) | Err(error: Error)

  /** Go's conversion to a signed 64-bit integer. */
  function Int64(x: int): (r: int)
    ensures -TWO63 <= r < TWO63
    ensures -TWO63 <= x < TWO63 ==> r == x
    ensures TWO63 <= x < TWO64 ==> r == x - TWO64
  {
    var u := x % TWO64;
    if u >= TWO63 then u - TWO64 else u
  }

  /** Go's conversion to a signed 32-bit integer. */
  function Int32(x: int): (r: int)
    ensures -0x8000_0000 <= r < 0x8000_0000
  {
    var u := x % 0x1_0000_0000;
    if u >= 0x8000_0000 then u - 0x1_0000_0000 else u
  }

  /** Base 128 digits of the varint at `i`, least significant first, before any truncation, and the
    * index behind it. `k` digits were read before: an eleventh digit is an overflow. */
  function Digits(b: Bytes, i: nat, k: nat): (r: Result<(nat, nat)>)
    ensures r.Ok? ==> i < r.value.1 <= |b|
    ensures r != Err(Panic)
    decreases 10 - k
  {
    if k >= 10 then Err(IntOverflow)
    else if i >= |b| then Err(UnexpectedEOF)
    else if b[i] < 128 then Ok((b[i], i + 1))
    else
      match Digits(b, i + 1, k + 1)
      case Err(e) => Err(e)
      case Ok(r) => Ok((b[i] - 128 + 128 * r.0, r.1))
  }

  /** The unsigned 64-bit word of the varint at `i`, and the index behind it. */
  function ReadVarint(b: Bytes, i: nat): (r: Result<(nat, nat)>)
    ensures r.Ok? ==> r.value.0 < TWO64 && i < r.value.1 <= |b|
    ensures r != Err(Panic)
  {
    match Digits(b, i, 0)
    case Err(e) => Err(e)
    case Ok(r) => Ok((r.0 % TWO64, r.1))
  }

  function EncodeVarint(v: nat): (r: Bytes)
    ensures r != []
  {
    if v < 128 then [v] else [v % 128 + 128] + EncodeVarint(v / 128)
  }

  function Pow128(k: nat): (r: nat)
    ensures r > 0
  {
    if k == 0 then 1 else 128 * Pow128(k - 1)
  }

  // ----- varints: what is written is read back -----

  /** The `n` bytes at `i` in `b` are the `n` bytes at `j` in `c`. */
  ghost predicate Same(b: Bytes, i: nat, c: Bytes, j: nat, n: nat) {
    i + n <= |b| && j + n <= |c| && b[i..i + n] == c[j..j + n]
  }

  lemma {:induction false} SameSub(b: Bytes, i: nat, c: Bytes, j: nat, n: nat, d: nat, m: nat)
    requires Same(b, i, c, j, n) && d + m <= n
    ensures Same(b, i + d, c, j + d, m)
  {
    var x, y := b[i + d..i + d + m], c[j + d..j + d + m];
    forall k | 0 <= k < m
      ensures x[k] == y[k]
    {
      assert x[k] == b[i..i + n][d + k] && y[k] == c[j..j + n][d + k];
    }
  }

  /** A varint read at one place is read the same wherever the same bytes stand. */
  lemma {:induction false} DigitsLocal(b: Bytes, i: nat, c: Bytes, j: nat, k: nat)
    requires Digits(b, i, k).Ok? && Same(b, i, c, j, Digits(b, i, k).value.1 - i)
    ensures Digits(c, j, k) == Ok((Digits(b, i, k).value.0, j + (Digits(b, i, k).value.1 - i)))
    decreases 10 - k
  {
    var n := Digits(b, i, k).value.1 - i;
    assert b[i] == b[i..i + n][0] == c[j..j + n][0] == c[j];
    if b[i] >= 128 {
      SameSub(b, i, c, j, n, 1, n - 1);
      DigitsLocal(b, i + 1, c, j + 1, k + 1);
    }
  }

  lemma {:induction false} ReadVarintLocal(b: Bytes, i: nat, c: Bytes, j: nat)
    requires ReadVarint(b, i).Ok? && Same(b, i, c, j, ReadVarint(b, i).value.1 - i)
    ensures ReadVarint(c, j) == Ok((ReadVarint(b, i).value.0, j + (ReadVarint(b, i).value.1 - i)))
  {
    DigitsLocal(b, i, c, j, 0);
  }

  /** Behind any prefix a varint, or the failure to read one, is the same. */
  lemma {:induction false} DigitsShift(a: Bytes, b: Bytes, i: nat, k: nat)
    ensures match Digits(b, i, k)
            case Err(e) => Digits(a + b, |a| + i, k) == Err(e)
            case Ok(r) => Digits(a + b, |a| + i, k) == Ok((r.0, |a| + r.1))
    decreases 10 - k
  {
    if k < 10 && i < |b| {
      assert (a + b)[|a| + i] == b[i];
      DigitsShift(a, b, i + 1, k + 1);
    }
  }

  lemma {:induction false} DigitsOfEncoding(v: nat, t: Bytes, k: nat)
    requires k < 10 && v < Pow128(10 - k)
    ensures Digits(EncodeVarint(v) + t, 0, k) == Ok((v, |EncodeVarint(v)|))
    decreases 10 - k
  {
    if v >= 128 {
      var e, r := EncodeVarint(v), EncodeVarint(v / 128);
      assert k != 9 by { assert Pow128(1) == 128 * Pow128(0); }
      assert Pow128(10 - k) == 128 * Pow128(9 - k);
      DigitsOfEncoding(v / 128, t, k + 1);
      assert e + t == [v % 128 + 128] + (r + t);
      DigitsShift([v % 128 + 128], r + t, 0, k + 1);
    }
  }

  /** Every 64-bit word is read back from its encoding, whatever follows. */
  lemma {:induction false} VarintRoundTrip(v: nat, t: Bytes)
    requires v < TWO64
    ensures ReadVarint(EncodeVarint(v) + t, 0) == Ok((v, |EncodeVarint(v)|))
  {
    Pow128Ten();
    DigitsOfEncoding(v, t, 0);
  }

  lemma {:induction false} VarintReadBack(a: Bytes, v: nat, t: Bytes)
    requires v < TWO64
    ensures ReadVarint(a + EncodeVarint(v) + t, |a|) == Ok((v, |a| + |EncodeVarint(v)|))
  {
    VarintRoundTrip(v, t);
    DigitsShift(a, EncodeVarint(v) + t, 0, 0);
    assert a + (EncodeVarint(v) + t) == a + EncodeVarint(v) + t;
  }

  lemma {:induction false} Pow128Ten()
    ensures Pow128(10) > TWO64
  {
    assert Pow128(5) == 128 * Pow128(4) && Pow128(4) == 128 * Pow128(3) && Pow128(3) == 128 * Pow128(2);
    assert Pow128(10) == 128 * Pow128(9) && Pow128(9) == 128 * Pow128(8) && Pow128(8) == 128 * Pow128(7);
    assert Pow128(7) == 128 * Pow128(6) && Pow128(6) == 128 * Pow128(5);
  }

  /** A varint takes no fewer bytes on the wire than its value takes when written. */
  lemma {:induction false} EncodingIsShortest(b: Bytes, i: nat, k: nat)
    requires Digits(b, i, k).Ok?
    ensures |EncodeVarint(Digits(b, i, k).value.0)| <= Digits(b, i, k).value.1 - i
    decreases 10 - k
  {
    if b[i] >= 128 {
      EncodingIsShortest(b, i + 1, k + 1);
      var r := Digits(b, i + 1, k + 1).value.0;
      var v := b[i] - 128 + 128 * r;
      assert v / 128 == r;
    }
  }

  lemma {:induction false} EncodingGrows(v: nat, w: nat)
    requires v <= w
    ensures |EncodeVarint(v)| <= |EncodeVarint(w)|
  {
    if w >= 128 && v >= 128 {
      EncodingGrows(v / 128, w / 128);
    }
  }

  // ----- the loops -----

  /** The read loop of the generated code. The accumulated bits lie below `shift`, so or-ing in the
    * next seven is adding them; the shift drops what does not fit 64 bits. */
  method ReadVarintLoop(dAtA: Bytes, start: nat) returns (r: Result<(nat, nat)>)
    ensures r == ReadVarint(dAtA, start)
  {
    var wire: nat, iNdEx: nat, shift: nat := 0, start, 0;
    ghost var sum: nat, k: nat := 0, 0;
    while true
      invariant k <= 10 && shift == 7 * k && wire == sum % TWO64
      invariant Reading(dAtA, start, iNdEx, k, sum)
      decreases 10 - k
    {
      if shift >= 64 {
        return Err(IntOverflow);
      }
      if iNdEx >= |dAtA| {
        return Err(UnexpectedEOF);
      }
      var b := dAtA[iNdEx];
      ReadingStep(dAtA, start, iNdEx, k, sum);
      AddDigit(sum, b % 128, k);
      iNdEx := iNdEx + 1;
      wire := (wire + Shl(b % 128, shift)) % TWO64;
      if b < 0x80 {
        return Ok((wire, iNdEx));
      }
      sum := sum + Mul(b % 128, Pow128(k));
      shift, k := shift + 7, k + 1;
    }
  }

  /** With `k` digits read that add up to `sum`, what is left to read completes the varint at `start`. */
  ghost predicate Reading(b: Bytes, start: nat, i: nat, k: nat, sum: nat) {
    match Digits(b, i, k)
    case Err(e) => Digits(b, start, 0) == Err(e)
    case Ok(d) => Digits(b, start, 0) == Ok((sum + Mul(d.0, Pow128(k)), d.1))
  }

  lemma {:induction false} ReadingStep(b: Bytes, start: nat, i: nat, k: nat, sum: nat)
    requires Reading(b, start, i, k, sum) && k < 10 && i < |b|
    ensures b[i] < 128 ==> Digits(b, start, 0) == Ok((sum + Mul(b[i] % 128, Pow128(k)), i + 1))
    ensures b[i] >= 128 ==> Reading(b, start, i + 1, k + 1, sum + Mul(b[i] % 128, Pow128(k)))
  {
    if b[i] >= 128 && Digits(b, i + 1, k + 1).Ok? {
      NextDigit(b[i] % 128, Digits(b, i + 1, k + 1).value.0, k);
    }
  }

  ghost function Mul(x: nat, y: nat): nat { x * y }

  /** `x << n`, before truncation. */
  function Shl(x: nat, n: nat): nat {
    if n == 0 then x else 2 * Shl(x, n - 1)
  }

  lemma {:induction false} ShlPow128(x: nat, k: nat)
    ensures Shl(x, 7 * k) == Mul(x, Pow128(k))
  {
    if k > 0 {
      ShlPow128(x, k - 1);
      ShlSeven(x, 7 * (k - 1));
      calc {
        x * Pow128(k);
        x * (128 * Pow128(k - 1));
        128 * (x * Pow128(k - 1));
      }
    }
  }

  lemma {:induction false} ShlSeven(x: nat, n: nat)
    ensures Shl(x, n + 7) == 128 * Shl(x, n)
  {
    assert Shl(x, n + 7) == 2 * Shl(x, n + 6) && Shl(x, n + 6) == 2 * Shl(x, n + 5);
    assert Shl(x, n + 5) == 2 * Shl(x, n + 4) && Shl(x, n + 4) == 2 * Shl(x, n + 3);
    assert Shl(x, n + 3) == 2 * Shl(x, n + 2) && Shl(x, n + 2) == 2 * Shl(x, n + 1);
    assert Shl(x, n + 1) == 2 * Shl(x, n);
  }

  lemma {:induction false} AddDigit(sum: nat, digit: nat, k: nat)
    ensures (sum % TWO64 + Shl(digit, 7 * k)) % TWO64 == (sum + Mul(digit, Pow128(k))) % TWO64
  {
    ShlPow128(digit, k);
  }

  lemma {:induction false} NextDigit(digit: nat, rest: nat, k: nat)
    ensures Mul(digit + 128 * rest, Pow128(k)) == Mul(digit, Pow128(k)) + Mul(rest, Pow128(k + 1))
  {
    calc {
      (digit + 128 * rest) * Pow128(k);
      digit * Pow128(k) + rest * (128 * Pow128(k));
    }
  }

  /** encodeVarintRpc: writes the varint in place and leaves every other byte alone. */
  method EncodeVarintLoop(dAtA: array<Byte>, offset: nat, v: nat) returns (next: nat)
    requires v < TWO64 && offset + |EncodeVarint(v)| <= dAtA.Length
    modifies dAtA
    ensures next == offset + |EncodeVarint(v)|
    ensures Written(old(dAtA[..]), dAtA[..], offset, EncodeVarint(v))
  {
    hide Written;
    WrittenNothing(dAtA[..], offset);
    var x := v;
    next := offset;
    ghost var done: Bytes, before := [], dAtA[..];
    while x >= 0x80
      invariant EncodeVarint(v) == done + EncodeVarint(x) && next == offset + |done|
      invariant before == dAtA[..] && Written(old(dAtA[..]), before, offset, done)
    {
      var byte := x % 128 + 128;
      dAtA[next] := byte;
      ByteWritten(old(dAtA[..]), before, dAtA[..], offset, done, byte);
      done, before := done + [byte], dAtA[..];
      x := x / 128;
      next := next + 1;
    }
    dAtA[next] := x;
    ByteWritten(old(dAtA[..]), before, dAtA[..], offset, done, x);
    next := next + 1;
  }

  /** `after` is `before` with `written` put at `offset` and nothing else changed. */
  ghost predicate Written(before: Bytes, after: Bytes, offset: nat, written: Bytes) {
    && offset + |written| <= |before| == |after|
    && (forall k | 0 <= k < |before| ::
         after[k] == if offset <= k < offset + |written| then written[k - offset] else before[k])
  }

  lemma {:induction false} WrittenNothing(b: Bytes, at: nat)
    requires at <= |b|
    ensures Written(b, b, at, [])
  {
  }

  lemma {:induction false} WrittenByte(b0: Bytes, b1: Bytes, at: nat, x: Byte)
    requires at < |b0| && b1 == b0[at := x]
    ensures Written(b0, b1, at, [x])
  {
  }

  lemma {:induction false} ByteWritten(b0: Bytes, b1: Bytes, b2: Bytes, at: nat, x: Bytes, y: Byte)
    requires Written(b0, b1, at, x) && at + |x| < |b1| && b2 == b1[at + |x| := y]
    ensures Written(b0, b2, at, x + [y])
  {
  }

  /** Writing one thing behind another writes their concatenation. */
  lemma {:induction false} WrittenThen(b0: Bytes, b1: Bytes, b2: Bytes, at: nat, x: Bytes, y: Bytes)
    requires Written(b0, b1, at, x) && Written(b1, b2, at + |x|, y)
    ensures Written(b0, b2, at, x + y)
  {
  }

  /** sovRpc: the number of bytes of a varint. */
  method SovLoop(x: nat) returns (n: nat)
    requires x < TWO64
    ensures n == |EncodeVarint(x)|
  {
    var y := x;
    n := 1;
    while y / 128 != 0
      invariant |EncodeVarint(x)| == n - 1 + |EncodeVarint(y)|
    {
      y := y / 128;
      n := n + 1;
    }
  }
}
