/** The parts of the generated codec that are the same for every message type: the loop of Unmarshal
  * over the fields of a buffer, and the writing of fields by MarshalTo.
  *
  * What differs from type to type is a description: which field numbers are known and with which
  * wire type, and what a known field does to the message.
  */
module Codec {

  import opened Varint
  import Skip

  /** A message: its known fields, and XXX_unrecognized. */
  datatype Message<+T> = Message(body: T, unrecognized: Bytes)

  datatype Kind = AsVarint | AsBytes | Unknown

  datatype Field =
    | VarintField(num: int, word: nat)
    | BytesField(num: int, payload: Bytes)
    | UnknownField(raw: Bytes)

  /** The switch of one Unmarshal function. */
  datatype Description<!T> = Description(kinds: int -> Kind, apply: (T, Field) -> Result<T>)

  // ----- reading -----

  /** The field at `i`, and the index behind it. */
  function NextField(kinds: int -> Kind, b: Bytes, i: nat): (r: Result<(Field, nat)>)
    requires i < |b|
    ensures r.Ok? ==> i < r.value.1 <= |b|
    ensures r != Err(Panic)
  {
    match ReadVarint(b, i)
    case Err(e) => Err(e)
    case Ok((wire, j)) =>
      var num, wireType := Int32(wire / 8), wire % 8;
      if wireType == 4 then Err(EndGroup)
      else if num <= 0 then Err(IllegalTag)
      else
        match kinds(num)
        case AsVarint => if wireType != 0 then Err(WrongWireType) else ReadWord(b, num, j)
        case AsBytes => if wireType != 2 then Err(WrongWireType) else ReadPayload(b, num, j)
        case Unknown => ReadUnknown(b, i)
  }

  function ReadWord(b: Bytes, num: int, j: nat): (r: Result<(Field, nat)>)
    ensures r.Ok? ==> j < r.value.1 <= |b| && r.value.0.VarintField? && r.value.0.word < TWO64
    ensures r != Err(Panic)
  {
    match ReadVarint(b, j)
    case Err(e) => Err(e)
    case Ok((word, n)) => Ok((VarintField(num, word), n))
  }

  function ReadPayload(b: Bytes, num: int, j: nat): (r: Result<(Field, nat)>)
    ensures r.Ok? ==> j < r.value.1 <= |b|
    ensures r != Err(Panic)
  {
    match ReadVarint(b, j)
    case Err(e) => Err(e)
    case Ok((length, k)) =>
      if length >= TWO63 || k + length >= TWO63 then Err(InvalidLength)
      else if k + length > |b| then Err(UnexpectedEOF)
      else Ok((BytesField(num, b[k..k + length]), k + length))
  }

  function ReadUnknown(b: Bytes, i: nat): (r: Result<(Field, nat)>)
    requires i < |b|
    ensures r.Ok? ==> i < r.value.1 <= |b| && r.value.0 == UnknownField(b[i..r.value.1])
    ensures r != Err(Panic)
  {
    match Skip.Size(b, i)
    case Err(e) => Err(e)
    case Ok(n) =>
      if n >= TWO63 || i + n >= TWO63 then Err(InvalidLength)
      else if i + n > |b| then Err(UnexpectedEOF)
      else Ok((UnknownField(b[i..i + n]), i + n))
  }

  /** What a field does to a message: a known one is applied, an unknown one is kept. */
  function Apply<T>(d: Description<T>, m: Message<T>, f: Field): Result<Message<T>> {
    match f
    case UnknownField(raw) => Ok(m.(unrecognized := m.unrecognized + raw))
    case _ =>
      match d.apply(m.body, f)
      case Err(e) => Err(e)
      case Ok(body) => Ok(m.(body := body))
  }

  /** Unmarshal of `b` from index `i` on, into `m`. */
  function Decode<T>(d: Description<T>, b: Bytes, i: nat, m: Message<T>): Result<Message<T>>
    requires i <= |b|
    decreases |b| - i
  {
    if i == |b| then Ok(m)
    else
      match NextField(d.kinds, b, i)
      case Err(e) => Err(e)
      case Ok((f, n)) =>
        match Apply(d, m, f)
        case Err(e) => Err(e)
        case Ok(m') => Decode(d, b, n, m')
  }

  // ----- the loop of Unmarshal -----

  /** The loop of the generated Unmarshal functions, with its index arithmetic wrapping at 64 bits. */
  method Unmarshal<T>(d: Description<T>, dAtA: Bytes, into: Message<T>) returns (r: Result<Message<T>>)
    requires |dAtA| < TWO63
    ensures r == Decode(d, dAtA, 0, into)
  {
    hide ReadVarint, Skip.Size;
    var l := |dAtA|;
    var m, iNdEx: int := into, 0;
    while iNdEx < l
      invariant 0 <= iNdEx <= l
      invariant Decode(d, dAtA, iNdEx, m) == Decode(d, dAtA, 0, into)
    {
      var preIndex := iNdEx;
      var tag := ReadVarintLoop(dAtA, iNdEx);
      if tag.Err? {
        return Err(tag.error);
      }
      var wire := tag.value.0;
      iNdEx := tag.value.1;
      var fieldNum, wireType := Int32(wire / 8), wire % 8;
      if wireType == 4 {
        return Err(EndGroup);
      }
      if fieldNum <= 0 {
        return Err(IllegalTag);
      }
      var f: Field;
      match d.kinds(fieldNum) {
        case AsVarint =>
          if wireType != 0 {
            return Err(WrongWireType);
          }
          var v := ReadVarintLoop(dAtA, iNdEx);
          if v.Err? {
            return Err(v.error);
          }
          f, iNdEx := VarintField(fieldNum, v.value.0), v.value.1;
        case AsBytes =>
          if wireType != 2 {
            return Err(WrongWireType);
          }
          var v := ReadVarintLoop(dAtA, iNdEx);
          if v.Err? {
            return Err(v.error);
          }
          iNdEx := v.value.1;
          var length := Int64(v.value.0);
          if length < 0 {
            return Err(InvalidLength);
          }
          var postIndex := Int64(iNdEx + length);
          if postIndex < 0 {
            return Err(InvalidLength);
          }
          if postIndex > l {
            return Err(UnexpectedEOF);
          }
          f, iNdEx := BytesField(fieldNum, dAtA[iNdEx..postIndex]), postIndex;
        case Unknown =>
          iNdEx := preIndex;
          var skippy := Skip.SkipRpc(dAtA, iNdEx);
          if skippy.Err? {
            return Err(skippy.error);
          }
          if skippy.value < 0 {
            return Err(InvalidLength);
          }
          if Int64(iNdEx + skippy.value) < 0 {
            return Err(InvalidLength);
          }
          if Int64(iNdEx + skippy.value) > l {
            return Err(UnexpectedEOF);
          }
          f := UnknownField(dAtA[iNdEx..iNdEx + skippy.value]);
          iNdEx := iNdEx + skippy.value;
      }
      assert NextField(d.kinds, dAtA, preIndex) == Ok((f, iNdEx));
      var applied := Apply(d, m, f);
      if applied.Err? {
        return Err(applied.error);
      }
      m := applied.value;
    }
    return Ok(m);
  }

  // ----- decoding is a fold over concatenation -----

  /** A field is read the same wherever its bytes stand. */
  lemma {:induction false} NextFieldLocal(kinds: int -> Kind, b: Bytes, i: nat, c: Bytes, j: nat)
    requires i < |b| && j < |c| && NextField(kinds, b, i).Ok?
    requires Same(b, i, c, j, NextField(kinds, b, i).value.1 - i)
    requires j + (NextField(kinds, b, i).value.1 - i) < TWO63
    ensures NextField(kinds, c, j) == Ok((NextField(kinds, b, i).value.0, j + (NextField(kinds, b, i).value.1 - i)))
  {
    hide ReadVarint, Same, Skip.Size;
    var (f, n) := NextField(kinds, b, i).value;
    var (wire, k) := ReadVarint(b, i).value;
    if f.UnknownField? {
      Skip.SizeLocal(b, i, c, j);
      TagLocal(b, i, n, c, j);
      SameBytes(b, i, c, j, n - i);
    } else {
      var m := ReadVarint(b, k).value.1;
      SameSub(b, i, c, j, n - i, 0, k - i);
      ReadVarintLocal(b, i, c, j);
      SameSub(b, i, c, j, n - i, k - i, m - k);
      ReadVarintLocal(b, k, c, j + (k - i));
      SameSub(b, i, c, j, n - i, m - i, n - m);
      SameBytes(b, m, c, j + (m - i), n - m);
    }
  }

  lemma {:induction false} SameBytes(b: Bytes, i: nat, c: Bytes, j: nat, n: nat)
    requires Same(b, i, c, j, n)
    ensures i + n <= |b| && j + n <= |c| && b[i..i + n] == c[j..j + n]
  {
  }

  lemma {:induction false} TagLocal(b: Bytes, i: nat, n: nat, c: Bytes, j: nat)
    requires i <= |b| && Skip.Size(b, i) == Ok(n - i) && i < n <= |b| && Same(b, i, c, j, n - i)
    ensures ReadVarint(b, i).Ok?
            && ReadVarint(c, j) == Ok((ReadVarint(b, i).value.0, j + (ReadVarint(b, i).value.1 - i)))
  {
    hide ReadVarint, Same;
    SameSub(b, i, c, j, n - i, 0, ReadVarint(b, i).value.1 - i);
    ReadVarintLocal(b, i, c, j);
  }

  /** Behind any prefix a field is read, or refused, all the same. */
  lemma {:induction false} NextFieldShift(kinds: int -> Kind, a: Bytes, b: Bytes, i: nat)
    requires i < |b| && |a + b| < TWO63
    ensures match NextField(kinds, b, i)
            case Ok((f, n)) => NextField(kinds, a + b, |a| + i) == Ok((f, |a| + n))
            case Err(_) => NextField(kinds, a + b, |a| + i).Err?
  {
    hide NextField, Same;
    var c := a + b;
    if NextField(kinds, b, i).Ok? {
      BehindPrefix(a, b, i, NextField(kinds, b, i).value.1);
      NextFieldLocal(kinds, b, i, c, |a| + i);
    } else if NextField(kinds, c, |a| + i).Ok? {
      BehindPrefix(a, b, i, NextField(kinds, c, |a| + i).value.1 - |a|);
      NextFieldLocal(kinds, c, |a| + i, b, i);
      assert false;
    }
  }

  lemma {:induction false} BehindPrefix(a: Bytes, b: Bytes, i: nat, n: nat)
    requires i <= n <= |b|
    ensures Same(b, i, a + b, |a| + i, n - i) && Same(a + b, |a| + i, b, i, n - i)
  {
    assert (a + b)[|a| + i..|a| + n] == b[i..n];
  }

  /** Two outcomes agree, up to which error is reported. */
  ghost predicate Agree<T>(r: Result<T>, s: Result<T>) {
    r == s || (r.Err? && s.Err?)
  }

  lemma {:induction false} DecodeShift<T>(d: Description<T>, a: Bytes, b: Bytes, i: nat, m: Message<T>)
    requires i <= |b| && |a + b| < TWO63
    ensures Agree(Decode(d, a + b, |a| + i, m), Decode(d, b, i, m))
    decreases |b| - i
  {
    hide NextField;
    if i < |b| {
      NextFieldShift(d.kinds, a, b, i);
      if NextField(d.kinds, b, i).Ok? {
        var (f, n) := NextField(d.kinds, b, i).value;
        if Apply(d, m, f).Ok? {
          DecodeShift(d, a, b, n, Apply(d, m, f).value);
        }
      }
    }
  }

  lemma {:induction false} DecodePrefix<T>(d: Description<T>, a: Bytes, b: Bytes, i: nat, m: Message<T>)
    requires i <= |a| && |a + b| < TWO63 && Decode(d, a, i, m).Ok?
    ensures Decode(d, a + b, i, m) == Decode(d, a + b, |a|, Decode(d, a, i, m).value)
    decreases |a| - i
  {
    hide NextField, Same;
    if i < |a| {
      var (f, n) := NextField(d.kinds, a, i).value;
      assert Same(a, i, a + b, i, n - i) by { BeforeSuffix(a, b, i, n); }
      NextFieldLocal(d.kinds, a, i, a + b, i);
      DecodePrefix(d, a, b, n, Apply(d, m, f).value);
    }
  }

  lemma {:induction false} BeforeSuffix(a: Bytes, b: Bytes, i: nat, n: nat)
    requires i <= n <= |a|
    ensures Same(a, i, a + b, i, n - i)
  {
    assert (a + b)[i..n] == a[i..n];
  }

  /** Decoding is a fold over concatenation: what follows an accepted buffer is decoded into its result. */
  lemma {:induction false} DecodeConcat<T>(d: Description<T>, a: Bytes, b: Bytes, m: Message<T>)
    requires |a + b| < TWO63 && Decode(d, a, 0, m).Ok?
    ensures Agree(Decode(d, a + b, 0, m), Decode(d, b, 0, Decode(d, a, 0, m).value))
  {
    DecodePrefix(d, a, b, 0, m);
    DecodeShift(d, a, b, 0, Decode(d, a, 0, m).value);
  }

  // ----- unknown fields -----

  /** `u` consists of whole fields that the message type does not know. */
  predicate AllUnknown(kinds: int -> Kind, u: Bytes)
    decreases |u|
  {
    u == [] ||
    match NextField(kinds, u, 0)
    case Ok((UnknownField(_), n)) => AllUnknown(kinds, u[n..])
    case _ => false
  }

  lemma {:induction false} SliceSame(b: Bytes, i: nat, n: nat)
    requires i <= n <= |b|
    ensures Same(b, i, b[i..n], 0, n - i)
  {
    assert b[i..n][0..n - i] == b[i..n];
  }

  lemma {:induction false} UnknownIsRaw(kinds: int -> Kind, b: Bytes, i: nat)
    requires i < |b| && NextField(kinds, b, i).Ok? && NextField(kinds, b, i).value.0.UnknownField?
    ensures NextField(kinds, b, i).value.0.raw == b[i..NextField(kinds, b, i).value.1]
  {
  }

  lemma {:induction false} UnknownIsShort(kinds: int -> Kind, u: Bytes)
    requires u != [] && AllUnknown(kinds, u)
    ensures NextField(kinds, u, 0).value.1 < TWO63
  {
  }

  lemma {:induction false} AllUnknownAppend(kinds: int -> Kind, u: Bytes, b: Bytes, i: nat)
    requires AllUnknown(kinds, u) && i < |b|
    requires NextField(kinds, b, i).Ok? && NextField(kinds, b, i).value.0.UnknownField?
    requires |b| < TWO63
    ensures AllUnknown(kinds, u + NextField(kinds, b, i).value.0.raw)
    decreases |u|
  {
    hide NextField, Same;
    var (f, n) := NextField(kinds, b, i).value;
    UnknownIsRaw(kinds, b, i);
    var c := u + f.raw;
    if u == [] {
      assert c == f.raw;
      SliceSame(b, i, n);
      NextFieldLocal(kinds, b, i, c, 0);
      assert c[|c|..] == [];
    } else {
      var k := NextField(kinds, u, 0).value.1;
      BeforeSuffix(u, f.raw, 0, k);
      UnknownIsShort(kinds, u);
      NextFieldLocal(kinds, u, 0, c, 0);
      AllUnknownAppend(kinds, u[k..], b, i);
      assert c[k..] == u[k..] + f.raw;
    }
  }
}
