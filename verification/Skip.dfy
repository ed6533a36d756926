/** skipRpc: how many bytes the field at the head of a slice takes, groups included.
  *
  * The slice `dAtA[s:]` of the generated code is the buffer and the index `s`; as there, sizes and the
  * overflow checks count from the start of the slice.
  */
module Skip {

  import opened Varint

  /** The size of the field at `s`. A fixed-width field is sized without looking whether it is all
    * there, so the size may exceed what is left of the buffer. */
  function Size(b: Bytes, s: nat): (r: Result<nat>)
    requires s <= |b|
    ensures r.Ok? ==> 1 <= r.value && (r.value < TWO63 || s + r.value <= |b| + 8)
    ensures r == Err(Panic) <==> s == |b|
    decreases |b| - s, 1, 0
  {
    if s == |b| then Err(Panic)
    else
      match ReadVarint(b, s)
      case Err(e) => Err(e)
      case Ok((wire, i)) =>
        var wireType := wire % 8;
        if wireType == 0 then
          match ReadVarint(b, i)
          case Err(e) => Err(e)
          case Ok((_, n)) => Ok(n - s)
        else if wireType == 1 then Ok(i - s + 8)
        else if wireType == 2 then
          match ReadVarint(b, i)
          case Err(e) => Err(e)
          case Ok((length, n)) =>
            if length >= TWO63 || n - s + length >= TWO63 then Err(InvalidLength) else Ok(n - s + length)
        else if wireType == 3 then GroupSize(b, s, i)
        else if wireType == 4 then Ok(i - s)
        else if wireType == 5 then Ok(i - s + 4)
        else Err(IllegalWireType)
  }

  /** The size of the group at `s`, up to and with its end-group tag, given that its next field is at `i`. */
  function GroupSize(b: Bytes, s: nat, i: nat): (r: Result<nat>)
    requires s < |b| && s < i
    ensures r.Ok? ==> i - s < r.value <= |b| - s
    ensures r != Err(Panic)
    decreases |b| - s, 0, if i < |b| then |b| - i else 0
  {
    match ReadVarint(b, i)
    case Err(e) => Err(e)
    case Ok((wire, n)) =>
      if wire % 8 == 4 then Ok(n - s)
      else
        match Size(b, i)
        case Err(e) => Err(e)
        case Ok(next) => if i - s + next >= TWO63 then Err(InvalidLength) else GroupSize(b, s, i + next)
  }

  // ----- prefix stability -----

  /** A field found at one place is found wherever its bytes stand, whatever follows them. */
  lemma {:induction false} SizeLocal(b: Bytes, s: nat, c: Bytes, t: nat)
    requires s <= |b| && Size(b, s).Ok? && Same(b, s, c, t, Size(b, s).value)
    ensures Size(c, t) == Size(b, s)
    decreases |b| - s, 1, 0
  {
    hide ReadVarint, Same;
    var n := Size(b, s).value;
    var (wire, i) := ReadVarint(b, s).value;
    SameSub(b, s, c, t, n, 0, i - s);
    ReadVarintLocal(b, s, c, t);
    if wire % 8 == 3 {
      GroupLocal(b, s, i, c, t);
    } else if wire % 8 == 0 || wire % 8 == 2 {
      SameSub(b, s, c, t, n, i - s, ReadVarint(b, i).value.1 - i);
      ReadVarintLocal(b, i, c, t + (i - s));
    }
  }

  lemma {:induction false} GroupLocal(b: Bytes, s: nat, i: nat, c: Bytes, t: nat)
    requires s < |b| && s < i && GroupSize(b, s, i).Ok? && Same(b, s, c, t, GroupSize(b, s, i).value)
    ensures GroupSize(c, t, t + (i - s)) == GroupSize(b, s, i)
    decreases |b| - s, 0, |b| - i
  {
    hide ReadVarint, Same;
    var n := GroupSize(b, s, i).value;
    var (wire, k) := ReadVarint(b, i).value;
    SameSub(b, s, c, t, n, i - s, k - i);
    ReadVarintLocal(b, i, c, t + (i - s));
    if wire % 8 != 4 {
      var next := Size(b, i).value;
      SameSub(b, s, c, t, n, i - s, next);
      SizeLocal(b, i, c, t + (i - s));
      GroupLocal(b, s, i + next, c, t);
    }
  }

  // ----- the skipper -----

  /** skipRpc on the slice at `s`, with its index arithmetic wrapping at 64 bits. The result of a
    * fixed-width field at the very end of the address space wraps to a negative number, which every
    * caller refuses. */
  method SkipRpc(dAtA: Bytes, s: nat) returns (r: Result<int>)
    requires s <= |dAtA| < TWO63
    ensures match Size(dAtA, s)
            case Err(e) => r == Err(e)
            case Ok(n) => r == Ok(Int64(n))
    decreases |dAtA| - s, 1
  {
    hide ReadVarint;
    if s == |dAtA| {
      return Err(Panic);
    }
    var tag := ReadVarintLoop(dAtA, s);
    if tag.Err? {
      return Err(tag.error);
    }
    var wireType, iNdEx: int := tag.value.0 % 8, tag.value.1 - s;
    match wireType {
      case 0 =>
        var v := ReadVarintLoop(dAtA, s + iNdEx);
        if v.Err? {
          return Err(v.error);
        }
        return Ok(v.value.1 - s);
      case 1 =>
        return Ok(Int64(iNdEx + 8));
      case 2 =>
        var v := ReadVarintLoop(dAtA, s + iNdEx);
        if v.Err? {
          return Err(v.error);
        }
        var length := Int64(v.value.0);
        if length < 0 {
          return Err(InvalidLength);
        }
        iNdEx := Int64(v.value.1 - s + length);
        if iNdEx < 0 {
          return Err(InvalidLength);
        }
        return Ok(iNdEx);
      case 3 =>
        r := SkipGroup(dAtA, s, iNdEx);
      case 4 =>
        return Ok(iNdEx);
      case 5 =>
        return Ok(Int64(iNdEx + 4));
      case _ =>
        return Err(IllegalWireType);
    }
  }

  /** The loop of skipRpc over the fields of a group. */
  method SkipGroup(dAtA: Bytes, s: nat, first: nat) returns (r: Result<int>)
    requires 0 < first && s + first <= |dAtA| < TWO63
    ensures r == GroupSize(dAtA, s, s + first)
    decreases |dAtA| - s, 0
  {
    hide ReadVarint;
    var iNdEx: int := first;
    while true
      invariant 0 < iNdEx < TWO63 && GroupSize(dAtA, s, s + iNdEx) == GroupSize(dAtA, s, s + first)
      decreases |dAtA| - s - iNdEx
    {
      var start := iNdEx;
      var inner := ReadVarintLoop(dAtA, s + start);
      if inner.Err? {
        return Err(inner.error);
      }
      if inner.value.0 % 8 == 4 {
        return Ok(inner.value.1 - s);
      }
      var next := SkipRpc(dAtA, s + start);
      if next.Err? {
        return Err(next.error);
      }
      iNdEx := Int64(start + next.value);
      if iNdEx < 0 {
        return Err(InvalidLength);
      }
    }
  }
}
