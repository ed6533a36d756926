/** The writing half of the generated codec: what MarshalTo writes and what Size promises, for a message
  * given as the pieces its fields are written in, and the round trip with the reading half.
  */
module Encoder {

  import opened Varint
  import opened Codec
  import opened Options

  /** The field numbers of the schema, whose tags are one byte. */
  type FieldNum = x: int | 0 < x < 16 witness 1
  type Word = x: int | 0 <= x < TWO64

  /** One field as MarshalTo writes it. A sub-message is written in place, from its own pieces. */
  datatype Piece =
    | WordPiece(num: FieldNum, word: Word)
    | BytesPiece(num: FieldNum, payload: Bytes)
    | MessagePiece(num: FieldNum, pieces: seq<Piece>, unrecognized: Bytes)

  function Tag(num: FieldNum, wireType: int): Byte
    requires 0 <= wireType < 8
  {
    num * 8 + wireType
  }

  function Sov(x: nat): (r: nat)
    ensures r > 0
  {
    |EncodeVarint(x)|
  }

  function Encode(ps: seq<Piece>): Bytes
    decreases ps
  {
    if ps == [] then [] else EncodePiece(ps[0]) + Encode(ps[1..])
  }

  function EncodePiece(p: Piece): (r: Bytes)
    ensures r != []
    decreases p
  {
    match p
    case WordPiece(num, word) => [Tag(num, 0)] + EncodeVarint(word)
    case BytesPiece(num, payload) => [Tag(num, 2)] + EncodeVarint(|payload|) + payload
    case MessagePiece(num, pieces, unrecognized) =>
      var inner := Encode(pieces) + unrecognized;
      [Tag(num, 2)] + EncodeVarint(|inner|) + inner
  }

  /** Size, as the generated code adds it up. */
  function Size(ps: seq<Piece>): nat
    decreases ps
  {
    if ps == [] then 0 else PieceSize(ps[0]) + Size(ps[1..])
  }

  function PieceSize(p: Piece): nat
    decreases p
  {
    match p
    case WordPiece(_, word) => 1 + Sov(word)
    case BytesPiece(_, payload) => 1 + |payload| + Sov(|payload|)
    case MessagePiece(_, pieces, unrecognized) =>
      var l := Size(pieces) + |unrecognized|;
      1 + l + Sov(l)
  }

  /** Size is exact. */
  lemma {:induction false} SizeIsLength(ps: seq<Piece>)
    ensures |Encode(ps)| == Size(ps)
    decreases ps
  {
    if ps != [] {
      PieceSizeIsLength(ps[0]);
      SizeIsLength(ps[1..]);
    }
  }

  lemma {:induction false} PieceSizeIsLength(p: Piece)
    ensures |EncodePiece(p)| == PieceSize(p)
    decreases p
  {
    if p.MessagePiece? {
      SizeIsLength(p.pieces);
    }
  }

  lemma {:induction false} EncodeAppend(ps: seq<Piece>, qs: seq<Piece>)
    ensures Encode(ps + qs) == Encode(ps) + Encode(qs)
  {
    if ps == [] {
      assert ps + qs == qs;
    } else {
      assert (ps + qs)[1..] == ps[1..] + qs;
      EncodeAppend(ps[1..], qs);
    }
  }

  lemma {:induction false} SizeAppend(ps: seq<Piece>, qs: seq<Piece>)
    ensures Size(ps + qs) == Size(ps) + Size(qs)
  {
    if ps == [] {
      assert ps + qs == qs;
    } else {
      assert (ps + qs)[1..] == ps[1..] + qs;
      SizeAppend(ps[1..], qs);
    }
  }

  // ----- MarshalTo -----

  /** MarshalTo: writes the message in place, exactly as many bytes as Size says, and touches no other byte. */
  method MarshalTo(ps: seq<Piece>, unrecognized: Bytes, dAtA: array<Byte>, at: nat) returns (n: nat)
    requires at + Size(ps) + |unrecognized| <= dAtA.Length < TWO63
    modifies dAtA
    ensures n == Size(ps) + |unrecognized|
    ensures Written(old(dAtA[..]), dAtA[..], at, Encode(ps) + unrecognized)
    decreases ps
  {
    hide Encode, EncodePiece, Size, PieceSize, Written;
    var i := at;
    Prefix(ps, 0);
    WrittenNothing(dAtA[..], at);
    for k := 0 to |ps|
      invariant i == at + Size(ps[..k])
      invariant Written(old(dAtA[..]), dAtA[..], at, Encode(ps[..k]))
    {
      Prefix(ps, k);
      ghost var before := dAtA[..];
      var m := MarshalPiece(ps[k], dAtA, i);
      WrittenThen(old(dAtA[..]), before, dAtA[..], at, Encode(ps[..k]), EncodePiece(ps[k]));
      i := i + m;
    }
    Prefix(ps, |ps|);
    ghost var before := dAtA[..];
    Copy(dAtA, i, unrecognized);
    WrittenThen(old(dAtA[..]), before, dAtA[..], at, Encode(ps), unrecognized);
    n := i + |unrecognized| - at;
  }

  /** What the first `k` pieces and the next one write. */
  lemma {:induction false} Prefix(ps: seq<Piece>, k: nat)
    requires k <= |ps|
    ensures |Encode(ps[..k])| == Size(ps[..k])
    ensures k < |ps| ==> Encode(ps[..k + 1]) == Encode(ps[..k]) + EncodePiece(ps[k])
    ensures k < |ps| ==> Size(ps[..k + 1]) == Size(ps[..k]) + PieceSize(ps[k]) <= Size(ps)
    ensures k == 0 ==> Encode(ps[..k]) == [] && Size(ps[..k]) == 0
    ensures k == |ps| ==> ps[..k] == ps
  {
    SizeIsLength(ps[..k]);
    if k < |ps| {
      assert ps[..k + 1] == ps[..k] + [ps[k]] && ps == ps[..k + 1] + ps[k + 1..];
      SizeAppend(ps[..k], [ps[k]]);
      SizeAppend(ps[..k + 1], ps[k + 1..]);
      EncodeAppend(ps[..k], [ps[k]]);
      assert Encode([ps[k]]) == EncodePiece(ps[k]) + Encode([]);
    }
  }

  method MarshalPiece(p: Piece, dAtA: array<Byte>, at: nat) returns (n: nat)
    requires at + PieceSize(p) <= dAtA.Length < TWO63
    modifies dAtA
    ensures n == PieceSize(p)
    ensures Written(old(dAtA[..]), dAtA[..], at, EncodePiece(p))
    decreases p
  {
    hide Encode, Size, EncodeVarint, Written;
    PieceSizeIsLength(p);
    ghost var b0 := dAtA[..];
    dAtA[at] := Tag(p.num, if p.WordPiece? then 0 else 2);
    ghost var b1 := dAtA[..];
    WrittenByte(b0, b1, at, dAtA[at]);
    match p {
      case WordPiece(num, word) =>
        var i := EncodeVarintLoop(dAtA, at + 1, word);
        WrittenThen(b0, b1, dAtA[..], at, [Tag(num, 0)], EncodeVarint(word));
        n := i - at;
      case BytesPiece(num, payload) =>
        var i := EncodeVarintLoop(dAtA, at + 1, |payload|);
        ghost var b2 := dAtA[..];
        WrittenThen(b0, b1, b2, at, [Tag(num, 2)], EncodeVarint(|payload|));
        Copy(dAtA, i, payload);
        WrittenThen(b0, b2, dAtA[..], at, [Tag(num, 2)] + EncodeVarint(|payload|), payload);
        n := i + |payload| - at;
      case MessagePiece(num, pieces, unrecognized) =>
        SizeIsLength(pieces);
        ghost var inner := Encode(pieces) + unrecognized;
        var i := EncodeVarintLoop(dAtA, at + 1, Size(pieces) + |unrecognized|);
        ghost var b2 := dAtA[..];
        WrittenThen(b0, b1, b2, at, [Tag(num, 2)], EncodeVarint(|inner|));
        var m := MarshalTo(pieces, unrecognized, dAtA, i);
        WrittenThen(b0, b2, dAtA[..], at, [Tag(num, 2)] + EncodeVarint(|inner|), inner);
        n := i + m - at;
    }
  }

  /** Go's copy. */
  method Copy(dAtA: array<Byte>, at: nat, src: Bytes)
    requires at + |src| <= dAtA.Length
    modifies dAtA
    ensures Written(old(dAtA[..]), dAtA[..], at, src)
  {
    for k := 0 to |src|
      invariant Written(old(dAtA[..]), dAtA[..], at, src[..k])
    {
      dAtA[at + k] := src[k];
    }
    assert src[..|src|] == src;
  }

  // ----- what is written is read back -----

  /** The field that reading a piece gives. */
  function Flat(p: Piece): Field
  {
    match p
    case WordPiece(num, word) => VarintField(num, word)
    case BytesPiece(num, payload) => BytesField(num, payload)
    case MessagePiece(num, pieces, unrecognized) => BytesField(num, Encode(pieces) + unrecognized)
  }

  /** The piece is one the description knows, with the right wire type. */
  predicate Known(kinds: int -> Kind, p: Piece) {
    kinds(p.num) == (if p.WordPiece? then AsVarint else AsBytes)
  }

  /** Applying the fields of the pieces one after the other. */
  function ApplyAll<T>(d: Description<T>, m: Message<T>, ps: seq<Piece>): Result<Message<T>>
    decreases ps
  {
    if ps == [] then Ok(m)
    else
      match Apply(d, m, Flat(ps[0]))
      case Err(e) => Err(e)
      case Ok(m') => ApplyAll(d, m', ps[1..])
  }

  lemma {:induction false} PieceReadBack(kinds: int -> Kind, p: Piece, t: Bytes)
    requires Known(kinds, p) && |EncodePiece(p) + t| < TWO63
    ensures NextField(kinds, EncodePiece(p) + t, 0) == Ok((Flat(p), |EncodePiece(p)|))
  {
    if p.WordPiece? {
      WordReadBack(kinds, p.num, p.word, t);
    } else {
      PayloadReadBack(kinds, p.num, Flat(p).payload, t);
    }
  }

  lemma {:induction false} WordReadBack(kinds: int -> Kind, num: FieldNum, word: Word, t: Bytes)
    requires kinds(num) == AsVarint
    ensures var e := [Tag(num, 0)] + EncodeVarint(word);
            NextField(kinds, e + t, 0) == Ok((VarintField(num, word), |e|))
  {
    hide ReadVarint, EncodeVarint;
    var head, e := [Tag(num, 0)], [Tag(num, 0)] + EncodeVarint(word);
    assert e + t == head + (EncodeVarint(word) + t);
    TagReadBack(num, 0, EncodeVarint(word) + t, e + t);
    VarintReadBack(head, word, t);
  }

  lemma {:induction false} PayloadReadBack(kinds: int -> Kind, num: FieldNum, payload: Bytes, t: Bytes)
    requires kinds(num) == AsBytes
    requires |[Tag(num, 2)] + EncodeVarint(|payload|) + payload + t| < TWO63
    ensures var e := [Tag(num, 2)] + EncodeVarint(|payload|) + payload;
            NextField(kinds, e + t, 0) == Ok((BytesField(num, payload), |e|))
  {
    hide ReadVarint, EncodeVarint;
    var head, length := [Tag(num, 2)], EncodeVarint(|payload|);
    var b := head + length + payload + t;
    assert b == head + (length + payload + t) && b == head + length + (payload + t);
    TagReadBack(num, 2, length + payload + t, b);
    VarintReadBack(head, |payload|, payload + t);
    assert b[1 + |length|..1 + |length| + |payload|] == payload;
  }

  lemma {:induction false} TagReadBack(num: FieldNum, wireType: int, t: Bytes, b: Bytes)
    requires 0 <= wireType < 8 && b == [Tag(num, wireType)] + t
    ensures ReadVarint(b, 0) == Ok((num * 8 + wireType, 1))
    ensures Int32((num * 8 + wireType) / 8) == num && (num * 8 + wireType) % 8 == wireType
  {
  }

  /** Decoding the written pieces applies their fields in order. */
  lemma {:induction false} DecodePieces<T>(d: Description<T>, ps: seq<Piece>, m: Message<T>)
    requires forall p | p in ps :: Known(d.kinds, p)
    requires |Encode(ps)| < TWO63
    ensures Agree(Decode(d, Encode(ps), 0, m), ApplyAll(d, m, ps))
  {
    if ps != [] {
      var x, y := EncodePiece(ps[0]), Encode(ps[1..]);
      assert Encode(ps) == x + y;
      DecodeOnePiece(d, ps[0], y, m);
      var applied := Apply(d, m, Flat(ps[0]));
      if applied.Ok? {
        DecodePieces(d, ps[1..], applied.value);
      }
      hide Encode, EncodePiece, Decode, NextField, Apply;
    }
  }

  /** One written field, and what follows it. */
  lemma {:induction false} DecodeOnePiece<T>(d: Description<T>, p: Piece, rest: Bytes, m: Message<T>)
    requires Known(d.kinds, p) && |EncodePiece(p) + rest| < TWO63
    ensures match Apply(d, m, Flat(p))
            case Err(e) => Decode(d, EncodePiece(p) + rest, 0, m) == Err(e)
            case Ok(m') => Agree(Decode(d, EncodePiece(p) + rest, 0, m), Decode(d, rest, 0, m'))
  {
    hide EncodePiece, NextField, Apply;
    var b := EncodePiece(p) + rest;
    PieceReadBack(d.kinds, p, rest);
    var applied := Apply(d, m, Flat(p));
    if applied.Ok? {
      assert Decode(d, b, 0, m) == Decode(d, b, |EncodePiece(p)|, applied.value);
      hide Decode;
      DecodeShift(d, EncodePiece(p), rest, 0, applied.value);
    }
  }

  lemma {:induction false} DecodeUnknown<T>(d: Description<T>, u: Bytes, m: Message<T>)
    requires AllUnknown(d.kinds, u) && |u| < TWO63
    ensures Decode(d, u, 0, m) == Ok(m.(unrecognized := m.unrecognized + u))
    decreases |u|
  {
    hide NextField;
    if u == [] {
      assert m.unrecognized + u == m.unrecognized;
    } else {
      var n := NextField(d.kinds, u, 0).value.1;
      UnknownIsRaw(d.kinds, u, 0);
      var m' := m.(unrecognized := m.unrecognized + u[..n]);
      DecodeUnknown(d, u[n..], m');
      assert u[..n] + u[n..] == u;
      DecodeShift(d, u[..n], u[n..], 0, m');
      assert m.unrecognized + u[..n] + u[n..] == m.unrecognized + u;
    }
  }

  /** The round trip of one message type, given that applying its written pieces rebuilds its body. */
  lemma {:induction false} RoundTrip<T>(d: Description<T>, empty: T, ps: seq<Piece>, m: Message<T>)
    requires forall p | p in ps :: Known(d.kinds, p)
    requires ApplyAll(d, Message(empty, []), ps) == Ok(Message(m.body, []))
    requires AllUnknown(d.kinds, m.unrecognized) && Size(ps) + |m.unrecognized| < TWO63
    ensures Decode(d, Encode(ps) + m.unrecognized, 0, Message(empty, [])) == Ok(m)
  {
    SizeIsLength(ps);
    DecodePieces(d, ps, Message(empty, []));
    DecodeConcat(d, Encode(ps), m.unrecognized, Message(empty, []));
    DecodeUnknown(d, m.unrecognized, Message(m.body, []));
    assert [] + m.unrecognized == m.unrecognized;
  }

  // ----- what decoding keeps -----

  /** A payload that came out of a buffer. */
  predicate Fits(f: Field) {
    f.BytesField? ==> |f.payload| < TWO63
  }

  /** A property of bodies that every known field keeps holds of what is decoded, and what is kept of
    * unknown fields are whole unknown fields. */
  lemma {:induction false} DecodeKeeps<T(!new)>(d: Description<T>, b: Bytes, i: nat, m: Message<T>, good: T -> bool)
    requires i <= |b| < TWO63
    requires good(m.body) && AllUnknown(d.kinds, m.unrecognized)
    requires forall t, f | good(t) && Fits(f) && d.apply(t, f).Ok? :: good(d.apply(t, f).value)
    ensures Decode(d, b, i, m).Ok? ==>
              var r := Decode(d, b, i, m).value;
              good(r.body) && AllUnknown(d.kinds, r.unrecognized)
    decreases |b| - i
  {
    hide NextField;
    if i < |b| && NextField(d.kinds, b, i).Ok? {
      var (f, n) := NextField(d.kinds, b, i).value;
      PayloadFits(d.kinds, b, i);
      if f.UnknownField? {
        UnknownIsRaw(d.kinds, b, i);
        AllUnknownAppend(d.kinds, m.unrecognized, b, i);
      }
      if Apply(d, m, f).Ok? {
        DecodeKeeps(d, b, n, Apply(d, m, f).value, good);
      }
    }
  }

  lemma {:induction false} PayloadFits(kinds: int -> Kind, b: Bytes, i: nat)
    requires i < |b| < TWO63 && NextField(kinds, b, i).Ok?
    ensures Fits(NextField(kinds, b, i).value.0)
  {
  }

  // ----- repeated fields and sequences of pieces -----

  lemma {:induction false} ApplyThen<T>(d: Description<T>, m: Message<T>, ps: seq<Piece>, qs: seq<Piece>)
    ensures ApplyAll(d, m, ps + qs) ==
            match ApplyAll(d, m, ps)
            case Err(e) => Err(e)
            case Ok(m') => ApplyAll(d, m', qs)
    decreases ps
  {
    if ps == [] {
      assert ps + qs == qs;
    } else {
      assert (ps + qs)[1..] == ps[1..] + qs;
      if Apply(d, m, Flat(ps[0])).Ok? {
        ApplyThen(d, Apply(d, m, Flat(ps[0])).value, ps[1..], qs);
      }
    }
  }

  /** The pieces of an optional field of bytes, which is written when it is present, even if empty. */
  function Optional(num: FieldNum, value: Option<Bytes>): seq<Piece> {
    if value.None? then [] else [BytesPiece(num, value.value)]
  }

  /** The pieces of a repeated field. */
  function Repeated<X>(xs: seq<X>, piece: X -> Piece): (ps: seq<Piece>)
    ensures forall p | p in ps :: exists x | x in xs :: p == piece(x)
  {
    if xs == [] then [] else [piece(xs[0])] + Repeated(xs[1..], piece)
  }

  /** Reading back the elements of a repeated field, given the body after every prefix of them. */
  lemma {:induction false} ApplyRepeated<T, X>(
      d: Description<T>, xs: seq<X>, piece: X -> Piece, k: nat, after: seq<X> -> T, u: Bytes)
    requires k <= |xs|
    requires forall i | 0 <= i < |xs| :: d.apply(after(xs[..i]), Flat(piece(xs[i]))) == Ok(after(xs[..i + 1]))
    ensures ApplyAll(d, Message(after(xs[..k]), u), Repeated(xs[k..], piece)) == Ok(Message(after(xs), u))
    decreases |xs| - k
  {
    if k == |xs| {
      assert xs[..k] == xs;
    } else {
      ApplyRepeated(d, xs, piece, k + 1, after, u);
      assert xs[k..][1..] == xs[k + 1..];
    }
  }

  lemma {:induction false} SizeOfElement<X>(xs: seq<X>, piece: X -> Piece, i: nat)
    requires i < |xs|
    ensures PieceSize(piece(xs[i])) <= Size(Repeated(xs, piece))
  {
    if i > 0 {
      SizeOfElement(xs[1..], piece, i - 1);
    }
  }
}
