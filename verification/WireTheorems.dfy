/** What the codec promises of whole RPCs and topic descriptors. */
module WireTheorems {

  import opened Varint
  import opened Codec
  import opened Encoder
  import opened Options
  import opened Merging
  import opened Messages
  import opened RoundTrips

  function UnmarshalRpc(b: Bytes): Result<Message<Rpc>> { Decode(RpcD(), b, 0, NoRpc()) }
  function MarshalRpc(m: Message<Rpc>): Bytes { Marshal(RpcPieces(m.body), m.unrecognized) }
  function RpcSize(m: Message<Rpc>): nat { Size(RpcPieces(m.body)) + |m.unrecognized| }

  function UnmarshalTopic(b: Bytes): Result<Message<Topic>> { Decode(TopicD(), b, 0, NoTopic()) }
  function MarshalTopic(m: Message<Topic>): Bytes { Marshal(TopicPieces(m.body), m.unrecognized) }
  function TopicSize(m: Message<Topic>): nat { Size(TopicPieces(m.body)) + |m.unrecognized| }

  // ----- the round trip, exactly when it holds -----

  /** An RPC survives Marshal and Unmarshal exactly when the unrecognized bytes at every depth are whole
    * fields unknown there; an RPC without unrecognized bytes always does. */
  lemma {:induction false} RpcRoundTripIff(m: Message<Rpc>)
    requires RpcSize(m) < TWO63
    ensures UnmarshalRpc(MarshalRpc(m)) == Ok(m) <==> GoodRpc(m)
  {
    if GoodRpc(m) {
      RpcRoundTrip(m);
    }
    if UnmarshalRpc(MarshalRpc(m)) == Ok(m) {
      SizeIsLength(RpcPieces(m.body));
      assert GoodRpc(NoRpc());
      DecodedRpc(MarshalRpc(m), NoRpc());
    }
  }

  lemma {:induction false} TopicRoundTripIff(m: Message<Topic>)
    requires TopicSize(m) < TWO63
    ensures UnmarshalTopic(MarshalTopic(m)) == Ok(m) <==> GoodTopic(m)
  {
    if GoodTopic(m) {
      TopicRoundTrip(m);
    }
    if UnmarshalTopic(MarshalTopic(m)) == Ok(m) {
      SizeIsLength(TopicPieces(m.body));
      assert GoodTopic(NoTopic());
      DecodedTopic(MarshalTopic(m), NoTopic());
    }
  }

  // ----- re-encoding never grows -----

  /** The bytes a field takes at least on the wire. */
  function Cost(f: Field): nat {
    match f
    case VarintField(_, word) => 1 + Sov(word)
    case BytesField(_, payload) => 1 + |payload| + Sov(|payload|)
    case UnknownField(raw) => |raw|
  }

  lemma {:induction false} FieldCost(kinds: int -> Kind, b: Bytes, i: nat)
    requires i < |b| && NextField(kinds, b, i).Ok?
    ensures Cost(NextField(kinds, b, i).value.0) <= NextField(kinds, b, i).value.1 - i
  {
    if !NextField(kinds, b, i).value.0.UnknownField? {
      hide ReadVarint;
      WordIsShortest(b, ReadVarint(b, i).value.1);
    }
  }

  lemma {:induction false} WordIsShortest(b: Bytes, i: nat)
    requires ReadVarint(b, i).Ok?
    ensures Sov(ReadVarint(b, i).value.0) <= ReadVarint(b, i).value.1 - i
  {
    EncodingIsShortest(b, i, 0);
    EncodingGrows(ReadVarint(b, i).value.0, Digits(b, i, 0).value.0);
  }

  lemma {:induction false} SovAdd(x: nat, y: nat)
    ensures Sov(x + y + 1) <= Sov(x) + Sov(y) + 1
  {
    if x >= 128 || y >= 128 {
      SovAdd(x / 128, y / 128);
      EncodingGrows((x + y + 1) / 128, x / 128 + y / 128 + 1);
    }
  }

  /** Growing the payload of a sub-message by a payload costs no more than that payload on its own. */
  lemma {:induction false} MergeCost(l: nat, p: nat, l': nat)
    requires l' <= l + p
    ensures l' + Sov(l') <= l + Sov(l) + 1 + p + Sov(p)
    ensures l == 0 ==> l' + Sov(l') <= p + Sov(p)
  {
    EncodingGrows(l', l + p + 1);
    SovAdd(l, p);
    if l == 0 {
      EncodingGrows(l', p);
    }
  }

  lemma {:induction false} DecodeSize<T(!new)>(d: Description<T>, b: Bytes, i: nat, m: Message<T>, size: T -> nat)
    requires i <= |b|
    requires forall t, f | d.apply(t, f).Ok? :: size(d.apply(t, f).value) <= size(t) + Cost(f)
    ensures Decode(d, b, i, m).Ok? ==>
              var r := Decode(d, b, i, m).value;
              size(r.body) + |r.unrecognized| <= size(m.body) + |m.unrecognized| + |b| - i
    decreases |b| - i
  {
    hide NextField;
    if i < |b| && NextField(d.kinds, b, i).Ok? {
      var (f, n) := NextField(d.kinds, b, i).value;
      FieldCost(d.kinds, b, i);
      if Apply(d, m, f).Ok? {
        DecodeSize(d, b, n, Apply(d, m, f).value, size);
      }
    }
  }

  // Each type: what decoding into a message adds to its size.

  lemma {:induction false} SubOptsSize(p: Bytes)
    ensures var r := Decode(SubOptsD(), p, 0, NoSubOpts());
            r.Ok? ==> Size(SubOptsPieces(r.value.body)) + |r.value.unrecognized| <= |p|
  {
    var size := (t: SubOpts) => Size(SubOptsPieces(t));
    forall t, f | SubOptsD().apply(t, f).Ok?
      ensures size(SubOptsD().apply(t, f).value) <= size(t) + Cost(f)
    {
      SubOptsSum(t);
      SubOptsSum(SubOptsD().apply(t, f).value);
    }
    DecodeSize(SubOptsD(), p, 0, NoSubOpts(), size);
  }

  lemma {:induction false} SubOptsSum(t: SubOpts)
    ensures Size(SubOptsPieces(t)) == (if t.subscribe.None? then 0 else 2) + OptionalSize(t.topicid)
  {
    var ps := if t.subscribe.None? then [] else [WordPiece(1, if t.subscribe.value then 1 else 0)];
    SizeAppend(ps, Optional(2, t.topicid));
    if t.subscribe.Some? {
      SizeOfOne(ps[0]);
    }
    OptionalSum(2, t.topicid);
  }

  function OptionalSize(v: Option<Bytes>): nat {
    if v.None? then 0 else 1 + |v.value| + Sov(|v.value|)
  }

  lemma {:induction false} PresentSize(v: Bytes)
    ensures OptionalSize(Some(v)) == 1 + |v| + Sov(|v|)
  {
  }

  lemma {:induction false} OptionalSum(num: FieldNum, v: Option<Bytes>)
    ensures Size(Optional(num, v)) == OptionalSize(v)
  {
    if v.Some? {
      SizeOfOne(BytesPiece(num, v.value));
    }
  }

  lemma {:induction false} RepeatedSnoc<X>(xs: seq<X>, x: X, piece: X -> Piece)
    ensures Size(Repeated(xs + [x], piece)) == Size(Repeated(xs, piece)) + PieceSize(piece(x))
  {
    if xs == [] {
      assert xs + [x] == [x] && [x][1..] == [];
      SizeOfOne(piece(x));
      assert Repeated([x], piece) == [piece(x)];
    } else {
      assert (xs + [x])[1..] == xs[1..] + [x];
      RepeatedSnoc(xs[1..], x, piece);
    }
  }

  lemma {:induction false} StringsSnoc(num: FieldNum, xs: seq<Bytes>, x: Bytes)
    ensures Size(Strings(num, xs + [x])) == Size(Strings(num, xs)) + 1 + |x| + Sov(|x|)
  {
    RepeatedSnoc(xs, x, StringPiece(num));
  }

  lemma {:induction false} ContentSum(t: Content)
    ensures Size(ContentPieces(t)) == OptionalSize(t.from) + OptionalSize(t.data) + OptionalSize(t.seqno)
              + Size(Strings(4, t.topicIDs)) + OptionalSize(t.signature) + OptionalSize(t.key)
  {
    hide Size, Repeated;
    var p1, p2, p3, p4 := Optional(1, t.from), Optional(2, t.data), Optional(3, t.seqno), Strings(4, t.topicIDs);
    var p5, p6 := Optional(5, t.signature), Optional(6, t.key);
    SizeAppend(p1 + p2 + p3 + p4 + p5, p6);
    SizeAppend(p1 + p2 + p3 + p4, p5);
    SizeAppend(p1 + p2 + p3, p4);
    SizeAppend(p1 + p2, p3);
    SizeAppend(p1, p2);
    OptionalSum(1, t.from);
    OptionalSum(2, t.data);
    OptionalSum(3, t.seqno);
    OptionalSum(5, t.signature);
    OptionalSum(6, t.key);
  }

  lemma {:induction false} ContentStep(t: Content, f: Field)
    requires ContentD().apply(t, f).Ok?
    ensures Size(ContentPieces(ContentD().apply(t, f).value)) <= Size(ContentPieces(t)) + Cost(f)
  {
    hide Size, ContentPieces, Sov, Strings, OptionalSize;
    ContentSum(t);
    ContentSum(ContentD().apply(t, f).value);
    if f.BytesField? {
      StringsSnoc(4, t.topicIDs, f.payload);
      PresentSize(f.payload);
    }
  }

  lemma {:induction false} ContentSize(p: Bytes)
    ensures var r := Decode(ContentD(), p, 0, NoContent());
            r.Ok? ==> Size(ContentPieces(r.value.body)) + |r.value.unrecognized| <= |p|
  {
    hide ContentPieces;
    var size := (t: Content) => Size(ContentPieces(t));
    forall t, f | ContentD().apply(t, f).Ok?
      ensures size(ContentD().apply(t, f).value) <= size(t) + Cost(f)
    {
      ContentStep(t, f);
    }
    ContentSum(NoContent().body);
    DecodeSize(ContentD(), p, 0, NoContent(), size);
  }

  lemma {:induction false} IHaveSize(p: Bytes)
    ensures var r := Decode(IHaveD(), p, 0, NoIHave());
            r.Ok? ==> Size(IHavePieces(r.value.body)) + |r.value.unrecognized| <= |p|
  {
    var size := (t: IHave) => Size(IHavePieces(t));
    forall t, f | IHaveD().apply(t, f).Ok?
      ensures size(IHaveD().apply(t, f).value) <= size(t) + Cost(f)
    {
      hide Size, Repeated;
      var t' := IHaveD().apply(t, f).value;
      SizeAppend(Optional(1, t.topicID), Strings(2, t.messageIDs));
      SizeAppend(Optional(1, t'.topicID), Strings(2, t'.messageIDs));
      OptionalSum(1, t.topicID);
      OptionalSum(1, t'.topicID);
      if f.BytesField? {
        StringsSnoc(2, t.messageIDs, f.payload);
      }
    }
    DecodeSize(IHaveD(), p, 0, NoIHave(), size);
  }

  lemma {:induction false} IWantSize(p: Bytes)
    ensures var r := Decode(IWantD(), p, 0, NoIWant());
            r.Ok? ==> Size(IWantPieces(r.value.body)) + |r.value.unrecognized| <= |p|
  {
    var size := (t: IWant) => Size(IWantPieces(t));
    forall t, f | IWantD().apply(t, f).Ok?
      ensures size(IWantD().apply(t, f).value) <= size(t) + Cost(f)
    {
      hide Size, Repeated;
      if f.BytesField? {
        StringsSnoc(1, t.messageIDs, f.payload);
      }
    }
    DecodeSize(IWantD(), p, 0, NoIWant(), size);
  }

  lemma {:induction false} TopicRefSize(p: Bytes)
    ensures var r := Decode(TopicRefD(), p, 0, NoTopicRef());
            r.Ok? ==> Size(TopicRefPieces(r.value.body)) + |r.value.unrecognized| <= |p|
  {
    var size := (t: TopicRef) => Size(TopicRefPieces(t));
    forall t, f | TopicRefD().apply(t, f).Ok?
      ensures size(TopicRefD().apply(t, f).value) <= size(t) + Cost(f)
    {
      OptionalSum(1, t.topicID);
      OptionalSum(1, TopicRefD().apply(t, f).value.topicID);
    }
    DecodeSize(TopicRefD(), p, 0, NoTopicRef(), size);
  }

  lemma {:induction false} ControlSum(t: Control)
    ensures Size(ControlPieces(t)) == Size(Repeated(t.ihave, IHavePiece)) + Size(Repeated(t.iwant, IWantPiece))
              + Size(Repeated(t.graft, GraftPiece)) + Size(Repeated(t.prune, PrunePiece))
  {
    hide Size, Repeated;
    var p1, p2 := Repeated(t.ihave, IHavePiece), Repeated(t.iwant, IWantPiece);
    var p3, p4 := Repeated(t.graft, GraftPiece), Repeated(t.prune, PrunePiece);
    SizeAppend(p1 + p2 + p3, p4);
    SizeAppend(p1 + p2, p3);
    SizeAppend(p1, p2);
  }

  lemma {:induction false} ControlStep(t: Control, f: Field)
    requires ControlD().apply(t, f).Ok?
    ensures Size(ControlPieces(ControlD().apply(t, f).value)) <= Size(ControlPieces(t)) + Cost(f)
  {
    hide Size, Repeated, Decode;
    var t' := ControlD().apply(t, f).value;
    ControlSum(t);
    ControlSum(t');
    if f.BytesField? && f.num == 1 {
      IHaveSize(f.payload);
      RepeatedSnoc(t.ihave, t'.ihave[|t.ihave|], IHavePiece);
      SubMessageCost(IHavePiece(t'.ihave[|t.ihave|]), f.payload);
    } else if f.BytesField? && f.num == 2 {
      IWantSize(f.payload);
      RepeatedSnoc(t.iwant, t'.iwant[|t.iwant|], IWantPiece);
      SubMessageCost(IWantPiece(t'.iwant[|t.iwant|]), f.payload);
    } else if f.BytesField? && f.num == 3 {
      TopicRefSize(f.payload);
      RepeatedSnoc(t.graft, t'.graft[|t.graft|], GraftPiece);
      SubMessageCost(GraftPiece(t'.graft[|t.graft|]), f.payload);
    } else if f.BytesField? && f.num == 4 {
      TopicRefSize(f.payload);
      RepeatedSnoc(t.prune, t'.prune[|t.prune|], PrunePiece);
      SubMessageCost(PrunePiece(t'.prune[|t.prune|]), f.payload);
    }
  }

  lemma {:induction false} SubMessageCost(p: Piece, payload: Bytes)
    requires p.MessagePiece? && Size(p.pieces) + |p.unrecognized| <= |payload|
    ensures PieceSize(p) <= 1 + |payload| + Sov(|payload|)
  {
    EncodingGrows(Size(p.pieces) + |p.unrecognized|, |payload|);
  }

  lemma {:induction false} ControlSize(p: Bytes, m: Message<Control>)
    ensures var r := Decode(ControlD(), p, 0, m);
            r.Ok? ==> Size(ControlPieces(r.value.body)) + |r.value.unrecognized|
                      <= Size(ControlPieces(m.body)) + |m.unrecognized| + |p|
  {
    var size := (t: Control) => Size(ControlPieces(t));
    forall t, f | ControlD().apply(t, f).Ok?
      ensures size(ControlD().apply(t, f).value) <= size(t) + Cost(f)
    {
      ControlStep(t, f);
    }
    DecodeSize(ControlD(), p, 0, m, size);
  }

  lemma {:induction false} RpcSum(t: Rpc)
    ensures Size(RpcPieces(t)) == Size(Repeated(t.subscriptions, SubOptsPiece))
            + Size(Repeated(t.publish, ContentPiece))
              + (if t.control.None? then 0 else PieceSize(ControlPiece(t.control.value)))
  {
    hide Repeated;
    var p1, p2 := Repeated(t.subscriptions, SubOptsPiece), Repeated(t.publish, ContentPiece);
    SizeAppend(p1 + p2, ControlPart(t.control));
    SizeAppend(p1, p2);
    if t.control.Some? {
      SizeOfOne(ControlPiece(t.control.value));
    }
  }

  lemma {:induction false} RpcStep(t: Rpc, f: Field)
    requires RpcD().apply(t, f).Ok?
    ensures Size(RpcPieces(RpcD().apply(t, f).value)) <= Size(RpcPieces(t)) + Cost(f)
  {
    hide Size, Repeated, Decode;
    var t' := RpcD().apply(t, f).value;
    RpcSum(t);
    RpcSum(t');
    if f.BytesField? && f.num == 1 {
      SubOptsSize(f.payload);
      RepeatedSnoc(t.subscriptions, t'.subscriptions[|t.subscriptions|], SubOptsPiece);
      SubMessageCost(SubOptsPiece(t'.subscriptions[|t.subscriptions|]), f.payload);
    } else if f.BytesField? && f.num == 2 {
      ContentSize(f.payload);
      RepeatedSnoc(t.publish, t'.publish[|t.publish|], ContentPiece);
      SubMessageCost(ContentPiece(t'.publish[|t.publish|]), f.payload);
    } else if f.BytesField? && f.num == 3 {
      ControlMergeCost(t.control, f.payload, t'.control.value);
    }
  }

  lemma {:induction false} ControlMergeCost(o: Option<Message<Control>>, p: Bytes, m: Message<Control>)
    requires Decode(ControlD(), p, 0, Present(o, NoControl())) == Ok(m)
    ensures PieceSize(ControlPiece(m)) <=
            (if o.None? then 0 else PieceSize(ControlPiece(o.value))) + 1 + |p| + Sov(|p|)
  {
    ControlSize(p, Present(o, NoControl()));
    ControlSum(NoControl().body);
    var before := Present(o, NoControl());
    MergeCost(Size(ControlPieces(before.body)) + |before.unrecognized|, |p|,
      Size(ControlPieces(m.body)) + |m.unrecognized|);
  }

  /** Re-encoding an RPC never takes more bytes than it was decoded from. */
  lemma {:induction false} ReencodingNeverGrows(b: Bytes)
    requires UnmarshalRpc(b).Ok?
    ensures |MarshalRpc(UnmarshalRpc(b).value)| == RpcSize(UnmarshalRpc(b).value) <= |b|
  {
    var size := (t: Rpc) => Size(RpcPieces(t));
    forall t, f | RpcD().apply(t, f).Ok?
      ensures size(RpcD().apply(t, f).value) <= size(t) + Cost(f)
    {
      RpcStep(t, f);
    }
    RpcSum(NoRpc().body);
    DecodeSize(RpcD(), b, 0, NoRpc(), size);
    SizeIsLength(RpcPieces(UnmarshalRpc(b).value.body));
  }

  /** Re-encoding is stable: whatever bytes Unmarshal accepts, marshalling the result and reading it
    * again gives the same RPC, unknown fields, groups and merged messages included. */
  lemma {:induction false} ReencodingIsStable(b: Bytes)
    requires |b| < TWO63 && UnmarshalRpc(b).Ok?
    ensures UnmarshalRpc(MarshalRpc(UnmarshalRpc(b).value)) == UnmarshalRpc(b)
  {
    assert GoodRpc(NoRpc());
    DecodedRpc(b, NoRpc());
    ReencodingNeverGrows(b);
    RpcRoundTripIff(UnmarshalRpc(b).value);
  }

  /** The same for topic descriptors. Here re-encoding can grow, by an enum value that was not
    * sign-extended, so the buffer must still fit. */
  lemma {:induction false} TopicReencodingIsStable(b: Bytes)
    requires |b| < TWO63 && UnmarshalTopic(b).Ok? && TopicSize(UnmarshalTopic(b).value) < TWO63
    ensures UnmarshalTopic(MarshalTopic(UnmarshalTopic(b).value)) == UnmarshalTopic(b)
  {
    assert GoodTopic(NoTopic());
    DecodedTopic(b, NoTopic());
    TopicRoundTripIff(UnmarshalTopic(b).value);
  }

  // ----- the decoder never panics -----

  lemma {:induction false} DecodeNeverPanics<T(!new)>(d: Description<T>, b: Bytes, i: nat, m: Message<T>)
    requires i <= |b|
    requires forall t, f :: d.apply(t, f) != Err(Panic)
    ensures Decode(d, b, i, m) != Err(Panic)
    decreases |b| - i
  {
    hide NextField;
    if i < |b| && NextField(d.kinds, b, i).Ok? {
      var (f, n) := NextField(d.kinds, b, i).value;
      if Apply(d, m, f).Ok? {
        DecodeNeverPanics(d, b, n, Apply(d, m, f).value);
      }
    }
  }

  lemma {:induction false} ControlNeverPanics(b: Bytes, m: Message<Control>)
    ensures Decode(ControlD(), b, 0, m) != Err(Panic)
  {
    forall t, f ensures ControlD().apply(t, f) != Err(Panic) {
      if f.BytesField? {
        DecodeNeverPanics(IHaveD(), f.payload, 0, NoIHave());
        DecodeNeverPanics(IWantD(), f.payload, 0, NoIWant());
        DecodeNeverPanics(TopicRefD(), f.payload, 0, NoTopicRef());
      }
    }
    DecodeNeverPanics(ControlD(), b, 0, m);
  }

  /** The panic at the end of the skipper is unreachable: no input makes Unmarshal of an RPC panic. */
  lemma {:induction false} UnmarshalNeverPanics(b: Bytes)
    ensures UnmarshalRpc(b) != Err(Panic)
  {
    forall t, f ensures RpcD().apply(t, f) != Err(Panic) {
      if f.BytesField? {
        DecodeNeverPanics(SubOptsD(), f.payload, 0, NoSubOpts());
        DecodeNeverPanics(ContentD(), f.payload, 0, NoContent());
        ControlNeverPanics(f.payload, Present(t.control, NoControl()));
      }
    }
    DecodeNeverPanics(RpcD(), b, 0, NoRpc());
  }

  lemma {:induction false} KeyOptsNeverPanics(b: Bytes, m: Message<KeyOpts>)
    ensures Decode(KeyOptsD(), b, 0, m) != Err(Panic)
  {
    forall t, f ensures KeyOptsD().apply(t, f) != Err(Panic) {
    }
    DecodeNeverPanics(KeyOptsD(), b, 0, m);
  }

  /** Nor does any make Unmarshal of a topic descriptor, or of its options, panic. */
  lemma {:induction false} TopicUnmarshalNeverPanics(b: Bytes)
    ensures UnmarshalTopic(b) != Err(Panic)
    ensures Decode(KeyOptsD(), b, 0, NoKeyOpts()) != Err(Panic)
  {
    forall t, f ensures TopicD().apply(t, f) != Err(Panic) {
      if f.BytesField? {
        KeyOptsNeverPanics(f.payload, Present(t.auth, NoKeyOpts()));
        KeyOptsNeverPanics(f.payload, Present(t.enc, NoKeyOpts()));
      }
    }
    DecodeNeverPanics(TopicD(), b, 0, NoTopic());
    KeyOptsNeverPanics(b, NoKeyOpts());
  }

  // ----- concatenation -----

  /** What follows an accepted buffer is accepted exactly if it is on its own. The two RPCs are merged then:
    * repeated fields append, and so do the lists of a control message that both have. */
  lemma {:induction false} ConcatenatedRpcs(a: Bytes, b: Bytes)
    requires |a + b| < TWO63 && UnmarshalRpc(a).Ok?
    ensures UnmarshalRpc(a + b).Ok? <==> UnmarshalRpc(b).Ok?
    ensures UnmarshalRpc(b).Ok? ==>
              UnmarshalRpc(a + b) == Ok(Both(MergeRpc, UnmarshalRpc(a).value, UnmarshalRpc(b).value))
  {
    hide Decode, Both;
    RpcMerges();
    NothingMerged();
    ConcatMerges(RpcD(), MergeRpc, a, b, NoRpc());
  }

  /** The same for topic descriptors: the last name stays, the options are merged. */
  lemma {:induction false} ConcatenatedTopics(a: Bytes, b: Bytes)
    requires |a + b| < TWO63 && UnmarshalTopic(a).Ok?
    ensures UnmarshalTopic(a + b).Ok? <==> UnmarshalTopic(b).Ok?
    ensures UnmarshalTopic(b).Ok? ==>
              UnmarshalTopic(a + b) == Ok(Both(MergeTopic, UnmarshalTopic(a).value, UnmarshalTopic(b).value))
  {
    hide Decode, Both;
    TopicMerges();
    NothingMerged();
    ConcatMerges(TopicD(), MergeTopic, a, b, NoTopic());
  }
}
