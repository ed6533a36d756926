/** Marshal and Unmarshal of every message type undo one another. */
module RoundTrips {

  import opened Varint
  import opened Codec
  import opened Encoder
  import opened Options
  import opened Messages

  // ----- the messages that survive the round trip -----

  /** Unknown bytes must be whole fields that this type, at this depth, does not know. */
  predicate GoodSubOpts(m: Message<SubOpts>) { AllUnknown(SubOptsKinds, m.unrecognized) }
  predicate GoodContent(m: Message<Content>) { AllUnknown(ContentKinds, m.unrecognized) }
  predicate GoodIHave(m: Message<IHave>) { AllUnknown(IHaveKinds, m.unrecognized) }
  predicate GoodIWant(m: Message<IWant>) { AllUnknown(OneFieldKinds, m.unrecognized) }
  predicate GoodTopicRef(m: Message<TopicRef>) { AllUnknown(OneFieldKinds, m.unrecognized) }
  predicate GoodKeyOpts(m: Message<KeyOpts>) { AllUnknown(KeyOptsKinds, m.unrecognized) }

  predicate GoodControlBody(m: Control) {
    && (forall x | x in m.ihave :: GoodIHave(x))
    && (forall x | x in m.iwant :: GoodIWant(x))
    && (forall x | x in m.graft :: GoodTopicRef(x))
    && (forall x | x in m.prune :: GoodTopicRef(x))
  }

  predicate GoodControl(m: Message<Control>) {
    AllUnknown(ControlKinds, m.unrecognized) && GoodControlBody(m.body)
  }

  predicate GoodRpcBody(m: Rpc) {
    && (forall x | x in m.subscriptions :: GoodSubOpts(x))
    && (forall x | x in m.publish :: GoodContent(x))
    && (m.control.Some? ==> GoodControl(m.control.value))
  }

  predicate GoodRpc(m: Message<Rpc>) {
    AllUnknown(RpcKinds, m.unrecognized) && GoodRpcBody(m.body)
  }

  predicate GoodTopicBody(m: Topic) {
    (m.auth.Some? ==> GoodKeyOpts(m.auth.value)) && (m.enc.Some? ==> GoodKeyOpts(m.enc.value))
  }

  predicate GoodTopic(m: Message<Topic>) {
    AllUnknown(TopicKinds, m.unrecognized) && GoodTopicBody(m.body)
  }

  // ----- steps shared by the types -----

  function Marshal(ps: seq<Piece>, unrecognized: Bytes): Bytes {
    Encode(ps) + unrecognized
  }

  lemma {:induction false} ApplyOptional<T>(d: Description<T>, num: FieldNum, v: Option<Bytes>, t: T, t': T)
    requires if v.Some? then d.apply(t, BytesField(num, v.value)) == Ok(t') else t == t'
    ensures ApplyAll(d, Message(t, []), Optional(num, v)) == Ok(Message(t', []))
  {
    if v.Some? {
      assert ApplyAll(d, Message(t', []), Optional(num, v)[1..]) == Ok(Message(t', []));
    }
  }

  lemma {:induction false} ApplyStrings<T>(d: Description<T>, num: FieldNum, xs: seq<Bytes>, after: seq<Bytes> -> T)
    requires forall i | 0 <= i < |xs| :: d.apply(after(xs[..i]), BytesField(num, xs[i])) == Ok(after(xs[..i + 1]))
    ensures ApplyAll(d, Message(after([]), []), Strings(num, xs)) == Ok(Message(after(xs), []))
  {
    assert xs[..0] == [] && xs[0..] == xs;
    ApplyRepeated(d, xs, StringPiece(num), 0, after, []);
  }

  lemma {:induction false} SubOptsRoundTrip(m: Message<SubOpts>)
    requires GoodSubOpts(m) && Size(SubOptsPieces(m.body)) + |m.unrecognized| < TWO63
    ensures Decode(SubOptsD(), Marshal(SubOptsPieces(m.body), m.unrecognized), 0, NoSubOpts()) == Ok(m)
  {
    var s, t := m.body.subscribe, m.body.topicid;
    var ps := if s.None? then [] else [WordPiece(1, if s.value then 1 else 0)];
    assert ApplyAll(SubOptsD(), NoSubOpts(), ps) == Ok(Message(SubOpts(s, None), [])) by {
      if s.Some? {
        assert ApplyAll(SubOptsD(), Message(SubOpts(s, None), []), ps[1..]) == Ok(Message(SubOpts(s, None), []));
      }
    }
    ApplyOptional(SubOptsD(), 2, t, SubOpts(s, None), m.body);
    ApplyThen(SubOptsD(), NoSubOpts(), ps, Optional(2, t));
    RoundTrip(SubOptsD(), NoSubOpts().body, SubOptsPieces(m.body), m);
  }

  lemma {:induction false} ContentRoundTrip(m: Message<Content>)
    requires GoodContent(m) && Size(ContentPieces(m.body)) + |m.unrecognized| < TWO63
    ensures Decode(ContentD(), Marshal(ContentPieces(m.body), m.unrecognized), 0, NoContent()) == Ok(m)
  {
    hide ApplyAll, Encode, Size, Decode;
    var c, d := m.body, ContentD();
    var c1 := Content(c.from, None, None, [], None, None);
    var c2 := c1.(data := c.data);
    var c3 := c2.(seqno := c.seqno);
    var c4 := c3.(topicIDs := c.topicIDs);
    var c5 := c4.(signature := c.signature);
    var p1, p2, p3, p4 := Optional(1, c.from), Optional(2, c.data), Optional(3, c.seqno), Strings(4, c.topicIDs);
    ApplyOptional(d, 1, c.from, NoContent().body, c1);
    ApplyOptional(d, 2, c.data, c1, c2);
    ApplyOptional(d, 3, c.seqno, c2, c3);
    ApplyContentTopics(c3, c.topicIDs);
    ApplyOptional(d, 5, c.signature, c4, c5);
    ApplyOptional(d, 6, c.key, c5, c);
    ApplyThen(d, NoContent(), p1, p2);
    ApplyThen(d, NoContent(), p1 + p2, p3);
    ApplyThen(d, NoContent(), p1 + p2 + p3, p4);
    ApplyThen(d, NoContent(), p1 + p2 + p3 + p4, Optional(5, c.signature));
    ApplyThen(d, NoContent(), p1 + p2 + p3 + p4 + Optional(5, c.signature), Optional(6, c.key));
    RoundTrip(d, NoContent().body, ContentPieces(c), m);
  }

  lemma {:induction false} ApplyContentTopics(c: Content, xs: seq<Bytes>)
    requires c.topicIDs == []
    ensures ApplyAll(ContentD(), Message(c, []), Strings(4, xs)) == Ok(Message(c.(topicIDs := xs), []))
  {
    var after := (ys: seq<Bytes>) => c.(topicIDs := ys);
    forall i | 0 <= i < |xs|
      ensures ContentD().apply(after(xs[..i]), BytesField(4, xs[i])) == Ok(after(xs[..i + 1]))
    {
      assert xs[..i + 1] == xs[..i] + [xs[i]];
    }
    ApplyStrings(ContentD(), 4, xs, after);
  }

  lemma {:induction false} IHaveRoundTrip(m: Message<IHave>)
    requires GoodIHave(m) && Size(IHavePieces(m.body)) + |m.unrecognized| < TWO63
    ensures Decode(IHaveD(), Marshal(IHavePieces(m.body), m.unrecognized), 0, NoIHave()) == Ok(m)
  {
    hide ApplyAll, Encode, Size, Decode;
    var t, xs := m.body.topicID, m.body.messageIDs;
    var after := (ys: seq<Bytes>) => IHave(t, ys);
    forall i | 0 <= i < |xs|
      ensures IHaveD().apply(after(xs[..i]), BytesField(2, xs[i])) == Ok(after(xs[..i + 1]))
    {
      assert xs[..i + 1] == xs[..i] + [xs[i]];
    }
    ApplyOptional(IHaveD(), 1, t, NoIHave().body, IHave(t, []));
    ApplyStrings(IHaveD(), 2, xs, after);
    ApplyThen(IHaveD(), NoIHave(), Optional(1, t), Strings(2, xs));
    RoundTrip(IHaveD(), NoIHave().body, IHavePieces(m.body), m);
  }

  lemma {:induction false} IWantRoundTrip(m: Message<IWant>)
    requires GoodIWant(m) && Size(IWantPieces(m.body)) + |m.unrecognized| < TWO63
    ensures Decode(IWantD(), Marshal(IWantPieces(m.body), m.unrecognized), 0, NoIWant()) == Ok(m)
  {
    hide ApplyAll, Encode, Size, Decode;
    var xs := m.body.messageIDs;
    var after := (ys: seq<Bytes>) => IWant(ys);
    forall i | 0 <= i < |xs|
      ensures IWantD().apply(after(xs[..i]), BytesField(1, xs[i])) == Ok(after(xs[..i + 1]))
    {
      assert xs[..i + 1] == xs[..i] + [xs[i]];
    }
    ApplyStrings(IWantD(), 1, xs, after);
    RoundTrip(IWantD(), NoIWant().body, IWantPieces(m.body), m);
  }

  lemma {:induction false} TopicRefRoundTrip(m: Message<TopicRef>)
    requires GoodTopicRef(m) && Size(TopicRefPieces(m.body)) + |m.unrecognized| < TWO63
    ensures Decode(TopicRefD(), Marshal(TopicRefPieces(m.body), m.unrecognized), 0, NoTopicRef()) == Ok(m)
  {
    hide ApplyAll, Encode, Size, Decode;
    ApplyOptional(TopicRefD(), 1, m.body.topicID, NoTopicRef().body, m.body);
    RoundTrip(TopicRefD(), NoTopicRef().body, TopicRefPieces(m.body), m);
  }

  lemma {:induction false} KeyOptsRoundTrip(m: Message<KeyOpts>)
    requires GoodKeyOpts(m) && Size(KeyOptsPieces(m.body)) + |m.unrecognized| < TWO63
    ensures Decode(KeyOptsD(), Marshal(KeyOptsPieces(m.body), m.unrecognized), 0, NoKeyOpts()) == Ok(m)
  {
    var v, xs := m.body.mode, m.body.keys;
    var ps := if v.None? then [] else [WordPiece(1, v.value % TWO64)];
    assert ApplyAll(KeyOptsD(), NoKeyOpts(), ps) == Ok(Message(KeyOpts(v, []), [])) by {
      if v.Some? {
        SignExtension(v.value);
        assert ApplyAll(KeyOptsD(), Message(KeyOpts(v, []), []), ps[1..]) == Ok(Message(KeyOpts(v, []), []));
      }
    }
    hide ApplyAll, Encode, Size, Decode;
    var after := (ys: seq<Bytes>) => KeyOpts(v, ys);
    forall i | 0 <= i < |xs|
      ensures KeyOptsD().apply(after(xs[..i]), BytesField(2, xs[i])) == Ok(after(xs[..i + 1]))
    {
      assert xs[..i + 1] == xs[..i] + [xs[i]];
    }
    ApplyStrings(KeyOptsD(), 2, xs, after);
    ApplyThen(KeyOptsD(), NoKeyOpts(), ps, Strings(2, xs));
    RoundTrip(KeyOptsD(), NoKeyOpts().body, KeyOptsPieces(m.body), m);
  }

  /** A negative enum value is written as a 64-bit word and comes back. */
  lemma {:induction false} SignExtension(v: EnumValue)
    ensures Int32(v % TWO64) == v
  {
  }

  lemma {:induction false} ApplyIHaves(c: Control, xs: seq<Message<IHave>>)
    requires c.ihave == [] && (forall x | x in xs :: GoodIHave(x)) && Size(Repeated(xs, IHavePiece)) < TWO63
    ensures ApplyAll(ControlD(), Message(c, []), Repeated(xs, IHavePiece)) == Ok(Message(c.(ihave := xs), []))
  {
    var after := (ys: seq<Message<IHave>>) => c.(ihave := ys);
    forall i | 0 <= i < |xs|
      ensures ControlD().apply(after(xs[..i]), Flat(IHavePiece(xs[i]))) == Ok(after(xs[..i + 1]))
    {
      hide Encode, Size, Decode;
      assert xs[..i + 1] == xs[..i] + [xs[i]];
      SizeOfElement(xs, IHavePiece, i);
      IHaveRoundTrip(xs[i]);
    }
    assert xs[..0] == [] && xs[0..] == xs;
    ApplyRepeated(ControlD(), xs, IHavePiece, 0, after, []);
  }

  lemma {:induction false} ApplyIWants(c: Control, xs: seq<Message<IWant>>)
    requires c.iwant == [] && (forall x | x in xs :: GoodIWant(x)) && Size(Repeated(xs, IWantPiece)) < TWO63
    ensures ApplyAll(ControlD(), Message(c, []), Repeated(xs, IWantPiece)) == Ok(Message(c.(iwant := xs), []))
  {
    var after := (ys: seq<Message<IWant>>) => c.(iwant := ys);
    forall i | 0 <= i < |xs|
      ensures ControlD().apply(after(xs[..i]), Flat(IWantPiece(xs[i]))) == Ok(after(xs[..i + 1]))
    {
      hide Encode, Size, Decode;
      assert xs[..i + 1] == xs[..i] + [xs[i]];
      SizeOfElement(xs, IWantPiece, i);
      IWantRoundTrip(xs[i]);
    }
    assert xs[..0] == [] && xs[0..] == xs;
    ApplyRepeated(ControlD(), xs, IWantPiece, 0, after, []);
  }

  lemma {:induction false} ApplyGrafts(c: Control, xs: seq<Message<TopicRef>>)
    requires c.graft == [] && (forall x | x in xs :: GoodTopicRef(x)) && Size(Repeated(xs, GraftPiece)) < TWO63
    ensures ApplyAll(ControlD(), Message(c, []), Repeated(xs, GraftPiece)) == Ok(Message(c.(graft := xs), []))
  {
    var after := (ys: seq<Message<TopicRef>>) => c.(graft := ys);
    forall i | 0 <= i < |xs|
      ensures ControlD().apply(after(xs[..i]), Flat(GraftPiece(xs[i]))) == Ok(after(xs[..i + 1]))
    {
      hide Encode, Size, Decode;
      assert xs[..i + 1] == xs[..i] + [xs[i]];
      SizeOfElement(xs, GraftPiece, i);
      TopicRefRoundTrip(xs[i]);
    }
    assert xs[..0] == [] && xs[0..] == xs;
    ApplyRepeated(ControlD(), xs, GraftPiece, 0, after, []);
  }

  lemma {:induction false} ApplyPrunes(c: Control, xs: seq<Message<TopicRef>>)
    requires c.prune == [] && (forall x | x in xs :: GoodTopicRef(x)) && Size(Repeated(xs, PrunePiece)) < TWO63
    ensures ApplyAll(ControlD(), Message(c, []), Repeated(xs, PrunePiece)) == Ok(Message(c.(prune := xs), []))
  {
    var after := (ys: seq<Message<TopicRef>>) => c.(prune := ys);
    forall i | 0 <= i < |xs|
      ensures ControlD().apply(after(xs[..i]), Flat(PrunePiece(xs[i]))) == Ok(after(xs[..i + 1]))
    {
      hide Encode, Size, Decode;
      assert xs[..i + 1] == xs[..i] + [xs[i]];
      SizeOfElement(xs, PrunePiece, i);
      TopicRefRoundTrip(xs[i]);
    }
    assert xs[..0] == [] && xs[0..] == xs;
    ApplyRepeated(ControlD(), xs, PrunePiece, 0, after, []);
  }

  lemma {:induction false} ControlRoundTrip(m: Message<Control>)
    requires GoodControl(m) && Size(ControlPieces(m.body)) + |m.unrecognized| < TWO63
    ensures Decode(ControlD(), Marshal(ControlPieces(m.body), m.unrecognized), 0, NoControl()) == Ok(m)
  {
    hide ApplyAll, Encode, Size, Decode, AllUnknown;
    var c, d := m.body, ControlD();
    var p1, p2 := Repeated(c.ihave, IHavePiece), Repeated(c.iwant, IWantPiece);
    var p3, p4 := Repeated(c.graft, GraftPiece), Repeated(c.prune, PrunePiece);
    SizeAppend(p1 + p2 + p3, p4);
    SizeAppend(p1 + p2, p3);
    SizeAppend(p1, p2);
    ApplyIHaves(Control([], [], [], []), c.ihave);
    ApplyIWants(Control(c.ihave, [], [], []), c.iwant);
    ApplyGrafts(Control(c.ihave, c.iwant, [], []), c.graft);
    ApplyPrunes(Control(c.ihave, c.iwant, c.graft, []), c.prune);
    ApplyThen(d, NoControl(), p1, p2);
    ApplyThen(d, NoControl(), p1 + p2, p3);
    ApplyThen(d, NoControl(), p1 + p2 + p3, p4);
    RoundTrip(d, NoControl().body, ControlPieces(c), m);
  }

  lemma {:induction false} ApplySubscriptions(r: Rpc, xs: seq<Message<SubOpts>>)
    requires r.subscriptions == [] && (forall x | x in xs :: GoodSubOpts(x)) && Size(Repeated(xs, SubOptsPiece)) < TWO63
    ensures ApplyAll(RpcD(), Message(r, []), Repeated(xs, SubOptsPiece)) == Ok(Message(r.(subscriptions := xs), []))
  {
    var after := (ys: seq<Message<SubOpts>>) => r.(subscriptions := ys);
    forall i | 0 <= i < |xs|
      ensures RpcD().apply(after(xs[..i]), Flat(SubOptsPiece(xs[i]))) == Ok(after(xs[..i + 1]))
    {
      hide Encode, Size, Decode;
      assert xs[..i + 1] == xs[..i] + [xs[i]];
      SizeOfElement(xs, SubOptsPiece, i);
      SubOptsRoundTrip(xs[i]);
    }
    assert xs[..0] == [] && xs[0..] == xs;
    ApplyRepeated(RpcD(), xs, SubOptsPiece, 0, after, []);
  }

  lemma {:induction false} ApplyPublish(r: Rpc, xs: seq<Message<Content>>)
    requires r.publish == [] && (forall x | x in xs :: GoodContent(x)) && Size(Repeated(xs, ContentPiece)) < TWO63
    ensures ApplyAll(RpcD(), Message(r, []), Repeated(xs, ContentPiece)) == Ok(Message(r.(publish := xs), []))
  {
    var after := (ys: seq<Message<Content>>) => r.(publish := ys);
    forall i | 0 <= i < |xs|
      ensures RpcD().apply(after(xs[..i]), Flat(ContentPiece(xs[i]))) == Ok(after(xs[..i + 1]))
    {
      hide Encode, Size, Decode;
      assert xs[..i + 1] == xs[..i] + [xs[i]];
      SizeOfElement(xs, ContentPiece, i);
      ContentRoundTrip(xs[i]);
    }
    assert xs[..0] == [] && xs[0..] == xs;
    ApplyRepeated(RpcD(), xs, ContentPiece, 0, after, []);
  }

  lemma {:induction false} ApplySubMessage<T>(d: Description<T>, p: Piece, t: T, t': T)
    requires d.apply(t, Flat(p)) == Ok(t') && !Flat(p).UnknownField?
    ensures ApplyAll(d, Message(t, []), [p]) == Ok(Message(t', []))
  {
    assert ApplyAll(d, Message(t', []), [p][1..]) == Ok(Message(t', []));
  }

  lemma {:induction false} ControlField(r: Rpc, m: Message<Control>)
    requires r.control == None && GoodControl(m) && Size([ControlPiece(m)]) < TWO63
    ensures ApplyAll(RpcD(), Message(r, []), [ControlPiece(m)]) == Ok(Message(r.(control := Some(m)), []))
  {
    ControlRoundTrip(m);
    hide Encode, Decode, ApplyAll;
    ApplySubMessage(RpcD(), ControlPiece(m), r, r.(control := Some(m)));
  }

  lemma {:induction false} RpcRoundTrip(m: Message<Rpc>)
    requires GoodRpc(m) && Size(RpcPieces(m.body)) + |m.unrecognized| < TWO63
    ensures Decode(RpcD(), Marshal(RpcPieces(m.body), m.unrecognized), 0, NoRpc()) == Ok(m)
  {
    hide ApplyAll, Encode, Size, Decode, AllUnknown;
    var r, d := m.body, RpcD();
    var p1, p2, p3 := Repeated(r.subscriptions, SubOptsPiece), Repeated(r.publish, ContentPiece),
      ControlPart(r.control);
    SizeAppend(p1 + p2, p3);
    SizeAppend(p1, p2);
    ApplySubscriptions(Rpc([], [], None), r.subscriptions);
    ApplyPublish(Rpc(r.subscriptions, [], None), r.publish);
    if r.control.Some? {
      ControlField(Rpc(r.subscriptions, r.publish, None), r.control.value);
    } else {
      NoPieces(d, Message(r, []));
    }
    ApplyThen(d, NoRpc(), p1, p2);
    ApplyThen(d, NoRpc(), p1 + p2, p3);
    RoundTrip(d, NoRpc().body, RpcPieces(r), m);
  }

  lemma {:induction false} KeyOptsIn(num: FieldNum, m: Message<KeyOpts>, t: Topic, t': Topic)
    requires num == 2 || num == 3
    requires t' == if num == 2 then t.(auth := Some(m)) else t.(enc := Some(m))
    requires if num == 2 then t.auth == None else t.enc == None
    requires GoodKeyOpts(m) && Size(KeyOptsField(num, Some(m))) < TWO63
    ensures ApplyAll(TopicD(), Message(t, []), KeyOptsField(num, Some(m))) == Ok(Message(t', []))
  {
    hide Encode, Decode, ApplyAll, Size;
    var p := MessagePiece(num, KeyOptsPieces(m.body), m.unrecognized);
    assert KeyOptsField(num, Some(m)) == [p];
    SizeOfOne(p);
    KeyOptsRoundTrip(m);
    ApplySubMessage(TopicD(), p, t, t');
  }

  lemma {:induction false} SizeOfOne(p: Piece)
    ensures Size([p]) == PieceSize(p)
  {
    assert Size([p][1..]) == 0;
  }

  lemma {:induction false} NoPieces<T>(d: Description<T>, m: Message<T>)
    ensures ApplyAll(d, m, []) == Ok(m)
  {
  }

  lemma {:induction false} TopicRoundTrip(m: Message<Topic>)
    requires GoodTopic(m) && Size(TopicPieces(m.body)) + |m.unrecognized| < TWO63
    ensures Decode(TopicD(), Marshal(TopicPieces(m.body), m.unrecognized), 0, NoTopic()) == Ok(m)
  {
    hide ApplyAll, Encode, Size, Decode, AllUnknown;
    var t := m.body;
    var p1, p2, p3 := Optional(1, t.name), KeyOptsField(2, t.auth), KeyOptsField(3, t.enc);
    SizeAppend(p1 + p2, p3);
    SizeAppend(p1, p2);
    ApplyOptional(TopicD(), 1, t.name, NoTopic().body, Topic(t.name, None, None));
    NoPieces(TopicD(), Message(Topic(t.name, None, None), []));
    NoPieces(TopicD(), Message(Topic(t.name, t.auth, None), []));
    if t.auth.Some? {
      KeyOptsIn(2, t.auth.value, Topic(t.name, None, None), Topic(t.name, t.auth, None));
    }
    if t.enc.Some? {
      KeyOptsIn(3, t.enc.value, Topic(t.name, t.auth, None), t);
    }
    ApplyThen(TopicD(), NoTopic(), p1, p2);
    ApplyThen(TopicD(), NoTopic(), p1 + p2, p3);
    RoundTrip(TopicD(), NoTopic().body, TopicPieces(t), m);
  }

  // ----- what Unmarshal accepts survives the round trip -----

  lemma {:induction false} DecodedIHave(p: Bytes)
    requires |p| < TWO63
    ensures var r := Decode(IHaveD(), p, 0, NoIHave()); r.Ok? ==> GoodIHave(r.value)
  {
    DecodeKeeps(IHaveD(), p, 0, NoIHave(), _ => true);
  }

  lemma {:induction false} DecodedIWant(p: Bytes)
    requires |p| < TWO63
    ensures var r := Decode(IWantD(), p, 0, NoIWant()); r.Ok? ==> GoodIWant(r.value)
  {
    DecodeKeeps(IWantD(), p, 0, NoIWant(), _ => true);
  }

  lemma {:induction false} DecodedTopicRef(p: Bytes)
    requires |p| < TWO63
    ensures var r := Decode(TopicRefD(), p, 0, NoTopicRef()); r.Ok? ==> GoodTopicRef(r.value)
  {
    DecodeKeeps(TopicRefD(), p, 0, NoTopicRef(), _ => true);
  }

  lemma {:induction false} DecodedSubOpts(p: Bytes)
    requires |p| < TWO63
    ensures var r := Decode(SubOptsD(), p, 0, NoSubOpts()); r.Ok? ==> GoodSubOpts(r.value)
  {
    DecodeKeeps(SubOptsD(), p, 0, NoSubOpts(), _ => true);
  }

  lemma {:induction false} DecodedContent(p: Bytes)
    requires |p| < TWO63
    ensures var r := Decode(ContentD(), p, 0, NoContent()); r.Ok? ==> GoodContent(r.value)
  {
    DecodeKeeps(ContentD(), p, 0, NoContent(), _ => true);
  }

  lemma {:induction false} DecodedKeyOpts(p: Bytes, m: Message<KeyOpts>)
    requires |p| < TWO63 && GoodKeyOpts(m)
    ensures var r := Decode(KeyOptsD(), p, 0, m); r.Ok? ==> GoodKeyOpts(r.value)
  {
    DecodeKeeps(KeyOptsD(), p, 0, m, _ => true);
  }

  lemma {:induction false} DecodedControl(p: Bytes, m: Message<Control>)
    requires |p| < TWO63 && GoodControl(m)
    ensures var r := Decode(ControlD(), p, 0, m); r.Ok? ==> GoodControl(r.value)
  {
    forall t, f | GoodControlBody(t) && Fits(f) && ControlD().apply(t, f).Ok?
      ensures GoodControlBody(ControlD().apply(t, f).value)
    {
      if f.BytesField? {
        hide Decode, AllUnknown;
        DecodedIHave(f.payload);
        DecodedIWant(f.payload);
        DecodedTopicRef(f.payload);
      }
    }
    hide Decode;
    DecodeKeeps(ControlD(), p, 0, m, GoodControlBody);
  }

  lemma {:induction false} DecodedRpc(p: Bytes, m: Message<Rpc>)
    requires |p| < TWO63 && GoodRpc(m)
    ensures var r := Decode(RpcD(), p, 0, m); r.Ok? ==> GoodRpc(r.value)
  {
    forall t, f | GoodRpcBody(t) && Fits(f) && RpcD().apply(t, f).Ok?
      ensures GoodRpcBody(RpcD().apply(t, f).value)
    {
      if f.BytesField? {
        assert GoodControl(NoControl());
        hide Decode, AllUnknown;
        DecodedSubOpts(f.payload);
        DecodedContent(f.payload);
        DecodedControl(f.payload, Present(t.control, NoControl()));
      }
    }
    hide Decode;
    DecodeKeeps(RpcD(), p, 0, m, GoodRpcBody);
  }

  lemma {:induction false} DecodedTopic(p: Bytes, m: Message<Topic>)
    requires |p| < TWO63 && GoodTopic(m)
    ensures var r := Decode(TopicD(), p, 0, m); r.Ok? ==> GoodTopic(r.value)
  {
    forall t, f | GoodTopicBody(t) && Fits(f) && TopicD().apply(t, f).Ok?
      ensures GoodTopicBody(TopicD().apply(t, f).value)
    {
      if f.BytesField? {
        assert GoodKeyOpts(NoKeyOpts());
        hide Decode, AllUnknown;
        DecodedKeyOpts(f.payload, Present(t.auth, NoKeyOpts()));
        DecodedKeyOpts(f.payload, Present(t.enc, NoKeyOpts()));
      }
    }
    hide Decode;
    DecodeKeeps(TopicD(), p, 0, m, GoodTopicBody);
  }
}
