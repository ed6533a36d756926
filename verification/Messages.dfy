/** The message types of the schema, each with the switch of its Unmarshal and the pieces of its
  * MarshalTo. Strings are byte sequences, as in Go; a nil slice of bytes is None, so that an absent
  * field and a present empty one differ. Two types with the same fields under the same numbers share
  * their description: ControlGraft with ControlPrune, AuthOpts with EncOpts.
  */
module Messages {

  import opened Varint
  import opened Codec
  import opened Encoder
  import opened Options

  type EnumValue = x: int | -0x8000_0000 <= x < 0x8000_0000

  datatype SubOpts = SubOpts(subscribe: Option<bool>, topicid: Option<Bytes>)

  datatype Content = Content(
    from: Option<Bytes>, data: Option<Bytes>, seqno: Option<Bytes>, topicIDs: seq<Bytes>,
    signature: Option<Bytes>, key: Option<Bytes>)

  datatype IHave = IHave(topicID: Option<Bytes>, messageIDs: seq<Bytes>)
  datatype IWant = IWant(messageIDs: seq<Bytes>)
  datatype TopicRef = TopicRef(topicID: Option<Bytes>)   // ControlGraft, ControlPrune

  datatype Control = Control(
    ihave: seq<Message<IHave>>, iwant: seq<Message<IWant>>,
    graft: seq<Message<TopicRef>>, prune: seq<Message<TopicRef>>)

  datatype Rpc = Rpc(
    subscriptions: seq<Message<SubOpts>>, publish: seq<Message<Content>>, control: Option<Message<Control>>)

  datatype KeyOpts = KeyOpts(mode: Option<EnumValue>, keys: seq<Bytes>)   // AuthOpts, EncOpts

  datatype Topic = Topic(name: Option<Bytes>, auth: Option<Message<KeyOpts>>, enc: Option<Message<KeyOpts>>)

  function NoSubOpts(): Message<SubOpts> { Message(SubOpts(None, None), []) }
  function NoContent(): Message<Content> { Message(Content(None, None, None, [], None, None), []) }
  function NoIHave(): Message<IHave> { Message(IHave(None, []), []) }
  function NoIWant(): Message<IWant> { Message(IWant([]), []) }
  function NoTopicRef(): Message<TopicRef> { Message(TopicRef(None), []) }
  function NoControl(): Message<Control> { Message(Control([], [], [], []), []) }
  function NoRpc(): Message<Rpc> { Message(Rpc([], [], None), []) }
  function NoKeyOpts(): Message<KeyOpts> { Message(KeyOpts(None, []), []) }
  function NoTopic(): Message<Topic> { Message(Topic(None, None, None), []) }

  // ----- which fields are known -----

  function SubOptsKinds(n: int): Kind { if n == 1 then AsVarint else if n == 2 then AsBytes else Unknown }
  function ContentKinds(n: int): Kind { if 1 <= n <= 6 then AsBytes else Unknown }
  function IHaveKinds(n: int): Kind { if 1 <= n <= 2 then AsBytes else Unknown }
  function OneFieldKinds(n: int): Kind { if n == 1 then AsBytes else Unknown }
  function ControlKinds(n: int): Kind { if 1 <= n <= 4 then AsBytes else Unknown }
  function RpcKinds(n: int): Kind { if 1 <= n <= 3 then AsBytes else Unknown }
  function KeyOptsKinds(n: int): Kind { if n == 1 then AsVarint else if n == 2 then AsBytes else Unknown }
  function TopicKinds(n: int): Kind { if 1 <= n <= 3 then AsBytes else Unknown }

  // ----- what they do -----

  function ApplySubOpts(m: SubOpts, f: Field): Result<SubOpts> {
    match f
    case VarintField(1, word) => Ok(m.(subscribe := Some(word != 0)))
    case BytesField(2, payload) => Ok(m.(topicid := Some(payload)))
    case _ => Ok(m)
  }

  function ApplyContent(m: Content, f: Field): Result<Content> {
    match f
    case BytesField(1, payload) => Ok(m.(from := Some(payload)))
    case BytesField(2, payload) => Ok(m.(data := Some(payload)))
    case BytesField(3, payload) => Ok(m.(seqno := Some(payload)))
    case BytesField(4, payload) => Ok(m.(topicIDs := m.topicIDs + [payload]))
    case BytesField(5, payload) => Ok(m.(signature := Some(payload)))
    case BytesField(6, payload) => Ok(m.(key := Some(payload)))
    case _ => Ok(m)
  }

  function ApplyIHave(m: IHave, f: Field): Result<IHave> {
    match f
    case BytesField(1, payload) => Ok(m.(topicID := Some(payload)))
    case BytesField(2, payload) => Ok(m.(messageIDs := m.messageIDs + [payload]))
    case _ => Ok(m)
  }

  function ApplyIWant(m: IWant, f: Field): Result<IWant> {
    match f
    case BytesField(1, payload) => Ok(m.(messageIDs := m.messageIDs + [payload]))
    case _ => Ok(m)
  }

  function ApplyTopicRef(m: TopicRef, f: Field): Result<TopicRef> {
    match f
    case BytesField(1, payload) => Ok(m.(topicID := Some(payload)))
    case _ => Ok(m)
  }

  function Map<A, B>(r: Result<A>, f: A -> B): Result<B> {
    match r
    case Err(e) => Err(e)
    case Ok(a) => Ok(f(a))
  }

  function ApplyControl(m: Control, f: Field): Result<Control> {
    match f
    case BytesField(1, p) => Map(Decode(IHaveD(), p, 0, NoIHave()), x => m.(ihave := m.ihave + [x]))
    case BytesField(2, p) => Map(Decode(IWantD(), p, 0, NoIWant()), x => m.(iwant := m.iwant + [x]))
    case BytesField(3, p) => Map(Decode(TopicRefD(), p, 0, NoTopicRef()), x => m.(graft := m.graft + [x]))
    case BytesField(4, p) => Map(Decode(TopicRefD(), p, 0, NoTopicRef()), x => m.(prune := m.prune + [x]))
    case _ => Ok(m)
  }

  /** A repeated optional sub-message is decoded into the one already there. */
  function Present<S>(o: Option<Message<S>>, empty: Message<S>): Message<S> {
    if o.Some? then o.value else empty
  }

  function ApplyRpc(m: Rpc, f: Field): Result<Rpc> {
    match f
    case BytesField(1, p) => Map(Decode(SubOptsD(), p, 0, NoSubOpts()), x => m.(subscriptions := m.subscriptions + [x]))
    case BytesField(2, p) => Map(Decode(ContentD(), p, 0, NoContent()), x => m.(publish := m.publish + [x]))
    case BytesField(3, p) => Map(Decode(ControlD(), p, 0, Present(m.control, NoControl())), x => m.(control := Some(x)))
    case _ => Ok(m)
  }

  /** An enum keeps the low 32 bits, signed. */
  function ApplyKeyOpts(m: KeyOpts, f: Field): Result<KeyOpts> {
    match f
    case VarintField(1, word) => Ok(m.(mode := Some(Int32(word))))
    case BytesField(2, payload) => Ok(m.(keys := m.keys + [payload]))
    case _ => Ok(m)
  }

  function ApplyTopic(m: Topic, f: Field): Result<Topic> {
    match f
    case BytesField(1, p) => Ok(m.(name := Some(p)))
    case BytesField(2, p) => Map(Decode(KeyOptsD(), p, 0, Present(m.auth, NoKeyOpts())), x => m.(auth := Some(x)))
    case BytesField(3, p) => Map(Decode(KeyOptsD(), p, 0, Present(m.enc, NoKeyOpts())), x => m.(enc := Some(x)))
    case _ => Ok(m)
  }

  function SubOptsD(): Description<SubOpts> { Description(SubOptsKinds, ApplySubOpts) }
  function ContentD(): Description<Content> { Description(ContentKinds, ApplyContent) }
  function IHaveD(): Description<IHave> { Description(IHaveKinds, ApplyIHave) }
  function IWantD(): Description<IWant> { Description(OneFieldKinds, ApplyIWant) }
  function TopicRefD(): Description<TopicRef> { Description(OneFieldKinds, ApplyTopicRef) }
  function ControlD(): Description<Control> { Description(ControlKinds, ApplyControl) }
  function RpcD(): Description<Rpc> { Description(RpcKinds, ApplyRpc) }
  function KeyOptsD(): Description<KeyOpts> { Description(KeyOptsKinds, ApplyKeyOpts) }
  function TopicD(): Description<Topic> { Description(TopicKinds, ApplyTopic) }

  // ----- what is written, in the order it is written -----

  function SubOptsPieces(m: SubOpts): seq<Piece> {
    (if m.subscribe.None? then [] else [WordPiece(1, if m.subscribe.value then 1 else 0)]) + Optional(2, m.topicid)
  }

  function ContentPieces(m: Content): seq<Piece> {
    Optional(1, m.from) + Optional(2, m.data) + Optional(3, m.seqno) + Strings(4, m.topicIDs)
    + Optional(5, m.signature) + Optional(6, m.key)
  }

  function Strings(num: FieldNum, xs: seq<Bytes>): seq<Piece> {
    Repeated(xs, StringPiece(num))
  }

  function StringPiece(num: FieldNum): Bytes -> Piece {
    x => BytesPiece(num, x)
  }

  function IHavePieces(m: IHave): seq<Piece> { Optional(1, m.topicID) + Strings(2, m.messageIDs) }
  function IWantPieces(m: IWant): seq<Piece> { Strings(1, m.messageIDs) }
  function TopicRefPieces(m: TopicRef): seq<Piece> { Optional(1, m.topicID) }

  function IHavePiece(x: Message<IHave>): Piece { MessagePiece(1, IHavePieces(x.body), x.unrecognized) }
  function IWantPiece(x: Message<IWant>): Piece { MessagePiece(2, IWantPieces(x.body), x.unrecognized) }
  function GraftPiece(x: Message<TopicRef>): Piece { MessagePiece(3, TopicRefPieces(x.body), x.unrecognized) }
  function PrunePiece(x: Message<TopicRef>): Piece { MessagePiece(4, TopicRefPieces(x.body), x.unrecognized) }

  function ControlPieces(m: Control): seq<Piece> {
    Repeated(m.ihave, IHavePiece) + Repeated(m.iwant, IWantPiece)
    + Repeated(m.graft, GraftPiece) + Repeated(m.prune, PrunePiece)
  }

  function SubOptsPiece(x: Message<SubOpts>): Piece { MessagePiece(1, SubOptsPieces(x.body), x.unrecognized) }
  function ContentPiece(x: Message<Content>): Piece { MessagePiece(2, ContentPieces(x.body), x.unrecognized) }

  function RpcPieces(m: Rpc): seq<Piece> {
    Repeated(m.subscriptions, SubOptsPiece) + Repeated(m.publish, ContentPiece) + ControlPart(m.control)
  }

  function ControlPart(o: Option<Message<Control>>): seq<Piece> {
    if o.None? then [] else [ControlPiece(o.value)]
  }

  function ControlPiece(x: Message<Control>): Piece { MessagePiece(3, ControlPieces(x.body), x.unrecognized) }

  function KeyOptsPieces(m: KeyOpts): seq<Piece> {
    (if m.mode.None? then [] else [WordPiece(1, m.mode.value % TWO64)]) + Strings(2, m.keys)
  }

  function TopicPieces(m: Topic): seq<Piece> {
    Optional(1, m.name) + KeyOptsField(2, m.auth) + KeyOptsField(3, m.enc)
  }

  function KeyOptsField(num: FieldNum, o: Option<Message<KeyOpts>>): seq<Piece> {
    if o.None? then [] else [MessagePiece(num, KeyOptsPieces(o.value.body), o.value.unrecognized)]
  }
}
