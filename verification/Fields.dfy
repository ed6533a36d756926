/** The wire format, byte for byte: which tag each field of each message has, what reading one such field does to
  * a message, and what is written for a message.
  */
module Fields {

  import opened Varint
  import opened Codec
  import opened Encoder
  import opened Messages
  import opened Options
  import opened RoundTrips
  import Skip

  // ----- what is written -----

  /** A field with a length in front of it. */
  function Field(tag: Byte, x: Bytes): Bytes {
    [tag] + EncodeVarint(|x|) + x
  }

  function FieldIf(tag: Byte, x: Option<Bytes>): Bytes {
    if x.None? then [] else Field(tag, x.value)
  }

  /** One field for each element of a list. */
  function FieldEach<X>(tag: Byte, xs: seq<X>, bytes: X -> Bytes): Bytes {
    if xs == [] then [] else Field(tag, bytes(xs[0])) + FieldEach(tag, xs[1..], bytes)
  }

  function Itself(x: Bytes): Bytes { x }

  function SubOptsBytes(m: Message<SubOpts>): Bytes {
    (if m.body.subscribe.None? then [] else [0x08, if m.body.subscribe.value then 1 else 0])
    + FieldIf(0x12, m.body.topicid) + m.unrecognized
  }

  function ContentBytes(m: Message<Content>): Bytes {
    FieldIf(0x0a, m.body.from) + FieldIf(0x12, m.body.data) + FieldIf(0x1a, m.body.seqno)
    + FieldEach(0x22, m.body.topicIDs, Itself) + FieldIf(0x2a, m.body.signature) + FieldIf(0x32, m.body.key)
    + m.unrecognized
  }

  function IHaveBytes(m: Message<IHave>): Bytes {
    FieldIf(0x0a, m.body.topicID) + FieldEach(0x12, m.body.messageIDs, Itself) + m.unrecognized
  }

  function IWantBytes(m: Message<IWant>): Bytes {
    FieldEach(0x0a, m.body.messageIDs, Itself) + m.unrecognized
  }

  function TopicRefBytes(m: Message<TopicRef>): Bytes {
    FieldIf(0x0a, m.body.topicID) + m.unrecognized
  }

  function ControlBytes(m: Message<Control>): Bytes {
    FieldEach(0x0a, m.body.ihave, IHaveBytes) + FieldEach(0x12, m.body.iwant, IWantBytes)
    + FieldEach(0x1a, m.body.graft, TopicRefBytes) + FieldEach(0x22, m.body.prune, TopicRefBytes) + m.unrecognized
  }

  function RpcBytes(m: Message<Rpc>): Bytes {
    FieldEach(0x0a, m.body.subscriptions, SubOptsBytes) + FieldEach(0x12, m.body.publish, ContentBytes)
    + (if m.body.control.None? then [] else Field(0x1a, ControlBytes(m.body.control.value))) + m.unrecognized
  }

  /** An enum is written as the 64-bit word that its sign extends to. */
  function KeyOptsBytes(m: Message<KeyOpts>): Bytes {
    (if m.body.mode.None? then []
     else [0x08] + EncodeVarint(if m.body.mode.value < 0 then m.body.mode.value + TWO64 else m.body.mode.value))
    + FieldEach(0x12, m.body.keys, Itself) + m.unrecognized
  }

  function TopicBytes(m: Message<Topic>): Bytes {
    FieldIf(0x0a, m.body.name)
    + (if m.body.auth.None? then [] else Field(0x12, KeyOptsBytes(m.body.auth.value)))
    + (if m.body.enc.None? then [] else Field(0x1a, KeyOptsBytes(m.body.enc.value))) + m.unrecognized
  }

  lemma {:induction false} OnePiece(p: Piece)
    ensures Encode([p]) == EncodePiece(p) && Encode([]) == []
  {
    assert [p][1..] == [];
  }

  lemma {:induction false} OptionalWritten(num: FieldNum, x: Option<Bytes>)
    ensures Encode(Optional(num, x)) == FieldIf(num * 8 + 2, x)
  {
    if x.Some? {
      OnePiece(BytesPiece(num, x.value));
    }
  }

  lemma {:induction false} RepeatedWritten<X(!new)>(num: FieldNum, xs: seq<X>, piece: X -> Piece, bytes: X -> Bytes)
    requires forall x :: EncodePiece(piece(x)) == Field(num * 8 + 2, bytes(x))
    ensures Encode(Repeated(xs, piece)) == FieldEach(num * 8 + 2, xs, bytes)
  {
    hide EncodePiece;
    if xs != [] {
      RepeatedWritten(num, xs[1..], piece, bytes);
      assert Repeated(xs, piece)[1..] == Repeated(xs[1..], piece);
    }
  }

  lemma {:induction false} StringsWritten(num: FieldNum, xs: seq<Bytes>)
    ensures Encode(Strings(num, xs)) == FieldEach(num * 8 + 2, xs, Itself)
  {
    RepeatedWritten(num, xs, StringPiece(num), Itself);
  }

  lemma {:induction false} SmallVarint(v: nat)
    requires v < 128
    ensures EncodeVarint(v) == [v]
  {
  }

  lemma {:induction false} SubOptsWritten(m: Message<SubOpts>)
    ensures Marshal(SubOptsPieces(m.body), m.unrecognized) == SubOptsBytes(m)
  {
    hide Encode, EncodePiece;
    var word := if m.body.subscribe == Some(true) then 1 else 0;
    var first := if m.body.subscribe.None? then [] else [WordPiece(1, word)];
    OptionalWritten(2, m.body.topicid);
    EncodeAppend(first, Optional(2, m.body.topicid));
    OnePiece(WordPiece(1, word));
    FirstWord(word);
  }

  lemma {:induction false} FirstWord(word: Word)
    requires word < 128
    ensures EncodePiece(WordPiece(1, word)) == [0x08, word]
  {
    SmallVarint(word);
  }

  lemma {:induction false} ContentWritten(m: Message<Content>)
    ensures Marshal(ContentPieces(m.body), m.unrecognized) == ContentBytes(m)
  {
    hide Encode, FieldEach, FieldIf, Optional, Strings;
    var c := m.body;
    var p1, p2, p3 := Optional(1, c.from), Optional(2, c.data), Optional(3, c.seqno);
    var p4, p5, p6 := Strings(4, c.topicIDs), Optional(5, c.signature), Optional(6, c.key);
    OptionalWritten(1, c.from);
    OptionalWritten(2, c.data);
    OptionalWritten(3, c.seqno);
    StringsWritten(4, c.topicIDs);
    OptionalWritten(5, c.signature);
    OptionalWritten(6, c.key);
    EncodeAppend(p1, p2);
    EncodeAppend(p1 + p2, p3);
    EncodeAppend(p1 + p2 + p3, p4);
    EncodeAppend(p1 + p2 + p3 + p4, p5);
    EncodeAppend(p1 + p2 + p3 + p4 + p5, p6);
  }

  lemma {:induction false} IHaveWritten(m: Message<IHave>)
    ensures Marshal(IHavePieces(m.body), m.unrecognized) == IHaveBytes(m)
  {
    hide Encode, FieldEach, FieldIf, Optional, Strings;
    OptionalWritten(1, m.body.topicID);
    StringsWritten(2, m.body.messageIDs);
    EncodeAppend(Optional(1, m.body.topicID), Strings(2, m.body.messageIDs));
  }

  lemma {:induction false} IWantWritten(m: Message<IWant>)
    ensures Marshal(IWantPieces(m.body), m.unrecognized) == IWantBytes(m)
  {
    StringsWritten(1, m.body.messageIDs);
  }

  lemma {:induction false} TopicRefWritten(m: Message<TopicRef>)
    ensures Marshal(TopicRefPieces(m.body), m.unrecognized) == TopicRefBytes(m)
  {
    OptionalWritten(1, m.body.topicID);
  }

  lemma {:induction false} ControlWritten(m: Message<Control>)
    ensures Marshal(ControlPieces(m.body), m.unrecognized) == ControlBytes(m)
  {
    hide Encode, FieldEach, Repeated;
    var c := m.body;
    ControlListsWritten(c);
    var p1, p2 := Repeated(c.ihave, IHavePiece), Repeated(c.iwant, IWantPiece);
    var p3, p4 := Repeated(c.graft, GraftPiece), Repeated(c.prune, PrunePiece);
    EncodeAppend(p1, p2);
    EncodeAppend(p1 + p2, p3);
    EncodeAppend(p1 + p2 + p3, p4);
  }

  lemma {:induction false} ControlListsWritten(c: Control)
    ensures Encode(Repeated(c.ihave, IHavePiece)) == FieldEach(0x0a, c.ihave, IHaveBytes)
    ensures Encode(Repeated(c.iwant, IWantPiece)) == FieldEach(0x12, c.iwant, IWantBytes)
    ensures Encode(Repeated(c.graft, GraftPiece)) == FieldEach(0x1a, c.graft, TopicRefBytes)
    ensures Encode(Repeated(c.prune, PrunePiece)) == FieldEach(0x22, c.prune, TopicRefBytes)
  {
    hide Encode, FieldEach, Repeated, IHaveBytes, IWantBytes, TopicRefBytes, IHavePieces, IWantPieces, TopicRefPieces;
    forall x ensures EncodePiece(IHavePiece(x)) == Field(0x0a, IHaveBytes(x)) {
      IHaveWritten(x);
    }
    RepeatedWritten(1, c.ihave, IHavePiece, IHaveBytes);
    forall x ensures EncodePiece(IWantPiece(x)) == Field(0x12, IWantBytes(x)) {
      IWantWritten(x);
    }
    RepeatedWritten(2, c.iwant, IWantPiece, IWantBytes);
    forall x ensures EncodePiece(GraftPiece(x)) == Field(0x1a, TopicRefBytes(x)) {
      TopicRefWritten(x);
    }
    RepeatedWritten(3, c.graft, GraftPiece, TopicRefBytes);
    forall x ensures EncodePiece(PrunePiece(x)) == Field(0x22, TopicRefBytes(x)) {
      TopicRefWritten(x);
    }
    RepeatedWritten(4, c.prune, PrunePiece, TopicRefBytes);
  }

  /** An RPC is written as these bytes, tags and all. */
  lemma {:induction false} RpcWritten(m: Message<Rpc>)
    ensures Marshal(RpcPieces(m.body), m.unrecognized) == RpcBytes(m)
  {
    hide Encode, FieldEach, Repeated, ControlPart, ControlBytes;
    var c := m.body;
    RpcListsWritten(c);
    var p1, p2 := Repeated(c.subscriptions, SubOptsPiece), Repeated(c.publish, ContentPiece);
    var p3 := ControlPart(c.control);
    EncodeAppend(p1, p2);
    EncodeAppend(p1 + p2, p3);
  }

  lemma {:induction false} RpcListsWritten(c: Rpc)
    ensures Encode(Repeated(c.subscriptions, SubOptsPiece)) == FieldEach(0x0a, c.subscriptions, SubOptsBytes)
    ensures Encode(Repeated(c.publish, ContentPiece)) == FieldEach(0x12, c.publish, ContentBytes)
    ensures Encode(ControlPart(c.control)) ==
            if c.control.None? then [] else Field(0x1a, ControlBytes(c.control.value))
  {
    hide Encode, FieldEach, Repeated, SubOptsBytes, ContentBytes, ControlBytes, SubOptsPieces, ContentPieces;
    hide ControlPieces;
    forall x ensures EncodePiece(SubOptsPiece(x)) == Field(0x0a, SubOptsBytes(x)) {
      SubOptsWritten(x);
    }
    RepeatedWritten(1, c.subscriptions, SubOptsPiece, SubOptsBytes);
    forall x ensures EncodePiece(ContentPiece(x)) == Field(0x12, ContentBytes(x)) {
      ContentWritten(x);
    }
    RepeatedWritten(2, c.publish, ContentPiece, ContentBytes);
    if c.control.Some? {
      ControlWritten(c.control.value);
      OnePiece(ControlPiece(c.control.value));
    } else {
      OnePiece(WordPiece(1, 0));
    }
  }

  lemma {:induction false} KeyOptsWritten(m: Message<KeyOpts>)
    ensures Marshal(KeyOptsPieces(m.body), m.unrecognized) == KeyOptsBytes(m)
  {
    hide Encode, FieldEach, Strings, EncodeVarint;
    var c := m.body;
    var word: Word := if c.mode.None? then 0 else c.mode.value % TWO64;
    var first := if c.mode.None? then [] else [WordPiece(1, word)];
    StringsWritten(2, c.keys);
    EncodeAppend(first, Strings(2, c.keys));
    OnePiece(WordPiece(1, word));
  }

  lemma {:induction false} TopicWritten(m: Message<Topic>)
    ensures Marshal(TopicPieces(m.body), m.unrecognized) == TopicBytes(m)
  {
    hide Encode, FieldIf, Optional, KeyOptsBytes, KeyOptsField;
    var c := m.body;
    var p1, p2, p3 := Optional(1, c.name), KeyOptsField(2, c.auth), KeyOptsField(3, c.enc);
    OptionalWritten(1, c.name);
    KeyOptsFieldWritten(2, c.auth);
    KeyOptsFieldWritten(3, c.enc);
    EncodeAppend(p1, p2);
    EncodeAppend(p1 + p2, p3);
  }

  lemma {:induction false} KeyOptsFieldWritten(num: FieldNum, o: Option<Message<KeyOpts>>)
    ensures Encode(KeyOptsField(num, o)) == if o.None? then [] else Field(num * 8 + 2, KeyOptsBytes(o.value))
  {
    hide KeyOptsBytes, KeyOptsPieces;
    if o.Some? {
      KeyOptsWritten(o.value);
      OnePiece(MessagePiece(num, KeyOptsPieces(o.value.body), o.value.unrecognized));
    }
  }

  // ----- what is read -----

  lemma {:induction false} VarintIsShort(v: nat)
    requires v < TWO64
    ensures |EncodeVarint(v)| <= 10
  {
    hide EncodeVarint;
    VarintReadBack([], v, []);
    hide ReadVarint;
  }

  lemma {:induction false} FieldFits(tag: Byte, x: Bytes)
    requires |x| < TWO63 - 16
    ensures |Field(tag, x)| < TWO63
  {
    VarintIsShort(|x|);
  }

  lemma {:induction false} BytesRead<T>(d: Description<T>, num: FieldNum, x: Bytes, m: Message<T>)
    requires d.kinds(num) == AsBytes && |x| < TWO63 - 16
    ensures Decode(d, Field(num * 8 + 2, x), 0, m) == Apply(d, m, BytesField(num, x))
  {
    hide NextField, Apply;
    FieldAlone(d.kinds, num, x);
  }

  lemma {:induction false} FieldAlone(kinds: int -> Kind, num: FieldNum, x: Bytes)
    requires kinds(num) == AsBytes && |x| < TWO63 - 16
    ensures var e := Field(num * 8 + 2, x); NextField(kinds, e, 0) == Ok((BytesField(num, x), |e|))
  {
    hide EncodeVarint, NextField;
    var e := Field(num * 8 + 2, x);
    FieldFits(num * 8 + 2, x);
    assert e + [] == e;
    PayloadReadBack(kinds, num, x, []);
  }

  lemma {:induction false} WordRead<T>(d: Description<T>, num: FieldNum, word: Word, m: Message<T>)
    requires d.kinds(num) == AsVarint
    ensures Decode(d, [num * 8] + EncodeVarint(word), 0, m) == Apply(d, m, VarintField(num, word))
  {
    hide EncodeVarint, NextField, Apply;
    var e := [Tag(num, 0)] + EncodeVarint(word);
    WordReadBack(d.kinds, num, word, []);
    assert e + [] == e;
  }

  /** A field with any other number, and a length, is kept as it is. */
  lemma {:induction false} OtherFieldKept<T>(d: Description<T>, num: FieldNum, x: Bytes, m: Message<T>)
    requires d.kinds(num) == Unknown && |Field(num * 8 + 2, x)| < TWO63
    ensures var e := Field(num * 8 + 2, x); Decode(d, e, 0, m) == Ok(m.(unrecognized := m.unrecognized + e))
  {
    hide EncodeVarint, ReadVarint;
    var e := Field(num * 8 + 2, x);
    var head, length := [Tag(num, 2)], EncodeVarint(|x|);
    assert e == head + (length + x) && e == head + length + x;
    TagReadBack(num, 2, length + x, e);
    VarintReadBack(head, |x|, x);
    assert NextField(d.kinds, e, 0) == Ok((UnknownField(e), |e|)) by {
      assert e[0..|e|] == e;
    }
    hide NextField;
  }

  lemma {:induction false} SubOptsRead(m: Message<SubOpts>, word: Word, x: Bytes)
    requires |x| < TWO63 - 16
    ensures Decode(SubOptsD(), [0x08] + EncodeVarint(word), 0, m) ==
            Ok(m.(body := m.body.(subscribe := Some(word != 0))))
    ensures Decode(SubOptsD(), Field(0x12, x), 0, m) == Ok(m.(body := m.body.(topicid := Some(x))))
  {
    hide Decode, EncodeVarint, Field;
    WordRead(SubOptsD(), 1, word, m);
    BytesRead(SubOptsD(), 2, x, m);
  }

  lemma {:induction false} ContentRead(m: Message<Content>, x: Bytes)
    requires |x| < TWO63 - 16
    ensures Decode(ContentD(), Field(0x0a, x), 0, m) == Ok(m.(body := m.body.(from := Some(x))))
    ensures Decode(ContentD(), Field(0x12, x), 0, m) == Ok(m.(body := m.body.(data := Some(x))))
    ensures Decode(ContentD(), Field(0x1a, x), 0, m) == Ok(m.(body := m.body.(seqno := Some(x))))
    ensures Decode(ContentD(), Field(0x22, x), 0, m) == Ok(m.(body := m.body.(topicIDs := m.body.topicIDs + [x])))
    ensures Decode(ContentD(), Field(0x2a, x), 0, m) == Ok(m.(body := m.body.(signature := Some(x))))
    ensures Decode(ContentD(), Field(0x32, x), 0, m) == Ok(m.(body := m.body.(key := Some(x))))
  {
    hide Decode, EncodeVarint, Field;
    BytesRead(ContentD(), 1, x, m);
    BytesRead(ContentD(), 2, x, m);
    BytesRead(ContentD(), 3, x, m);
    BytesRead(ContentD(), 4, x, m);
    BytesRead(ContentD(), 5, x, m);
    BytesRead(ContentD(), 6, x, m);
  }

  lemma {:induction false} IHaveRead(m: Message<IHave>, x: Bytes)
    requires |x| < TWO63 - 16
    ensures Decode(IHaveD(), Field(0x0a, x), 0, m) == Ok(m.(body := m.body.(topicID := Some(x))))
    ensures Decode(IHaveD(), Field(0x12, x), 0, m) == Ok(m.(body := m.body.(messageIDs := m.body.messageIDs + [x])))
  {
    hide Decode, EncodeVarint, Field;
    BytesRead(IHaveD(), 1, x, m);
    BytesRead(IHaveD(), 2, x, m);
  }

  /** IWANT, and GRAFT or PRUNE. */
  lemma {:induction false} OneFieldRead(m: Message<IWant>, r: Message<TopicRef>, x: Bytes)
    requires |x| < TWO63 - 16
    ensures Decode(IWantD(), Field(0x0a, x), 0, m) == Ok(m.(body := m.body.(messageIDs := m.body.messageIDs + [x])))
    ensures Decode(TopicRefD(), Field(0x0a, x), 0, r) == Ok(r.(body := r.body.(topicID := Some(x))))
  {
    hide Decode, EncodeVarint, Field;
    BytesRead(IWantD(), 1, x, m);
    BytesRead(TopicRefD(), 1, x, r);
  }

  /** `r` is what becomes of the outer message with the sub-message that was read, or its error. */
  ghost predicate Takes<X, T>(x: Result<Message<X>>, r: Result<Message<T>>, m: Message<T>, body: Message<X> -> T) {
    match x
    case Ok(y) => r == Ok(m.(body := body(y)))
    case Err(e) => r == Err(e)
  }

  lemma {:induction false} ControlRead(m: Message<Control>, x: Bytes)
    requires |x| < TWO63 - 16
    ensures var c := m.body;
            && Takes(Decode(IHaveD(), x, 0, NoIHave()), Decode(ControlD(), Field(0x0a, x), 0, m), m,
                     y => c.(ihave := c.ihave + [y]))
            && Takes(Decode(IWantD(), x, 0, NoIWant()), Decode(ControlD(), Field(0x12, x), 0, m), m,
                     y => c.(iwant := c.iwant + [y]))
            && Takes(Decode(TopicRefD(), x, 0, NoTopicRef()), Decode(ControlD(), Field(0x1a, x), 0, m), m,
                     y => c.(graft := c.graft + [y]))
            && Takes(Decode(TopicRefD(), x, 0, NoTopicRef()), Decode(ControlD(), Field(0x22, x), 0, m), m,
                     y => c.(prune := c.prune + [y]))
  {
    hide Decode, EncodeVarint, Field;
    BytesRead(ControlD(), 1, x, m);
    BytesRead(ControlD(), 2, x, m);
    BytesRead(ControlD(), 3, x, m);
    BytesRead(ControlD(), 4, x, m);
  }

  /** Control comes once: a second one is read into the first. */
  lemma {:induction false} RpcRead(m: Message<Rpc>, x: Bytes)
    requires |x| < TWO63 - 16
    ensures var c := m.body;
            && Takes(Decode(SubOptsD(), x, 0, NoSubOpts()), Decode(RpcD(), Field(0x0a, x), 0, m), m,
                     y => c.(subscriptions := c.subscriptions + [y]))
            && Takes(Decode(ContentD(), x, 0, NoContent()), Decode(RpcD(), Field(0x12, x), 0, m), m,
                     y => c.(publish := c.publish + [y]))
            && Takes(Decode(ControlD(), x, 0, if c.control.Some? then c.control.value else NoControl()),
                     Decode(RpcD(), Field(0x1a, x), 0, m), m, y => c.(control := Some(y)))
  {
    hide Decode, EncodeVarint, Field;
    BytesRead(RpcD(), 1, x, m);
    BytesRead(RpcD(), 2, x, m);
    BytesRead(RpcD(), 3, x, m);
  }

  /** An enum takes the low 32 bits of its word, as a signed number. */
  lemma {:induction false} KeyOptsRead(m: Message<KeyOpts>, mode: EnumValue, word: Word, x: Bytes)
    requires |x| < TWO63 - 16 && (word - mode) % 0x1_0000_0000 == 0
    ensures Decode(KeyOptsD(), [0x08] + EncodeVarint(word), 0, m) == Ok(m.(body := m.body.(mode := Some(mode))))
    ensures Decode(KeyOptsD(), Field(0x12, x), 0, m) == Ok(m.(body := m.body.(keys := m.body.keys + [x])))
  {
    hide Decode, EncodeVarint, Field;
    WordRead(KeyOptsD(), 1, word, m);
    BytesRead(KeyOptsD(), 2, x, m);
    LowBits(mode, word);
  }

  lemma {:induction false} LowBits(mode: EnumValue, word: Word)
    requires (word - mode) % 0x1_0000_0000 == 0
    ensures Int32(word) == mode
  {
    var k := (word - mode) / 0x1_0000_0000;
    assert word == mode + k * 0x1_0000_0000;
  }

  lemma {:induction false} TopicRead(m: Message<Topic>, x: Bytes)
    requires |x| < TWO63 - 16
    ensures var c := m.body;
            && Decode(TopicD(), Field(0x0a, x), 0, m) == Ok(m.(body := c.(name := Some(x))))
            && Takes(Decode(KeyOptsD(), x, 0, if c.auth.Some? then c.auth.value else NoKeyOpts()),
                     Decode(TopicD(), Field(0x12, x), 0, m), m, y => c.(auth := Some(y)))
            && Takes(Decode(KeyOptsD(), x, 0, if c.enc.Some? then c.enc.value else NoKeyOpts()),
                     Decode(TopicD(), Field(0x1a, x), 0, m), m, y => c.(enc := Some(y)))
  {
    hide Decode, EncodeVarint, Field;
    BytesRead(TopicD(), 1, x, m);
    BytesRead(TopicD(), 2, x, m);
    BytesRead(TopicD(), 3, x, m);
  }

  // ----- varints, byte for byte -----

  /** Seven bits to a byte, the lowest first. */
  function ValueOf(e: Bytes): nat {
    if e == [] then 0 else e[0] % 128 + 128 * ValueOf(e[1..])
  }

  /** That is what is written; and the high bit says that more bytes follow. */
  lemma {:induction false} VarintBytes(v: nat)
    ensures var e := EncodeVarint(v);
            ValueOf(e) == v && e[|e| - 1] < 128 && forall i | 0 <= i < |e| - 1 :: e[i] >= 128
  {
    if v >= 128 {
      VarintBytes(v / 128);
      assert EncodeVarint(v)[1..] == EncodeVarint(v / 128);
    } else {
      assert EncodeVarint(v)[1..] == [];
    }
  }

  /** The bytes of one varint: the high bit is set on all but the last. */
  predicate IsVarint(e: Bytes) {
    e != [] && e[|e| - 1] < 128 && forall i | 0 <= i < |e| - 1 :: e[i] >= 128
  }

  /** Up to ten bytes are read, shortest form or not, and what does not fit 64 bits is cut off. */
  lemma {:induction false} VarintRead(e: Bytes, t: Bytes)
    requires IsVarint(e)
    ensures if |e| <= 10 then ReadVarint(e + t, 0) == Ok((ValueOf(e) % TWO64, |e|))
            else ReadVarint(e + t, 0) == Err(IntOverflow)
  {
    DigitsRead(e + t, 0, e);
  }

  lemma {:induction false} DigitsRead(b: Bytes, k: nat, e: Bytes)
    requires IsVarint(e) && k <= 10 && k + |e| <= |b| && b[k..k + |e|] == e
    ensures Digits(b, k, k) == if k + |e| <= 10 then Ok((ValueOf(e), k + |e|)) else Err(IntOverflow)
    decreases |e|
  {
    assert b[k..k + |e|][0] == b[k];
    if k < 10 && |e| > 1 {
      assert b[k + 1..k + 1 + |e[1..]|] == e[1..];
      DigitsRead(b, k + 1, e[1..]);
    } else if |e| == 1 {
      assert e[1..] == [];
    }
  }

  // ----- fields that are skipped -----

  /** After a tag of one byte: a varint, eight bytes, a length and as many bytes, or four bytes. */
  lemma {:induction false} SkippedSizes(tag: Byte, e: Bytes, t: Bytes)
    requires tag < 128 && IsVarint(e) && |e| <= 10 && ValueOf(e) < TWO63 - 16
    ensures tag % 8 == 0 ==> Skip.Size([tag] + e + t, 0) == Ok(1 + |e|)
    ensures tag % 8 == 1 ==> Skip.Size([tag] + t, 0) == Ok(1 + 8)
    ensures tag % 8 == 2 ==> Skip.Size([tag] + e + t, 0) == Ok(1 + |e| + ValueOf(e))
    ensures tag % 8 == 5 ==> Skip.Size([tag] + t, 0) == Ok(1 + 4)
    ensures tag % 8 >= 6 ==> Skip.Size([tag] + t, 0) == Err(IllegalWireType)
  {
    if tag % 8 == 0 || tag % 8 == 2 {
      VariableSizes(tag, e, t);
    } else {
      FixedSizes(tag, t);
    }
  }

  lemma {:induction false} FixedSizes(tag: Byte, t: Bytes)
    requires tag < 128
    ensures tag % 8 == 1 ==> Skip.Size([tag] + t, 0) == Ok(1 + 8)
    ensures tag % 8 == 5 ==> Skip.Size([tag] + t, 0) == Ok(1 + 4)
    ensures tag % 8 >= 6 ==> Skip.Size([tag] + t, 0) == Err(IllegalWireType)
  {
    TagByte(tag, t);
    hide ReadVarint, Skip.GroupSize;
  }

  lemma {:induction false} VariableSizes(tag: Byte, e: Bytes, t: Bytes)
    requires tag < 128 && IsVarint(e) && |e| <= 10 && ValueOf(e) < TWO63 - 16
    ensures tag % 8 == 0 ==> Skip.Size([tag] + e + t, 0) == Ok(1 + |e|)
    ensures tag % 8 == 2 ==> Skip.Size([tag] + e + t, 0) == Ok(1 + |e| + ValueOf(e))
  {
    hide ReadVarint, Skip.GroupSize, IsVarint, ValueOf;
    TagByte(tag, e + t);
    VarintAfter(tag, e, t);
    var b, v := [tag] + e + t, ValueOf(e);
    assert b == [tag] + (e + t) && v % TWO64 == v;
    assert ReadVarint(b, 0) == Ok((tag, 1)) && ReadVarint(b, 1) == Ok((v, 1 + |e|));
    SizeFrom(b, tag, v, 1 + |e|);
  }

  lemma {:induction false} SizeFrom(b: Bytes, tag: nat, v: nat, n: nat)
    requires b != [] && ReadVarint(b, 0) == Ok((tag, 1)) && ReadVarint(b, 1) == Ok((v, n)) && n + v < TWO63
    ensures tag % 8 == 0 ==> Skip.Size(b, 0) == Ok(n)
    ensures tag % 8 == 2 ==> Skip.Size(b, 0) == Ok(n + v)
  {
    hide ReadVarint, Skip.GroupSize;
  }

  lemma {:induction false} TagByte(tag: Byte, t: Bytes)
    requires tag < 128
    ensures ReadVarint([tag] + t, 0) == Ok((tag, 1))
  {
  }

  lemma {:induction false} VarintAfter(tag: Byte, e: Bytes, t: Bytes)
    requires IsVarint(e) && |e| <= 10
    ensures ReadVarint([tag] + e + t, 1) == Ok((ValueOf(e) % TWO64, 1 + |e|))
  {
    VarintRead(e, t);
    var b := [tag] + e + t;
    assert Same(e + t, 0, b, 1, |e|) by {
      assert b[1..1 + |e|] == e == (e + t)[0..|e|];
    }
    hide ReadVarint;
    ReadVarintLocal(e + t, 0, b, 1);
  }

  /** Whole fields, one after the other, none of them an end of a group. */
  predicate WholeFields(x: Bytes)
    decreases |x|
  {
    x == [] ||
    (ReadVarint(x, 0).Ok? && ReadVarint(x, 0).value.0 % 8 != 4 && Skip.Size(x, 0).Ok?
     && 0 < Skip.Size(x, 0).value <= |x| && WholeFields(x[Skip.Size(x, 0).value..]))
  }

  /** A group takes its start, whatever whole fields are in it, and its end. */
  lemma {:induction false} GroupSkipped(start: Byte, x: Bytes, end: Byte, t: Bytes)
    requires start < 128 && start % 8 == 3 && end < 128 && end % 8 == 4 && WholeFields(x) && |x| < TWO63 - 16
    ensures Skip.Size([start] + x + [end] + t, 0) == Ok(1 + |x| + 1)
  {
    hide WholeFields;
    var b := [start] + x + [end] + t;
    assert b == [start] + (x + [end] + t);
    TagByte(start, x + [end] + t);
    assert x[0..] == x;
    GroupRest(start, x, end, t, 0);
    hide ReadVarint, Skip.GroupSize;
  }

  lemma {:induction false} GroupRest(start: Byte, x: Bytes, end: Byte, t: Bytes, k: nat)
    requires k <= |x| && end < 128 && end % 8 == 4 && WholeFields(x[k..]) && |x| < TWO63 - 16
    ensures Skip.GroupSize([start] + x + [end] + t, 0, 1 + k) == Ok(1 + |x| + 1)
    decreases |x| - k
  {
    hide ReadVarint, Same;
    var b := [start] + x + [end] + t;
    if k == |x| {
      assert b[1 + k..] == [end] + t;
      TagByte(end, t);
      assert Same([end] + t, 0, b, 1 + k, 1) by {
        EndIsSame(start, x, end, t);
      }
      ReadVarintLocal([end] + t, 0, b, 1 + k);
    } else {
      var y := x[k..];
      var n := Skip.Size(y, 0).value;
      var m := ReadVarint(y, 0).value.1;
      InnerIsSame(start, x, end, t, k, n);
      Skip.SizeLocal(y, 0, b, 1 + k);
      TagWithin(y, n);
      SameSub(y, 0, b, 1 + k, n, 0, m);
      ReadVarintLocal(y, 0, b, 1 + k);
      assert y[n..] == x[k + n..];
      GroupRest(start, x, end, t, k + n);
      hide Skip.Size;
    }
  }

  lemma {:induction false} TagWithin(y: Bytes, n: nat)
    requires y != [] && Skip.Size(y, 0) == Ok(n)
    ensures ReadVarint(y, 0).Ok? && ReadVarint(y, 0).value.1 <= n
  {
    hide ReadVarint;
  }

  lemma {:induction false} EndIsSame(start: Byte, x: Bytes, end: Byte, t: Bytes)
    ensures Same([end] + t, 0, [start] + x + [end] + t, 1 + |x|, 1)
  {
    assert ([start] + x + [end] + t)[1 + |x|..1 + |x| + 1] == [end] == ([end] + t)[0..1];
  }

  lemma {:induction false} InnerIsSame(start: Byte, x: Bytes, end: Byte, t: Bytes, k: nat, n: nat)
    requires k + n <= |x|
    ensures Same(x[k..], 0, [start] + x + [end] + t, 1 + k, n)
  {
    assert ([start] + x + [end] + t)[1 + k..1 + k + n] == x[k..][0..n];
  }

  /** A field that the type does not know is kept, with its bytes: after the tag eight of them, or four. */
  lemma {:induction false} FixedFieldKept<T>(d: Description<T>, num: FieldNum, x: Bytes, m: Message<T>)
    requires d.kinds(num) == Unknown
    ensures |x| == 8 ==> var e := [num * 8 + 1] + x; Decode(d, e, 0, m) == Ok(m.(unrecognized := m.unrecognized + e))
    ensures |x| == 4 ==> var e := [num * 8 + 5] + x; Decode(d, e, 0, m) == Ok(m.(unrecognized := m.unrecognized + e))
  {
    if |x| == 8 || |x| == 4 {
      var wireType := if |x| == 8 then 1 else 5;
      var e := [Tag(num, wireType)] + x;
      TagReadBack(num, wireType, x, e);
      hide ReadVarint;
      assert e[0..|e|] == e;
      assert NextField(d.kinds, e, 0) == Ok((UnknownField(e), |e|));
      hide NextField;
    }
  }

  /** A known field with the wire type of another kind is refused, and so are an end of a group, and field zero. */
  lemma {:induction false} Refusals<T>(d: Description<T>, num: FieldNum, wireType: int, t: Bytes, m: Message<T>)
    requires 0 <= wireType < 8
    ensures d.kinds(num) == AsBytes && wireType != 2 && wireType != 4 ==>
              Decode(d, [num * 8 + wireType] + t, 0, m) == Err(WrongWireType)
    ensures d.kinds(num) == AsVarint && wireType != 0 && wireType != 4 ==>
              Decode(d, [num * 8 + wireType] + t, 0, m) == Err(WrongWireType)
    ensures wireType == 4 ==> Decode(d, [num * 8 + wireType] + t, 0, m) == Err(EndGroup)
    ensures wireType != 4 ==> Decode(d, [wireType] + t, 0, m) == Err(IllegalTag)
  {
    TagReadBack(num, wireType, t, [Tag(num, wireType)] + t);
    TagByte(wireType, t);
    hide ReadVarint;
  }

  lemma {:induction false} DigitsCut(b: Bytes, i: nat, k: nat)
    requires i <= |b| && forall j | i <= j < |b| :: b[j] >= 128
    ensures Digits(b, i, k).Err?
    decreases 10 - k
  {
    if k < 10 && i < |b| {
      DigitsCut(b, i + 1, k + 1);
    }
  }

  /** Cut off within the length. */
  lemma {:induction false} LengthCut(num: FieldNum, x: Bytes, n: nat)
    requires |x| < TWO63 && 0 < n < 1 + |EncodeVarint(|x|)|
    ensures n <= |Field(num * 8 + 2, x)| && ReadVarint(Field(num * 8 + 2, x)[..n], 1).Err?
  {
    VarintBytes(|x|);
    hide EncodeVarint;
    DigitsCut(Field(num * 8 + 2, x)[..n], 1, 0);
  }

  /** Cut off after it. */
  lemma {:induction false} PayloadCut(num: FieldNum, x: Bytes, n: nat)
    requires |x| < TWO63 && 1 + |EncodeVarint(|x|)| <= n <= |Field(num * 8 + 2, x)|
    ensures ReadVarint(Field(num * 8 + 2, x)[..n], 1) == Ok((|x|, 1 + |EncodeVarint(|x|)|))
  {
    hide EncodeVarint, ReadVarint;
    var b, length := Field(num * 8 + 2, x)[..n], [num * 8 + 2] + EncodeVarint(|x|);
    assert b == length + b[|length|..];
    VarintReadBack([num * 8 + 2], |x|, b[|length|..]);
  }

  /** A known field that is cut off anywhere is refused. */
  lemma {:induction false} TruncatedRefused<T>(d: Description<T>, num: FieldNum, x: Bytes, n: nat, m: Message<T>)
    requires d.kinds(num) == AsBytes && |x| < TWO63 - 16 && 0 < n < |Field(num * 8 + 2, x)|
    ensures Decode(d, Field(num * 8 + 2, x)[..n], 0, m).Err?
  {
    var b, size := Field(num * 8 + 2, x)[..n], |EncodeVarint(|x|)|;
    assert |Field(num * 8 + 2, x)| == 1 + size + |x|;
    assert b == [num * 8 + 2] + b[1..];
    TagReadBack(num, 2, b[1..], b);
    if n < 1 + size {
      LengthCut(num, x, n);
    } else {
      PayloadCut(num, x, n);
      VarintIsShort(|x|);
    }
    hide ReadVarint, EncodeVarint, Field;
    CutPayload(d.kinds, num, b, n);
  }

  lemma {:induction false} CutPayload(kinds: int -> Kind, num: FieldNum, b: Bytes, n: nat)
    requires kinds(num) == AsBytes && |b| == n > 0 && ReadVarint(b, 0) == Ok((num * 8 + 2, 1))
    requires ReadVarint(b, 1).Err? || ReadVarint(b, 1).value.1 + ReadVarint(b, 1).value.0 > n
    ensures NextField(kinds, b, 0).Err?
  {
    hide ReadVarint;
  }
}
