/** Reading two buffers as one: what repeated fields, repeated scalars and repeated sub-messages come to. */
module Merging {

  import opened Codec
  import opened Messages
  import opened Options
  import opened Varint

  // ----- what the messages of two buffers come to -----

  /** The last one wins. */
  function Last<T>(x: Option<T>, y: Option<T>): Option<T> {
    if y.Some? then y else x
  }

  function Both<T>(merge: (T, T) -> T, x: Message<T>, y: Message<T>): Message<T> {
    Message(merge(x.body, y.body), x.unrecognized + y.unrecognized)
  }

  /** An optional sub-message that comes twice is merged. */
  function BothOptional<T>(merge: (T, T) -> T, x: Option<Message<T>>, y: Option<Message<T>>): Option<Message<T>> {
    if x.None? then y else if y.None? then x else Some(Both(merge, x.value, y.value))
  }

  function MergeControl(x: Control, y: Control): Control {
    Control(x.ihave + y.ihave, x.iwant + y.iwant, x.graft + y.graft, x.prune + y.prune)
  }

  function MergeRpc(x: Rpc, y: Rpc): Rpc {
    Rpc(x.subscriptions + y.subscriptions, x.publish + y.publish, BothOptional(MergeControl, x.control, y.control))
  }

  function MergeKeyOpts(x: KeyOpts, y: KeyOpts): KeyOpts {
    KeyOpts(Last(x.mode, y.mode), x.keys + y.keys)
  }

  function MergeTopic(x: Topic, y: Topic): Topic {
    Topic(Last(x.name, y.name), BothOptional(MergeKeyOpts, x.auth, y.auth), BothOptional(MergeKeyOpts, x.enc, y.enc))
  }

  // ----- decoding into a message is merging -----

  /** `r` is `s` merged into `x`, or both are refusals. */
  ghost predicate MergedInto<T>(merge: (T, T) -> T, x: T, s: Result<T>, r: Result<T>) {
    match s
    case Ok(z) => r == Ok(merge(x, z))
    case Err(_) => r.Err?
  }

  ghost predicate MessageMergedInto<T>(
      merge: (T, T) -> T, x: Message<T>, s: Result<Message<T>>, r: Result<Message<T>>)
  {
    match s
    case Ok(z) => r == Ok(Both(merge, x, z))
    case Err(_) => r.Err?
  }

  /** A field does to a merged message what it does to the later part. */
  ghost predicate Merges<T(!new)>(d: Description<T>, merge: (T, T) -> T) {
    forall x, y, f :: MergedInto(merge, x, d.apply(y, f), d.apply(merge(x, y), f))
  }

  lemma {:induction false} ApplyMerges<T(!new)>(
      d: Description<T>, merge: (T, T) -> T, x: Message<T>, y: Message<T>, f: Field)
    requires Merges(d, merge)
    ensures MessageMergedInto(merge, x, Apply(d, y, f), Apply(d, Both(merge, x, y), f))
  {
    if f.UnknownField? {
      assert x.unrecognized + y.unrecognized + f.raw == x.unrecognized + (y.unrecognized + f.raw);
    } else {
      assert MergedInto(merge, x.body, d.apply(y.body, f), d.apply(merge(x.body, y.body), f));
    }
  }

  /** A buffer is accepted into a merged message exactly if it is into the later part, with the merged result. */
  lemma {:induction false} DecodeMerges<T(!new)>(
      d: Description<T>, merge: (T, T) -> T, b: Bytes, i: nat, x: Message<T>, y: Message<T>)
    requires Merges(d, merge) && i <= |b|
    ensures MessageMergedInto(merge, x, Decode(d, b, i, y), Decode(d, b, i, Both(merge, x, y)))
    decreases |b| - i
  {
    hide NextField, Merges, Apply, Both;
    if i < |b| && NextField(d.kinds, b, i).Ok? {
      var (f, n) := NextField(d.kinds, b, i).value;
      ApplyMerges(d, merge, x, y, f);
      if Apply(d, y, f).Ok? {
        DecodeMerges(d, merge, b, n, x, Apply(d, y, f).value);
      }
    }
  }

  /** Two buffers read as one are accepted exactly if each is, and give their two messages merged. */
  lemma {:induction false} ConcatMerges<T(!new)>(
      d: Description<T>, merge: (T, T) -> T, a: Bytes, b: Bytes, none: Message<T>)
    requires Merges(d, merge) && |a + b| < TWO63 && Decode(d, a, 0, none).Ok?
    requires Both(merge, Decode(d, a, 0, none).value, none) == Decode(d, a, 0, none).value
    ensures MessageMergedInto(merge, Decode(d, a, 0, none).value, Decode(d, b, 0, none), Decode(d, a + b, 0, none))
  {
    hide Decode, Merges, Both;
    DecodeConcat(d, a, b, none);
    DecodeMerges(d, merge, b, 0, Decode(d, a, 0, none).value, none);
  }

  // ----- for each message type -----

  lemma {:induction false} ControlMerges()
    ensures Merges(ControlD(), MergeControl)
  {
    hide Decode;
    forall x, y, f
      ensures MergedInto(MergeControl, x, ControlD().apply(y, f), ControlD().apply(MergeControl(x, y), f))
    {
      ControlFieldMerges(x, y, f);
    }
  }

  lemma {:induction false} ControlFieldMerges(x: Control, y: Control, f: Field)
    ensures MergedInto(MergeControl, x, ApplyControl(y, f), ApplyControl(MergeControl(x, y), f))
  {
    hide Decode;
    match f
    case BytesField(1, p) =>
      var r := Decode(IHaveD(), p, 0, NoIHave());
      assert r.Ok? ==> x.ihave + y.ihave + [r.value] == x.ihave + (y.ihave + [r.value]);
    case BytesField(2, p) =>
      var r := Decode(IWantD(), p, 0, NoIWant());
      assert r.Ok? ==> x.iwant + y.iwant + [r.value] == x.iwant + (y.iwant + [r.value]);
    case BytesField(3, p) =>
      var r := Decode(TopicRefD(), p, 0, NoTopicRef());
      assert r.Ok? ==> x.graft + y.graft + [r.value] == x.graft + (y.graft + [r.value]);
    case BytesField(4, p) =>
      var r := Decode(TopicRefD(), p, 0, NoTopicRef());
      assert r.Ok? ==> x.prune + y.prune + [r.value] == x.prune + (y.prune + [r.value]);
    case _ =>
  }

  lemma {:induction false} KeyOptsMerges()
    ensures Merges(KeyOptsD(), MergeKeyOpts)
  {
    forall x, y, f
      ensures MergedInto(MergeKeyOpts, x, KeyOptsD().apply(y, f), KeyOptsD().apply(MergeKeyOpts(x, y), f))
    {
      KeyOptsFieldMerges(x, y, f);
    }
  }

  lemma {:induction false} KeyOptsFieldMerges(x: KeyOpts, y: KeyOpts, f: Field)
    ensures MergedInto(MergeKeyOpts, x, ApplyKeyOpts(y, f), ApplyKeyOpts(MergeKeyOpts(x, y), f))
  {
    match f
    case BytesField(2, p) => assert x.keys + y.keys + [p] == x.keys + (y.keys + [p]);
    case _ =>
  }

  /** A sub-message decoded into what is there of it already. */
  lemma {:induction false} OptionalMerges<T(!new)>(
      d: Description<T>, merge: (T, T) -> T, p: Bytes, x: Option<Message<T>>, y: Option<Message<T>>, none: Message<T>)
    requires Merges(d, merge) && forall m :: Both(merge, m, none) == m
    ensures match Decode(d, p, 0, Present(y, none))
            case Ok(z) => var r := Decode(d, p, 0, Present(BothOptional(merge, x, y), none));
                          r.Ok? && Some(r.value) == BothOptional(merge, x, Some(z))
            case Err(_) => Decode(d, p, 0, Present(BothOptional(merge, x, y), none)).Err?
  {
    hide Decode, Merges;
    if x.Some? {
      hide Both;
      DecodeMerges(d, merge, p, 0, x.value, Present(y, none));
    }
  }

  lemma {:induction false} NothingMerged()
    ensures forall m :: Both(MergeControl, m, NoControl()) == m
    ensures forall m :: Both(MergeKeyOpts, m, NoKeyOpts()) == m
    ensures forall m :: Both(MergeRpc, m, NoRpc()) == m
    ensures forall m :: Both(MergeTopic, m, NoTopic()) == m
  {
    forall m: Message<Control> ensures Both(MergeControl, m, NoControl()) == m {
      assert m.body.ihave + [] == m.body.ihave && m.body.iwant + [] == m.body.iwant;
      assert m.body.graft + [] == m.body.graft && m.body.prune + [] == m.body.prune;
    }
    forall m: Message<KeyOpts> ensures Both(MergeKeyOpts, m, NoKeyOpts()) == m {
      assert m.body.keys + [] == m.body.keys;
    }
    forall m: Message<Rpc> ensures Both(MergeRpc, m, NoRpc()) == m {
      assert m.body.subscriptions + [] == m.body.subscriptions && m.body.publish + [] == m.body.publish;
    }
    forall m: Message<Topic> ensures Both(MergeTopic, m, NoTopic()) == m {}
  }

  lemma {:induction false} RpcMerges()
    ensures Merges(RpcD(), MergeRpc)
  {
    hide Decode;
    forall x, y, f
      ensures MergedInto(MergeRpc, x, RpcD().apply(y, f), RpcD().apply(MergeRpc(x, y), f))
    {
      RpcFieldMerges(x, y, f);
    }
  }

  lemma {:induction false} RpcFieldMerges(x: Rpc, y: Rpc, f: Field)
    ensures MergedInto(MergeRpc, x, ApplyRpc(y, f), ApplyRpc(MergeRpc(x, y), f))
  {
    hide Decode, BothOptional;
    match f
    case BytesField(1, p) =>
      var r := Decode(SubOptsD(), p, 0, NoSubOpts());
      assert r.Ok? ==> x.subscriptions + y.subscriptions + [r.value] == x.subscriptions + (y.subscriptions + [r.value]);
    case BytesField(2, p) =>
      var r := Decode(ContentD(), p, 0, NoContent());
      assert r.Ok? ==> x.publish + y.publish + [r.value] == x.publish + (y.publish + [r.value]);
    case BytesField(3, p) =>
      ControlMerges();
      NothingMerged();
      OptionalMerges(ControlD(), MergeControl, p, x.control, y.control, NoControl());
    case _ =>
  }

  lemma {:induction false} TopicMerges()
    ensures Merges(TopicD(), MergeTopic)
  {
    hide Decode;
    forall x, y, f
      ensures MergedInto(MergeTopic, x, TopicD().apply(y, f), TopicD().apply(MergeTopic(x, y), f))
    {
      TopicFieldMerges(x, y, f);
    }
  }

  lemma {:induction false} TopicFieldMerges(x: Topic, y: Topic, f: Field)
    ensures MergedInto(MergeTopic, x, ApplyTopic(y, f), ApplyTopic(MergeTopic(x, y), f))
  {
    hide Decode, BothOptional;
    match f
    case BytesField(2, p) =>
      KeyOptsMerges();
      NothingMerged();
      OptionalMerges(KeyOptsD(), MergeKeyOpts, p, x.auth, y.auth, NoKeyOpts());
    case BytesField(3, p) =>
      KeyOptsMerges();
      NothingMerged();
      OptionalMerges(KeyOptsD(), MergeKeyOpts, p, x.enc, y.enc, NoKeyOpts());
    case _ =>
  }
}
