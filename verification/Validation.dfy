/** Messages on their way to be published, and the front end of the validation pipeline (validation.go). */
module Validation {

  import opened Capacity
  import opened MessageCache
  import opened Options

  datatype Message = Message(from: PeerId, seqno: string, topics: seq<Topic>, data: string, signature: Option<string>)

  /** msgID: author and sequence number, run together. */
  function MsgId(m: Message): Mid {
    Mid(m.from.name + m.seqno)
  }

  /** Messages with one id have one author and one sequence number exactly if their sequence numbers have one
    * length (nextSeqno makes eight bytes). */
  lemma {:induction false} IdsTellApart(m: Message, m': Message)
    ensures m.from == m'.from && m.seqno == m'.seqno <==> MsgId(m) == MsgId(m') && |m.seqno| == |m'.seqno|
  {
    var s, s' := m.from.name + m.seqno, m'.from.name + m'.seqno;
    if s == s' && |m.seqno| == |m'.seqno| {
      assert m.from.name == s[..|s| - |m.seqno|] == s'[..|s'| - |m'.seqno|] == m'.from.name;
      assert m.seqno == s[|s| - |m.seqno|..] == s'[|s'| - |m'.seqno|..] == m'.seqno;
    }
  }

  /** Without that, messages of different authors can have one id. */
  lemma {:induction false} IdsCanClash(m: Message, m': Message)
    requires m.from == PeerId("ab") && m.seqno == "c" && m'.from == PeerId("a") && m'.seqno == "bc"
    ensures MsgId(m) == MsgId(m') && m.from != m'.from
  {
    assert "ab" + "c" == "a" + "bc";
  }

  /** A validator registered for a topic; `id` tells one registration from another. */
  datatype TopicVal = TopicVal(id: int, topic: Topic, inline: bool)

  type Registry = map<Topic, TopicVal>

  /** A validateReq. */
  datatype Job = Job(src: PeerId, msg: Message, vals: seq<TopicVal>)

  /** The validators registered for a list of topics, in order. */
  function ValidatorsFor(registry: Registry, topics: seq<Topic>): seq<TopicVal> {
    if topics == [] then []
    else
      ValidatorsFor(registry, topics[..|topics| - 1])
      + (if topics[|topics| - 1] in registry then [registry[topics[|topics| - 1]]] else [])
  }

  /** The positions of the topics that have a validator. */
  function RegisteredAt(registry: Registry, topics: seq<Topic>): set<nat> {
    set i | 0 <= i < |topics| && topics[i] in registry
  }

  /** A list with one entry for each topic that has a validator: that validator, in the order of the topics. */
  ghost predicate ListsValidators(registry: Registry, topics: seq<Topic>, vals: seq<TopicVal>) {
    && |vals| == |RegisteredAt(registry, topics)|
    && (forall v :: v in vals <==> exists t :: t in topics && t in registry && registry[t] == v)
    && (forall i | 0 <= i < |topics| && topics[i] in registry ::
          && |RegisteredAt(registry, topics[..i])| < |vals|
          && vals[|RegisteredAt(registry, topics[..i])|] == registry[topics[i]])
  }

  lemma {:induction false} ValidatorsListed(registry: Registry, topics: seq<Topic>)
    ensures ListsValidators(registry, topics, ValidatorsFor(registry, topics))
  {
    ValidatorsCounted(registry, topics);
    forall v ensures v in ValidatorsFor(registry, topics) <==>
                     exists t :: t in topics && t in registry && registry[t] == v {
      ValidatorsMean(registry, topics, v);
    }
    forall i | 0 <= i < |topics| && topics[i] in registry
      ensures |RegisteredAt(registry, topics[..i])| < |ValidatorsFor(registry, topics)|
      ensures ValidatorsFor(registry, topics)[|RegisteredAt(registry, topics[..i])|] == registry[topics[i]]
    {
      ValidatorPlaced(registry, topics, i);
    }
  }

  lemma {:induction false} ValidatorsCounted(registry: Registry, topics: seq<Topic>)
    ensures |ValidatorsFor(registry, topics)| == |RegisteredAt(registry, topics)|
  {
    if topics != [] {
      var n := |topics| - 1;
      ValidatorsCounted(registry, topics[..n]);
      assert RegisteredAt(registry, topics) ==
             RegisteredAt(registry, topics[..n]) + if topics[n] in registry then {n} else {};
    }
  }

  lemma {:induction false} ValidatorsMean(registry: Registry, topics: seq<Topic>, v: TopicVal)
    ensures v in ValidatorsFor(registry, topics) <==> exists t :: t in topics && t in registry && registry[t] == v
  {
    if topics != [] {
      var init, last := topics[..|topics| - 1], topics[|topics| - 1];
      ValidatorsMean(registry, init, v);
      assert topics == init + [last];
    }
  }

  lemma {:induction false} ValidatorPlaced(registry: Registry, topics: seq<Topic>, i: nat)
    requires i < |topics| && topics[i] in registry
    ensures |RegisteredAt(registry, topics[..i])| < |ValidatorsFor(registry, topics)|
    ensures ValidatorsFor(registry, topics)[|RegisteredAt(registry, topics[..i])|] == registry[topics[i]]
  {
    var n := |topics| - 1;
    if i < n {
      ValidatorPlaced(registry, topics[..n], i);
      assert topics[..n][..i] == topics[..i];
    } else {
      ValidatorsCounted(registry, topics[..n]);
    }
  }

  /** The inline validators of a list, or the others, in order. */
  function OfKind(vals: seq<TopicVal>, inline: bool): seq<TopicVal> {
    if vals == [] then []
    else
      OfKind(vals[..|vals| - 1], inline) + (if vals[|vals| - 1].inline == inline then [vals[|vals| - 1]] else [])
  }

  lemma {:induction false} KindsOfNone()
    ensures OfKind([], true) == [] && OfKind([], false) == []
  {
  }

  lemma {:induction false} KindsSnoc(vals: seq<TopicVal>, i: nat)
    requires i < |vals|
    ensures forall inline :: OfKind(vals[..i + 1], inline) ==
              OfKind(vals[..i], inline) + if vals[i].inline == inline then [vals[i]] else []
  {
    assert vals[..i + 1][..i] == vals[..i];
  }

  /** No validator is lost or doubled as inline ones are separated from the others. */
  lemma {:induction false} KindsPartition(vals: seq<TopicVal>)
    ensures multiset(OfKind(vals, true)) + multiset(OfKind(vals, false)) == multiset(vals)
  {
    hide OfKind;
    if vals == [] {
      KindsOfNone();
    } else {
      var init, last := vals[..|vals| - 1], vals[|vals| - 1];
      KindsPartition(init);
      KindsSnoc(vals, |init|);
      assert vals[..|init| + 1] == vals == init + [last];
      OneMoreOfEither(OfKind(init, true), OfKind(init, false), init, last);
    }
  }

  lemma {:induction false} OneMoreOfEither(xs: seq<TopicVal>, ys: seq<TopicVal>, all: seq<TopicVal>, v: TopicVal)
    requires multiset(xs) + multiset(ys) == multiset(all)
    ensures multiset(xs + [v]) + multiset(ys) == multiset(all + [v])
    ensures multiset(xs) + multiset(ys + [v]) == multiset(all + [v])
  {
    assert multiset(all + [v]) == multiset(all) + multiset{v};
  }

  lemma {:induction false} KindsApart(vals: seq<TopicVal>, inline: bool)
    ensures forall v | v in OfKind(vals, inline) :: v.inline == inline
  {
    if vals != [] {
      KindsApart(vals[..|vals| - 1], inline);
    }
  }

  lemma {:induction false} KindsOfOne(v: TopicVal, inline: bool)
    ensures OfKind([v], inline) == if v.inline == inline then [v] else []
  {
  }

  /** The order is kept: what comes of two lists, one after the other, comes one after the other. */
  lemma {:induction false} KindsConcat(xs: seq<TopicVal>, ys: seq<TopicVal>, inline: bool)
    ensures OfKind(xs + ys, inline) == OfKind(xs, inline) + OfKind(ys, inline)
    ensures |ys| == 1 ==> OfKind(ys, inline) == if ys[0].inline == inline then ys else []
  {
    hide OfKind;
    KindsOfNone();
    if ys == [] {
      assert xs + ys == xs;
    } else {
      var n, all := |ys| - 1, xs + ys;
      KindsConcat(xs, ys[..n], inline);
      KindsSnoc(ys, n);
      KindsSnoc(all, |xs| + n);
      assert all[..|xs| + n] == xs + ys[..n] && all[..|xs| + n + 1] == all && ys[..n + 1] == ys;
      KindsOfOne(ys[0], inline);
      assert |ys| == 1 ==> ys == [ys[0]];
    }
  }

  class Validation {
    var topicVals: Registry
    var validateQ: seq<Job>

    constructor ()
      ensures topicVals == map[] && validateQ == []
    {
      topicVals, validateQ := map[], [];
    }

    method AddValidator(val: TopicVal) returns (ok: bool)
      modifies this`topicVals
      ensures ok <==> val.topic !in old(topicVals)
      ensures topicVals == if ok then old(topicVals)[val.topic := val] else old(topicVals)
    {
      if val.topic in topicVals {
        return false;
      }
      topicVals := topicVals[val.topic := val];
      ok := true;
    }

    method RemoveValidator(topic: Topic) returns (ok: bool)
      modifies this`topicVals
      ensures ok <==> topic in old(topicVals)
      ensures topicVals == old(topicVals) - {topic}
    {
      ok := topic in topicVals;
      if ok {
        topicVals := topicVals - {topic};
      } else {
        assert topicVals - {topic} == topicVals;
      }
    }

    method GetValidators(msg: Message) returns (vals: seq<TopicVal>)
      ensures vals == ValidatorsFor(topicVals, msg.topics) && ListsValidators(topicVals, msg.topics, vals)
    {
      vals := [];
      for i := 0 to |msg.topics|
        invariant vals == ValidatorsFor(topicVals, msg.topics[..i])
      {
        assert msg.topics[..i + 1][..i] == msg.topics[..i];
        if msg.topics[i] in topicVals {
          vals := vals + [topicVals[msg.topics[i]]];
        }
      }
      assert msg.topics[..|msg.topics|] == msg.topics;
      ValidatorsListed(topicVals, msg.topics);
    }

    /** Whether the message may be forwarded at once, without validation; otherwise it is queued, or
      * dropped if the queue is full. */
    method Push(src: PeerId, msg: Message) returns (forward: bool)
      modifies this`validateQ
      ensures forward <==> ValidatorsFor(topicVals, msg.topics) == [] && msg.signature == None
      ensures forward <==> (forall t | t in msg.topics :: t !in topicVals) && msg.signature == None
      ensures validateQ == if forward || |old(validateQ)| >= VALIDATE_QUEUE then old(validateQ)
                           else old(validateQ) + [Job(src, msg, ValidatorsFor(topicVals, msg.topics))]
    {
      var vals := GetValidators(msg);
      if |vals| > 0 {
        assert vals[0] in vals;
      }
      if |vals| > 0 || msg.signature.Some? {
        if |validateQ| < VALIDATE_QUEUE {
          validateQ := validateQ + [Job(src, msg, vals)];
        }
        return false;
      }
      forward := true;
    }

    /** The loop of validate that separates the validators. */
    static method Split(vals: seq<TopicVal>) returns (inline: seq<TopicVal>, async: seq<TopicVal>)
      ensures inline == OfKind(vals, true) && async == OfKind(vals, false)
      ensures multiset(inline) + multiset(async) == multiset(vals)
      ensures (forall v | v in inline :: v.inline) && (forall v | v in async :: !v.inline)
    {
      hide OfKind;
      KindsPartition(vals);
      KindsApart(vals, true);
      KindsApart(vals, false);
      KindsOfNone();
      inline, async := [], [];
      for i := 0 to |vals|
        invariant inline == OfKind(vals[..i], true) && async == OfKind(vals[..i], false)
      {
        KindsSnoc(vals, i);
        if vals[i].inline {
          inline := inline + [vals[i]];
        } else {
          async := async + [vals[i]];
        }
      }
      assert vals[..|vals|] == vals;
    }
  }
}
