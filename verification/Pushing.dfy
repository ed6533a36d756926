/** pushMsg (pubsub.go): the decision on a message that comes in or is published here. */
module Pushing {

  import opened Capacity
  import opened MessageCache
  import opened Options
  import opened Validation
  import opened Pipeline

  /** The part of PubSub that decides on an incoming message. */
  class PubSub {
    const signStrict: bool
    const val: Validation
    var blacklist: set<PeerId>
    var seenMessages: set<Mid>

    constructor (signStrict: bool)
      ensures this.signStrict == signStrict && fresh(val) && blacklist == {} && seenMessages == {}
      ensures val.topicVals == map[] && val.validateQ == []
    {
      this.signStrict, blacklist, seenMessages := signStrict, {}, {};
      val := new Validation();
    }

    /** Not from or by a blacklisted peer, signed if need be, and not seen. */
    predicate Admits(src: PeerId, msg: Message)
      reads this
    {
      && src !in blacklist && msg.from !in blacklist && (signStrict ==> msg.signature.Some?)
      && MsgId(msg) !in seenMessages
    }

    method MarkSeen(id: Mid) returns (marked: bool)
      modifies this`seenMessages
      ensures marked <==> id !in old(seenMessages)
      ensures seenMessages == old(seenMessages) + {id}
    {
      if id in seenMessages {
        assert seenMessages + {id} == seenMessages;
        return false;
      }
      seenMessages := seenMessages + {id};
      marked := true;
    }

    /** The state of the pipeline agrees with the fields. */
    ghost predicate Mirrors(s: State)
      reads this, val
    {
      s.loop == Idle && s.seen == seenMessages && s.blacklist == blacklist && s.registry == val.topicVals
    }

    /** Returns whether the message is to be published now; otherwise it was queued for validation, or
      * dropped. From any state of the pipeline that agrees with the fields, these are steps of the pipeline;
      * `id` names the work if there is one. */
    method PushMsg(src: PeerId, msg: Message, ghost c: Config, ghost s: State, ghost id: WorkId)
      returns (publish: bool, ghost s': State)
      requires c.strict == signStrict && Mirrors(s) && id !in s.works
      modifies this`seenMessages, val`validateQ
      ensures var vals := ValidatorsFor(val.topicVals, msg.topics);
              var queued := old(Admits(src, msg)) && !publish && |old(val.validateQ)| < VALIDATE_QUEUE;
              && (publish <==> old(Admits(src, msg)) && vals == [] && msg.signature == None)
              && val.validateQ == (if queued then old(val.validateQ) + [Job(src, msg, vals)] else old(val.validateQ))
              && s'.works == (if queued then s.works[id := NewWork(Job(src, msg, vals))] else s.works)
      ensures seenMessages == old(seenMessages) + if publish then {MsgId(msg)} else {}
      ensures s'.published == s.published + if publish then [Publication(Job(src, msg, []), map[])] else []
      ensures Mirrors(s') && Pushes(c, s, src, msg, s')
    {
      hide ValidatorsFor, Next, Pushes;
      s' := s;
      NothingAdded(s);
      assert seenMessages + {} == seenMessages;
      if src in blacklist {
        TurnedAway(c, s, src, msg);
        return false, s;
      }
      if msg.from in blacklist {
        TurnedAway(c, s, src, msg);
        return false, s;
      }
      if signStrict && msg.signature == None {
        TurnedAway(c, s, src, msg);
        return false, s;
      }
      var id' := MsgId(msg);
      if id' in seenMessages {
        TurnedAway(c, s, src, msg);
        return false, s;
      }
      ghost var room := |val.validateQ| < VALIDATE_QUEUE;
      var forward := val.Push(src, msg);
      if !forward {
        s' := ToBeValidated(c, s, src, msg, id, room);
        return false, s';
      }
      s' := Forwarded(c, s, src, msg);
      publish := MarkSeen(id');
    }
  }

  /** pushMsg, in steps of the pipeline. */
  ghost predicate Pushes(c: Config, s: State, src: PeerId, msg: Message, s': State) {
    exists s1 :: Next(c, s, Arrived(src, msg), s1) && (s1 == s' || PushesOn(c, s1, s'))
  }

  ghost predicate PushesOn(c: Config, s: State, s': State) {
    || Next(c, s, PushRefused, s')
    || (exists id :: Next(c, s, PushedOn(id), s'))
    || (exists s1 :: Next(c, s, PushedThrough, s1) && Next(c, s1, LoopMarked, s'))
  }

  lemma {:induction false} NothingAdded(s: State)
    ensures s.published + [] == s.published
  {
  }

  lemma {:induction false} TurnedAway(c: Config, s: State, src: PeerId, msg: Message)
    requires s.loop == Idle
    requires src in s.blacklist || msg.from in s.blacklist || (c.strict && msg.signature == None)
             || MsgId(msg) in s.seen
    ensures Pushes(c, s, src, msg, s)
  {
    assert Next(c, s, Arrived(src, msg), s);
  }

  lemma {:induction false} ToBeValidated(c: Config, s: State, src: PeerId, msg: Message, id: WorkId, room: bool)
    returns (s': State)
    requires s.loop == Idle && id !in s.works
    requires src !in s.blacklist && msg.from !in s.blacklist && !(c.strict && msg.signature == None)
             && MsgId(msg) !in s.seen
    requires ValidatorsFor(s.registry, msg.topics) != [] || msg.signature.Some?
    ensures var job := Job(src, msg, ValidatorsFor(s.registry, msg.topics));
            s' == if room then s.(works := s.works[id := NewWork(job)]) else s
    ensures Pushes(c, s, src, msg, s')
  {
    hide ValidatorsFor;
    var s1 := s.(loop := Checked(src, msg));
    assert Next(c, s, Arrived(src, msg), s1);
    if room {
      s' := s.(works := s.works[id := NewWork(Job(src, msg, ValidatorsFor(s.registry, msg.topics)))]);
      assert Next(c, s1, PushedOn(id), s');
    } else {
      s' := s;
      assert Next(c, s1, PushRefused, s');
    }
  }

  lemma {:induction false} Forwarded(c: Config, s: State, src: PeerId, msg: Message) returns (s': State)
    requires s.loop == Idle
    requires src !in s.blacklist && msg.from !in s.blacklist && !(c.strict && msg.signature == None)
             && MsgId(msg) !in s.seen
    requires ValidatorsFor(s.registry, msg.topics) == [] && msg.signature == None
    ensures s' == s.(seen := s.seen + {MsgId(msg)}, published := s.published + [Publication(Job(src, msg, []), map[])])
    ensures Pushes(c, s, src, msg, s')
  {
    hide ValidatorsFor;
    var s1 := s.(loop := Checked(src, msg));
    var s2 := s.(loop := Unvalidated(Job(src, msg, [])));
    s' := s.(seen := s.seen + {MsgId(msg)}, published := s.published + [Publication(Job(src, msg, []), map[])]);
    assert Next(c, s, Arrived(src, msg), s1);
    assert Next(c, s1, PushedThrough, s2);
    assert Next(c, s2, LoopMarked, s');
    assert PushesOn(c, s1, s');
  }
}
