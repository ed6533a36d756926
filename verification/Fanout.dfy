/** Publish's loop over the topics of a message, one topic at a time. */
module Fanout {

  import opened MessageCache
  import opened Options
  import opened Router

  /** What one round of the loop does to the fanout. */
  ghost predicate OneTopic(
      o: Overlay, s: State, topic: Topic, now: int,
      f0: PeerSets, lp0: map<Topic, int>, f1: PeerSets, lp1: map<Topic, int>)
  {
    if topic in s.mesh then f1 == f0 && lp1 == lp0
    else
      && lp1 == lp0[topic := now]
      && if (topic in f0 && f0[topic] != {}) || Eligible(s, topic) == {} then f1 == f0
         else topic in f1 && Picked(f1[topic], Eligible(s, topic), o.d) && f1 == f0[topic := f1[topic]]
  }

  lemma {:induction false} NoneEligible(s: State, topic: Topic, current: set<PeerId>, count: int)
    requires topic !in s.topics
    ensures Picked({}, Eligible(s, topic) - current, count)
  {
    assert Eligible(s, topic) - current == {};
  }

  lemma {:induction false} PickedSome(o: Overlay, chosen: set<PeerId>, candidates: set<PeerId>)
    requires Picked(chosen, candidates, o.d) && candidates != {}
    ensures chosen != {}
  {
    assert |candidates| > 0;
    assert |chosen| > 0;
  }

  /** A topic that was met before is left as it is. */
  lemma {:induction false} MetBefore(
      o: Overlay, s: State, topics: set<Topic>, topic: Topic, now: int,
      f0: PeerSets, lp0: map<Topic, int>, f1: PeerSets, lp1: map<Topic, int>)
    requires topic in topics && topic !in s.mesh
    requires FanoutChosen(o, s, topics, now, f0, lp0) && OneTopic(o, s, topic, now, f0, lp0, f1, lp1)
    ensures f1 == f0 && lp1 == lp0
  {
    hide Eligible;
    if Eligible(s, topic) != {} && !HasFanout(s, topic) {
      PickedSome(o, f0[topic], Eligible(s, topic));
    }
  }

  lemma {:induction false} MetFirst(
      o: Overlay, s: State, topics: set<Topic>, topic: Topic, now: int,
      f0: PeerSets, lp0: map<Topic, int>, f1: PeerSets, lp1: map<Topic, int>)
    requires topic !in topics && topic !in s.mesh
    requires FanoutChosen(o, s, topics, now, f0, lp0) && OneTopic(o, s, topic, now, f0, lp0, f1, lp1)
    ensures FanoutChosen(o, s, topics + {topic}, now, f1, lp1)
  {
    hide Eligible, Picked;
  }

  lemma {:induction false} OneMoreChosen(
      o: Overlay, s: State, ts: seq<Topic>, i: nat, now: int,
      f0: PeerSets, lp0: map<Topic, int>, f1: PeerSets, lp1: map<Topic, int>)
    requires i < |ts| && ts[i] in s.topics
    requires FanoutChosen(o, s, FanoutTopics(s, ts[..i]), now, f0, lp0) && OneTopic(o, s, ts[i], now, f0, lp0, f1, lp1)
    ensures FanoutChosen(o, s, FanoutTopics(s, ts[..i + 1]), now, f1, lp1)
    ensures ts[i] in ts[..i] ==> f1 == f0
    ensures forall t | t in s.topics && t in ts[..i] :: TopicTargets(s, f1, t) == TopicTargets(s, f0, t)
  {
    hide FanoutChosen, Eligible, Picked;
    var topics := FanoutTopics(s, ts[..i]);
    assert ts[..i + 1] == ts[..i] + [ts[i]];
    if ts[i] in s.mesh {
      assert FanoutTopics(s, ts[..i + 1]) == topics;
    } else {
      assert FanoutTopics(s, ts[..i + 1]) == topics + {ts[i]};
      if ts[i] in topics {
        MetBefore(o, s, topics, ts[i], now, f0, lp0, f1, lp1);
        assert topics + {ts[i]} == topics;
      } else {
        MetFirst(o, s, topics, ts[i], now, f0, lp0, f1, lp1);
      }
    }
  }

  lemma {:induction false} SkippedTopic(s: State, ts: seq<Topic>, i: nat, fanout: PeerSets)
    requires i < |ts| && ts[i] !in s.topics
    ensures FanoutTopics(s, ts[..i + 1]) == FanoutTopics(s, ts[..i])
    ensures Targets(s, fanout, ts[..i + 1]) == Targets(s, fanout, ts[..i])
  {
    assert ts[..i + 1] == ts[..i] + [ts[i]];
  }

  lemma {:induction false} OneMoreTarget(s: State, ts: seq<Topic>, i: nat, f0: PeerSets, f1: PeerSets)
    requires i < |ts| && ts[i] in s.topics
    requires forall t | t in s.topics && t in ts[..i] :: TopicTargets(s, f1, t) == TopicTargets(s, f0, t)
    ensures Targets(s, f1, ts[..i + 1]) == Targets(s, f0, ts[..i]) + TopicTargets(s, f1, ts[i])
  {
    hide TopicTargets;
    assert ts[..i + 1] == ts[..i] + [ts[i]];
    forall q
      ensures q in Targets(s, f1, ts[..i + 1]) <==> q in Targets(s, f0, ts[..i]) || q in TopicTargets(s, f1, ts[i])
    {
      if q in Targets(s, f1, ts[..i + 1]) {
        var t :| t in ts[..i + 1] && t in s.topics && q in TopicTargets(s, f1, t);
      }
      if q in Targets(s, f0, ts[..i]) {
        var t :| t in ts[..i] && t in s.topics && q in TopicTargets(s, f0, t);
        assert t in ts[..i + 1];
      }
    }
  }

  lemma {:induction false} NothingChosen(o: Overlay, s: State, ts: seq<Topic>, now: int)
    ensures FanoutChosen(o, s, FanoutTopics(s, ts[..0]), now, s.fanout, s.lastpub)
    ensures Targets(s, s.fanout, ts[..0]) == {}
  {
    assert FanoutTopics(s, ts[..0]) == {};
  }

  lemma {:induction false} OneMoreRound(
      o: Overlay, s: State, ts: seq<Topic>, i: nat, now: int,
      f0: PeerSets, lp0: map<Topic, int>, f1: PeerSets, lp1: map<Topic, int>)
    requires i < |ts| && ts[i] in s.topics
    requires FanoutChosen(o, s, FanoutTopics(s, ts[..i]), now, f0, lp0)
    requires OneTopic(o, s.(fanout := f0, lastpub := lp0), ts[i], now, f0, lp0, f1, lp1)
    ensures FanoutChosen(o, s, FanoutTopics(s, ts[..i + 1]), now, f1, lp1)
    ensures Targets(s, f1, ts[..i + 1]) == Targets(s, f0, ts[..i]) + TopicTargets(s, f1, ts[i])
  {
    hide FanoutChosen, FanoutTopics, Targets, TopicTargets, Picked;
    assert Eligible(s.(fanout := f0, lastpub := lp0), ts[i]) == Eligible(s, ts[i]);
    OneMoreChosen(o, s, ts, i, now, f0, lp0, f1, lp1);
    OneMoreTarget(s, ts, i, f0, f1);
  }

  lemma {:induction false} SameEligible(s: State, s': State)
    requires s' == s.(mcache := s'.mcache, published := s'.published)
    ensures forall t :: Eligible(s', t) == Eligible(s, t)
  {
  }

  lemma {:induction false} SameTargets(s: State, s': State, fanout: PeerSets, ts: seq<Topic>)
    requires s' == s.(mcache := s'.mcache, published := s'.published)
    ensures Targets(s', fanout, ts) == Targets(s, fanout, ts) && FanoutTopics(s', ts) == FanoutTopics(s, ts)
  {
    assert forall t | t in s.topics :: TopicTargets(s', fanout, t) == TopicTargets(s, fanout, t);
  }

  lemma {:induction false} SameTopicTargets(s: State, s': State, fanout: PeerSets, t: Topic)
    requires s' == s.(fanout := s'.fanout, lastpub := s'.lastpub) && t in s.topics
    ensures TopicTargets(s', fanout, t) == TopicTargets(s, fanout, t)
  {
  }

  /** Only the peers, the topics, the mesh and the fanout matter to the choice. */
  lemma {:induction false} SameChoice(
      o: Overlay, s: State, s': State, topics: set<Topic>, now: int, fanout: PeerSets, lastpub: map<Topic, int>)
    requires FanoutChosen(o, s, topics, now, fanout, lastpub)
    requires s' == s.(mcache := s'.mcache, published := s'.published)
    ensures FanoutChosen(o, s', topics, now, fanout, lastpub)
  {
    hide Picked, Eligible;
    SameEligible(s, s');
    assert (set t | t in topics && Eligible(s', t) != {}) == (set t | t in topics && Eligible(s, t) != {});
    assert forall t :: HasFanout(s', t) == HasFanout(s, t);
  }
}
