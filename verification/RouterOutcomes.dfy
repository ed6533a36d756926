/** What the router's operations come to for a single peer, topic or message: who is sent what, who is in which
  * mesh, and what is asked for and answered, in terms of the router's tables alone.
  */
module RouterOutcomes {

  import opened Capacity
  import opened MessageCache
  import opened Options
  import opened Router
  import opened RouterSafety
  import Sizes

  /** Known to be in the topic, and speaking gossipsub. */
  predicate IsGossipPeer(s: State, t: Topic, p: PeerId) {
    t in s.topics && p in s.topics[t] && p in s.protocols && s.protocols[p] == GossipSubID
  }

  predicate IsFloodPeer(s: State, t: Topic, p: PeerId) {
    t in s.topics && p in s.topics[t] && p in s.protocols && s.protocols[p] == FloodSubID
  }

  /** As many gossipsub peers of the topic as there may be, or all that there are. */
  ghost predicate Drawn(s: State, t: Topic, chosen: set<PeerId>, most: nat) {
    && |chosen| <= most && (forall p | p in chosen :: IsGossipPeer(s, t, p))
    && (|chosen| < most ==> forall p | IsGossipPeer(s, t, p) :: p in chosen)
  }

  /** The queue of a connected peer grows by one RPC. */
  ghost predicate Gains(s: State, s': State, p: PeerId, r: Rpc) {
    p in s.peers && p in s'.peers && s'.peers[p] == s.peers[p] + [r]
  }

  ghost predicate SameQueue(s: State, s': State, p: PeerId) {
    (p in s'.peers <==> p in s.peers) && (p in s.peers ==> s'.peers[p] == s.peers[p])
  }

  ghost predicate HasRoom(s: State, p: PeerId) {
    p in s.peers && |s.peers[p]| < 32
  }

  predicate Says(graft: seq<Topic>, prune: seq<Topic>, t: Topic, inside: bool) {
    t in if inside then graft else prune
  }

  /** A connected peer is sent a GRAFT (`inside`) or PRUNE now, or, its queue being full, it is left for a retry. */
  ghost predicate IsTold(s: State, s': State, p: PeerId, t: Topic, inside: bool) {
    if HasRoom(s, p) then
      exists r :: Gains(s, s', p, r) && r.control.Some? && Says(r.control.value.graft, r.control.value.prune, t, inside)
    else SameQueue(s, s', p) && p in s'.control && Says(s'.control[p].graft, s'.control[p].prune, t, inside)
  }

  // ----- sending -----

  lemma {:induction false} SentToNone(s: State, s': State, out: map<PeerId, Rpc>, p: PeerId)
    requires SentEach(s, s', out) && p !in out
    ensures SameQueue(s, s', p) && Lookup(s'.control, p) == Lookup(s.control, p)
            && Lookup(s'.gossip, p) == Lookup(s.gossip, p)
  {
    hide Send;
    assert CellOf(s', p) == CellOf(s, p);
  }

  /** What one peer gets. */
  lemma {:induction false} SentToOne(s: State, s': State, out: map<PeerId, Rpc>, p: PeerId) returns (r: Rpc)
    requires SentEach(s, s', out) && p in out && p in s.peers
    ensures p in s'.peers && p !in s'.gossip
    ensures if HasRoom(s, p) then Gains(s, s', p, r) else SameQueue(s, s', p)
    ensures r.publish == out[p].publish && r.subscriptions == out[p].subscriptions
    ensures ControlOf(r).iwant == ControlOf(out[p]).iwant && (out[p].control.Some? ==> r.control.Some?)
    ensures ControlOf(out[p]).graft <= ControlOf(r).graft && ControlOf(out[p]).prune <= ControlOf(r).prune
    ensures p in s.gossip ==> ControlOf(r).ihave == s.gossip[p]
    ensures p !in s.gossip ==> ControlOf(r).ihave == ControlOf(out[p]).ihave
    ensures !HasRoom(s, p) && (ControlOf(r).graft != [] || ControlOf(r).prune != []) ==>
              p in s'.control && s'.control[p] == Pending(ControlOf(r).graft, ControlOf(r).prune)
  {
    var c := CellOf(s, p);
    assert CellOf(s', p) == Send(s.mesh, p, c, out[p]);
    r := Loaded(s.mesh, p, c, out[p]);
    LoadedSays(s.mesh, p, c, out[p]);
  }

  lemma {:induction false} LoadedSays(mesh: PeerSets, p: PeerId, c: Cell, out: Rpc)
    ensures var r := Loaded(mesh, p, c, out);
            && r.publish == out.publish && r.subscriptions == out.subscriptions
            && ControlOf(r).iwant == ControlOf(out).iwant && (out.control.Some? ==> r.control.Some?)
            && ControlOf(out).graft <= ControlOf(r).graft && ControlOf(out).prune <= ControlOf(r).prune
            && ControlOf(r).ihave == if c.gossip.Some? then c.gossip.value else ControlOf(out).ihave
  {
  }

  /** A list of topics sent to a peer as GRAFTs or as PRUNEs. */
  lemma {:induction false} SentTells(
      s: State, s': State, out: map<PeerId, Rpc>, p: PeerId, t: Topic, inside: bool)
    requires SentEach(s, s', out) && p in out && p in s.peers
    requires Says(ControlOf(out[p]).graft, ControlOf(out[p]).prune, t, inside)
    ensures IsTold(s, s', p, t, inside)
  {
    hide SentEach;
    var r := SentToOne(s, s', out, p);
  }

  // ----- Publish -----

  /** For some topic of the message a floodsub peer, or in the mesh, or, where there is no mesh, in the fanout. */
  ghost predicate IsInterested(s: State, fanout: PeerSets, m: Msg, p: PeerId) {
    exists t :: t in m.topics && t in s.topics && (
      || IsFloodPeer(s, t, p)
      || (t in s.mesh && p in s.mesh[t])
      || (t !in s.mesh && t in fanout && p in fanout[t]))
  }

  /** Neither sender nor author. */
  ghost predicate IsReceiver(s: State, s': State, from: PeerId, m: Msg, p: PeerId) {
    p != from && p != m.author && IsInterested(s, s'.fanout, m, p)
  }

  lemma {:induction false} TargetsMean(s: State, fanout: PeerSets, m: Msg, p: PeerId)
    ensures p in Targets(s, fanout, m.topics) <==> IsInterested(s, fanout, m, p)
  {
    if IsInterested(s, fanout, m, p) {
      var t :| t in m.topics && t in s.topics && (
        || IsFloodPeer(s, t, p)
        || (t in s.mesh && p in s.mesh[t])
        || (t !in s.mesh && t in fanout && p in fanout[t]));
      assert p in TopicTargets(s, fanout, t);
    }
  }

  /** Every receiver with room gets one RPC, with the message and no other, and no one else gets any. */
  lemma {:induction false} PublishReaches(
      o: Overlay, s: State, s': State, from: PeerId, m: Msg, now: int, p: PeerId)
    requires Published(o, s, s', from, m, now)
    ensures if IsReceiver(s, s', from, m, p) && HasRoom(s, p)
            then exists r :: Gains(s, s', p, r) && r.publish == [m] && r.subscriptions == []
            else SameQueue(s, s', p)
  {
    hide SentEach, FanoutChosen, PutEntry, HasRoom, Targets, IsInterested;
    var fanout, lastpub :| FanoutChosen(o, s, FanoutTopics(s, m.topics), now, fanout, lastpub)
      && SentEach(
           s.(mcache := PutEntry(s.mcache, m), published := s.published + {m.id}, fanout := fanout, lastpub := lastpub),
           s', ToAll(Targets(s, fanout, m.topics) - {from, m.author}, MessageRpc(m)));
    var s1 := s.(mcache := PutEntry(s.mcache, m), published := s.published + {m.id}, fanout := fanout,
                 lastpub := lastpub);
    var out := ToAll(Targets(s, fanout, m.topics) - {from, m.author}, MessageRpc(m));
    SentOnlySends(s1, s', out);
    TargetsMean(s, fanout, m, p);
    RoomSame(s, s1, p);
    if p in out && p in s.peers {
      var r := SentToOne(s1, s', out, p);
    } else if p in out {
      SentToStranger(s1, s', out, p);
    } else {
      SentToNone(s1, s', out, p);
    }
  }

  lemma {:induction false} RoomSame(s: State, s1: State, p: PeerId)
    requires s1.peers == s.peers
    ensures HasRoom(s1, p) <==> HasRoom(s, p)
    ensures HasRoom(s, p) ==> p in s.peers
  {
  }

  lemma {:induction false} SentToStranger(s: State, s': State, out: map<PeerId, Rpc>, p: PeerId)
    requires SentEach(s, s', out) && p in out && p !in s.peers
    ensures p !in s'.peers
  {
    assert CellOf(s', p) == Send(s.mesh, p, CellOf(s, p), out[p]);
  }

  /** A topic we are not in keeps a fanout that has peers, and otherwise gets one, as far as there are peers; and
    * it counts as published to. No other fanout changes, nor any mesh; and the message is cached. */
  lemma {:induction false} PublishFanout(o: Overlay, s: State, s': State, from: PeerId, m: Msg, now: int, t: Topic)
    requires Published(o, s, s', from, m, now)
    ensures s'.mesh == s.mesh && m.id in s'.mcache.msgs && s'.mcache.msgs[m.id] == m
    ensures if t in m.topics && t in s.topics && t !in s.mesh then
              && t in s'.lastpub && s'.lastpub[t] == now
              && (if t in s.fanout && s.fanout[t] != {} then t in s'.fanout && s'.fanout[t] == s.fanout[t]
                  else if t in s'.fanout && s'.fanout[t] != {} then Drawn(s, t, s'.fanout[t], o.d)
                  else forall p :: !IsGossipPeer(s, t, p))
            else
              && (t in s'.lastpub <==> t in s.lastpub) && (t in s.lastpub ==> s'.lastpub[t] == s.lastpub[t])
              && (t in s'.fanout <==> t in s.fanout) && (t in s.fanout ==> s'.fanout[t] == s.fanout[t])
  {
    hide SentEach, Targets, Eligible, Picked;
    var fanout, lastpub :| FanoutChosen(o, s, FanoutTopics(s, m.topics), now, fanout, lastpub)
      && SentEach(
           s.(mcache := PutEntry(s.mcache, m), published := s.published + {m.id}, fanout := fanout, lastpub := lastpub),
           s', ToAll(Targets(s, fanout, m.topics) - {from, m.author}, MessageRpc(m)));
    SentOnlySends(
      s.(mcache := PutEntry(s.mcache, m), published := s.published + {m.id}, fanout := fanout, lastpub := lastpub),
      s', ToAll(Targets(s, fanout, m.topics) - {from, m.author}, MessageRpc(m)));
    EligibleMeans(s, t);
    if t in FanoutTopics(s, m.topics) && !HasFanout(s, t) && Eligible(s, t) != {} {
      PickedIsDrawn(s, t, fanout[t], o.d);
    }
  }

  lemma {:induction false} EligibleMeans(s: State, t: Topic)
    ensures forall p :: p in Eligible(s, t) <==> IsGossipPeer(s, t, p)
  {
  }

  lemma {:induction false} PickedIsDrawn(s: State, t: Topic, chosen: set<PeerId>, most: nat)
    requires Picked(chosen, Eligible(s, t), most) && most > 0
    ensures Drawn(s, t, chosen, most)
  {
    EligibleMeans(s, t);
    if |chosen| < most {
      Sizes.AllOfThem(chosen, Eligible(s, t));
    }
  }

  // ----- Join and Leave -----

  /** The new mesh is the fanout there was, or as many gossipsub peers as D, or all; each is told by a GRAFT, and
    * no one else is told anything. */
  lemma {:induction false} JoinGrafts(o: Overlay, s: State, s': State, t: Topic, p: PeerId)
    requires Joined(o, s, s', t)
    ensures t in s.mesh ==> s' == s
    ensures t !in s.mesh ==>
              && s'.mesh.Keys == s.mesh.Keys + {t} && (forall u | u in s.mesh :: s'.mesh[u] == s.mesh[u])
              && (if t in s.fanout then s'.mesh[t] == s.fanout[t] else Drawn(s, t, s'.mesh[t], o.d))
              && s'.fanout == s.fanout - {t} && (t in s.fanout ==> t !in s'.lastpub)
              && (p in s'.mesh[t] && p in s.peers ==> IsTold(s, s', p, t, true))
              && (p !in s'.mesh[t] ==> SameQueue(s, s', p) && Lookup(s'.control, p) == Lookup(s.control, p))
  {
    hide JoinedWith, Picked, Eligible, IsTold, SameQueue, Drawn;
    if t !in s.mesh {
      var peers :| (if t in s.fanout then peers == s.fanout[t] else Picked(peers, Eligible(s, t), o.d))
                   && JoinedWith(s, s', t, peers);
      StartedMesh(s, s', t, peers);
      if t !in s.fanout {
        PickedIsDrawn(s, t, peers, o.d);
      }
      StartedTells(s, s', t, peers, p);
    }
  }

  lemma {:induction false} StartedMesh(s: State, s': State, t: Topic, peers: set<PeerId>)
    requires t !in s.mesh && JoinedWith(s, s', t, peers)
    ensures s'.mesh.Keys == s.mesh.Keys + {t} && s'.mesh[t] == peers
    ensures forall u | u in s.mesh :: s'.mesh[u] == s.mesh[u]
    ensures s'.fanout == s.fanout - {t} && (t in s.fanout ==> t !in s'.lastpub)
  {
    hide SentEach;
    SentOnlySends(MeshStarted(s, t, peers), s', ToAll(peers, ControlRpc([], [t], [])));
  }

  lemma {:induction false} StartedTells(s: State, s': State, t: Topic, peers: set<PeerId>, p: PeerId)
    requires JoinedWith(s, s', t, peers)
    ensures p in peers && p in s.peers ==> IsTold(s, s', p, t, true)
    ensures p !in peers ==> SameQueue(s, s', p) && Lookup(s'.control, p) == Lookup(s.control, p)
  {
    hide SentEach, IsTold;
    var s1, out := MeshStarted(s, t, peers), ToAll(peers, ControlRpc([], [t], []));
    if p !in out {
      SentToNone(s1, s', out, p);
    } else if p in s.peers {
      SentTells(s1, s', out, p, t, true);
      ToldSame(s, s1, s', p, t, true);
    }
  }

  lemma {:induction false} ToldSame(s: State, s1: State, s': State, p: PeerId, t: Topic, inside: bool)
    requires s1.peers == s.peers && IsTold(s1, s', p, t, inside)
    ensures IsTold(s, s', p, t, inside)
  {
    if HasRoom(s, p) {
      var r :| Gains(s1, s', p, r) && r.control.Some?
               && Says(r.control.value.graft, r.control.value.prune, t, inside);
      assert Gains(s, s', p, r);
    }
  }

  /** The mesh is gone; each of its peers is told by a PRUNE, and no one else is told anything. */
  lemma {:induction false} LeavePrunes(s: State, s': State, t: Topic, p: PeerId)
    requires Left(s, s', t)
    ensures t !in s'.mesh && forall u | u != t :: (u in s'.mesh <==> u in s.mesh)
                                            && (u in s.mesh ==> s'.mesh[u] == s.mesh[u])
    ensures t in s.mesh && p in s.mesh[t] && p in s.peers ==> IsTold(s, s', p, t, false)
    ensures !(t in s.mesh && p in s.mesh[t]) ==> SameQueue(s, s', p) && Lookup(s'.control, p) == Lookup(s.control, p)
  {
    hide SentEach;
    if t in s.mesh {
      var s1, out := s.(mesh := s.mesh - {t}), ToAll(s.mesh[t], ControlRpc([], [], [t]));
      SentOnlySends(s1, s', out);
      if p !in out {
        SentToNone(s1, s', out, p);
      } else if p in s.peers {
        SentTells(s1, s', out, p, t, false);
        ToldSame(s, s1, s', p, t, false);
      }
    }
  }

  // ----- subscriptions -----

  /** The first subscription to a topic is announced, as one; the last one's end as an end. Either comes first of
    * what is sent. */
  lemma {:induction false} SubscribeAnnounces(
      o: Overlay, s: State, s': State, t: Topic, sub: int, announced: State, joined: State, p: PeerId)
    requires SubscriptionAdded(o, s, s', t, sub, announced, joined)
    ensures t in s'.myTopics && sub in s'.myTopics[t]
    ensures if t in s.myTopics && s.myTopics[t] != {} then s'.peers == s.peers
            else HasRoom(s, p) ==>
                   p in s'.peers && s.peers[p] + [Rpc([(t, true)], [], None)] <= s'.peers[p]
  {
    hide Picked, Eligible;
    if !HasSubs(s, t) {
      JoinGrafts(o, announced, joined, t, p);
      if t !in announced.mesh && HasRoom(s, p) {
        KeepsFront(announced, joined, p, t, true);
      }
    }
  }

  lemma {:induction false} KeepsFront(s: State, s': State, p: PeerId, t: Topic, inside: bool)
    requires p in s.peers && (SameQueue(s, s', p) || IsTold(s, s', p, t, inside))
    ensures p in s'.peers && s.peers[p] <= s'.peers[p]
  {
  }

  /** The last subscription of a topic goes. */
  lemma {:induction false} LastRemoved(s: State, s': State, t: Topic, sub: int, announced: State)
    requires SubscriptionRemoved(s, s', t, sub, announced) && t in s.myTopics && s.myTopics[t] - {sub} == {}
    ensures Left(announced, s', t) && announced.mcache == s.mcache && t !in announced.myTopics
    ensures forall p | HasRoom(s, p) ::
              p in announced.peers && announced.peers[p] == s.peers[p] + [Rpc([(t, false)], [], None)]
  {
    hide Left;
  }

  lemma {:induction false} OtherRemoved(s: State, s': State, t: Topic, sub: int, announced: State)
    requires SubscriptionRemoved(s, s', t, sub, announced) && !(t in s.myTopics && s.myTopics[t] - {sub} == {})
    ensures s'.peers == s.peers && s'.mcache == s.mcache && (t in s'.myTopics ==> sub !in s'.myTopics[t])
  {
    hide Left, Announces;
  }

  lemma {:induction false} UnsubscribeAnnounces(
      s: State, s': State, t: Topic, sub: int, announced: State, p: PeerId)
    requires SubscriptionRemoved(s, s', t, sub, announced)
    ensures t in s'.myTopics ==> sub !in s'.myTopics[t]
    ensures if t in s.myTopics && s.myTopics[t] - {sub} == {}
            then t !in s'.myTopics
                 && (HasRoom(s, p) ==> p in s'.peers && s.peers[p] + [Rpc([(t, false)], [], None)] <= s'.peers[p])
            else s'.peers == s.peers
  {
    hide SubscriptionRemoved, Left, HasRoom, IsTold, SameQueue;
    if t in s.myTopics && s.myTopics[t] - {sub} == {} {
      LastRemoved(s, s', t, sub, announced);
      LeftKeepsRest(announced, s', t);
      if HasRoom(s, p) {
        LeavePrunes(announced, s', t, p);
        KeepsFront(announced, s', p, t, false);
      }
    } else {
      OtherRemoved(s, s', t, sub, announced);
    }
  }

  lemma {:induction false} LeftKeepsRest(s: State, s': State, t: Topic)
    requires Left(s, s', t)
    ensures s'.myTopics == s.myTopics && s'.mcache == s.mcache
  {
    hide Send;
  }

  // ----- a peer that is gone -----

  /** It is in no mesh or fanout, nothing is pending for it, and for the others nothing changes. */
  lemma {:induction false} RemovedIsGone(s: State, s': State, p: PeerId, q: PeerId, t: Topic)
    requires PeerRemoved(s, s', p)
    ensures p !in s'.protocols && p !in s'.gossip && p !in s'.control
    ensures (t in s'.mesh <==> t in s.mesh) && (t in s.mesh ==> (q in s'.mesh[t] <==> q in s.mesh[t] && q != p))
    ensures t in s'.fanout <==> t in s.fanout
    ensures t in s.fanout ==> (q in s'.fanout[t] <==> q in s.fanout[t] && q != p)
    ensures q != p ==> Lookup(s'.protocols, q) == Lookup(s.protocols, q) && Lookup(s'.gossip, q) == Lookup(s.gossip, q)
                       && Lookup(s'.control, q) == Lookup(s.control, q)
    ensures s'.peers == s.peers && s'.lastpub == s.lastpub && s'.mcache == s.mcache
  {
  }
}
