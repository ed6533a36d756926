/** Runs of the router: every interleaving of its operations, of the event loop around it, and of the
  * writers that drain the queues.
  */
module RouterRuns {

  import opened Capacity
  import opened MessageCache
  import opened Options
  import opened Router
  import opened RouterSafety
  import Sizes

  datatype Event =
    | PeerConnected(p: PeerId, hello: Rpc)           // newPeers
    | WriterRespawned(p: PeerId, hello: Rpc)         // peerDead, while still connected
    | StreamOpened(p: PeerId, protocol: Protocol)    // newPeerStream: AddPeer
    | StreamFailed(p: PeerId)                        // newPeerError
    | PeerGone(p: PeerId)                            // peerDead, blacklistPeer: RemovePeer
    | TopicLearned(t: Topic, p: PeerId)              // a subscription in an incoming RPC
    | TopicForgotten(t: Topic, p: PeerId)
    | MessageSeen(mid: Mid)                          // markSeen
    | Drained(p: PeerId)                             // the writer takes the oldest RPC
    | AnnounceRetried(p: PeerId, t: Topic, on: bool)
    | Subscribe(t: Topic, sub: int, announced: State, joined: State)
    | Unsubscribe(t: Topic, sub: int, announced: State)
    | Publish(from: PeerId, m: Msg, now: int)
    | Incoming(from: PeerId, control: Option<Control>)
    | Heartbeat(beat: Beat)

  ghost predicate Step(o: Overlay, s: State, e: Event, s': State) {
    match e
    case PeerConnected(p, hello) =>
      p !in s.peers && hello.control == None && s' == s.(peers := s.peers[p := [hello]])
    case WriterRespawned(p, hello) => p in s.peers && hello.control == None && s' == s.(peers := s.peers[p := [hello]])
    case AnnounceRetried(p, t, sub) =>
      && p in s.peers && |s.peers[p]| < PEER_QUEUE
      && s' == s.(peers := s.peers[p := s.peers[p] + [Rpc([(t, sub)], [], None)]])
    case StreamOpened(p, protocol) => p in s.peers && s' == s.(protocols := s.protocols[p := protocol])
    case StreamFailed(p) => s' == s.(peers := s.peers - {p})
    case PeerGone(p) => p in s.peers && PeerRemoved(s.(peers := s.peers - {p}, topics := Without(s.topics, p)), s', p)
    case TopicLearned(t, p) => s' == s.(topics := s.topics[t := Known(s, t) + {p}])
    case TopicForgotten(t, p) => t in s.topics && s' == s.(topics := s.topics[t := s.topics[t] - {p}])
    case MessageSeen(mid) => s' == s.(seen := s.seen + {mid})
    case Drained(p) => p in s.peers && s.peers[p] != [] && s' == s.(peers := s.peers[p := s.peers[p][1..]])
    case Subscribe(t, sub, announced, joined) => SubscriptionAdded(o, s, s', t, sub, announced, joined)
    case Unsubscribe(t, sub, announced) => SubscriptionRemoved(s, s', t, sub, announced)
    case Publish(from, m, now) => m.id !in s.published && Published(o, s, s', from, m, now)
    case Incoming(from, control) => Handled(s, s', from, control)
    case Heartbeat(beat) => HeartbeatWith(o, s, s', beat)
  }

  ghost predicate IsRun(o: Overlay, states: seq<State>, events: seq<Event>) {
    && |states| == |events| + 1
    && (exists gossip, history :: gossip < history && states[0] == Initial(gossip, history))
    && forall i | 0 <= i < |events| :: Step(o, states[i], events[i], states[i + 1])
  }

  predicate IsRouterEvent(e: Event) {
    e.Subscribe? || e.Unsubscribe? || e.Publish? || e.Incoming? || e.Heartbeat?
  }

  lemma {:induction false} StepKeepsInv(o: Overlay, s: State, e: Event, s': State)
    requires Inv(s) && Step(o, s, e, s')
    ensures Inv(s')
  {
    hide Inv, SubscriptionAdded, SubscriptionRemoved, Published, Handled, HeartbeatWith;
    if !IsRouterEvent(e) {
      LoopStepKeepsInv(o, s, e, s');
    } else {
      match e
      case Subscribe(t, sub, announced, joined) => SubscribeKeepsInv(o, s, s', t, sub, announced, joined);
      case Unsubscribe(t, sub, announced) => UnsubscribeKeepsInv(s, s', t, sub, announced);
      case Publish(from, m, now) => PublishKeepsInv(o, s, s', from, m, now);
      case Incoming(from, control) => HandleKeepsInv(s, s', from, control);
      case Heartbeat(beat) => HeartbeatKeepsInv(o, s, s', beat);
    }
  }

  /** The steps of the event loop that leave mesh, fanout and cache to themselves. */
  lemma {:induction false} LoopStepKeepsInv(o: Overlay, s: State, e: Event, s': State)
    requires Inv(s) && Step(o, s, e, s') && !IsRouterEvent(e)
    ensures Inv(s')
  {
    hide Inv, CellsOk, PeerRemoved;
    if e.PeerGone? {
      var s1 := s.(peers := s.peers - {e.p}, topics := Without(s.topics, e.p));
      FewerQueues(s, s1);
      RemoveKeepsInv(s1, s', e.p);
    } else {
      match e
      case StreamFailed(p) => FewerQueues(s, s');
      case PeerConnected(p, hello) => NewQueue(s, s', p, hello);
      case WriterRespawned(p, hello) => NewQueue(s, s', p, hello);
      case AnnounceRetried(p, t, on) => QueueExtended(s, s', p, Rpc([(t, on)], [], None));
      case Drained(p) => QueueDrained(s, s', p);
      case _ => FewerQueues(s, s');
    }
  }

  /** All but the queues, the topics and the seen ids. */
  ghost predicate SameRouter(s: State, s': State) {
    s' == s.(peers := s'.peers, topics := s'.topics, seen := s'.seen, protocols := s'.protocols)
  }

  lemma {:induction false} CellsSuffice(s: State, s': State)
    requires Inv(s) && SameRouter(s, s') && CellsOk(s')
    ensures Inv(s')
  {
    hide CellsOk, CacheOk, Recent;
  }

  lemma {:induction false} FewerQueues(s: State, s': State)
    requires Inv(s) && SameRouter(s, s') && forall p | p in s'.peers :: p in s.peers && s'.peers[p] == s.peers[p]
    ensures Inv(s')
  {
    hide SetsOk, GossipOk, CacheOk;
    forall p ensures CellOk(CellOf(s', p)) {
      assert CellOk(CellOf(s, p));
    }
    CellsSuffice(s, s');
  }

  lemma {:induction false} NewQueue(s: State, s': State, p: PeerId, hello: Rpc)
    requires Inv(s) && hello.control == None && s' == s.(peers := s.peers[p := [hello]])
    ensures Inv(s')
  {
    hide SetsOk, GossipOk, CacheOk;
    forall q ensures CellOk(CellOf(s', q)) {
      assert CellOk(CellOf(s, q));
    }
    CellsSuffice(s, s');
  }

  lemma {:induction false} QueueExtended(s: State, s': State, p: PeerId, rpc: Rpc)
    requires Inv(s) && rpc.control == None && p in s.peers && s' == s.(peers := s.peers[p := s.peers[p] + [rpc]])
    ensures Inv(s')
  {
    hide SetsOk, GossipOk, CacheOk;
    forall q ensures CellOk(CellOf(s', q)) {
      assert CellOk(CellOf(s, q));
    }
    CellsSuffice(s, s');
  }

  lemma {:induction false} QueueDrained(s: State, s': State, p: PeerId)
    requires Inv(s) && p in s.peers && s.peers[p] != [] && s' == s.(peers := s.peers[p := s.peers[p][1..]])
    ensures Inv(s')
  {
    hide SetsOk, GossipOk, CacheOk;
    forall q ensures CellOk(CellOf(s', q)) {
      assert CellOk(CellOf(s, q));
    }
    CellsSuffice(s, s');
  }

  lemma {:induction false} RunKeepsInv(o: Overlay, states: seq<State>, events: seq<Event>, i: nat)
    requires IsRun(o, states, events) && i < |states|
    ensures Inv(states[i])
  {
    hide Step, Inv;
    if i == 0 {
      var gossip, history :| gossip < history && states[0] == Initial(gossip, history);
      Initially(gossip, history);
    } else {
      RunKeepsInv(o, states, events, i - 1);
      StepKeepsInv(o, states[i - 1], events[i - 1], states[i]);
    }
  }

  // ----- what that says of every reachable state -----

  /** No pending control and no queued RPC ever holds a GRAFT and a PRUNE for the same topic. */
  lemma {:induction false} ControlNeverContradicts(
      o: Overlay, states: seq<State>, events: seq<Event>, i: nat, p: PeerId, t: Topic)
    requires IsRun(o, states, events) && i < |states|
    ensures var s := states[i];
            && (p in s.control ==> !(t in s.control[p].graft && t in s.control[p].prune))
            && (p in s.peers ==> forall r | r in s.peers[p] :: !(t in ControlOf(r).graft && t in ControlOf(r).prune))
  {
    RunKeepsInv(o, states, events, i);
    assert CellOk(CellOf(states[i], p));
  }

  /** Mesh topics are the subscribed ones, mesh and fanout are apart, every fanout topic has a publish time. */
  lemma {:induction false} LoopAndRouterAgree(o: Overlay, states: seq<State>, events: seq<Event>, i: nat)
    requires IsRun(o, states, events) && i < |states|
    ensures states[i].mesh.Keys == states[i].myTopics.Keys
    ensures forall t | t in states[i].myTopics :: states[i].myTopics[t] != {}
    ensures states[i].mesh.Keys !! states[i].fanout.Keys && states[i].fanout.Keys <= states[i].lastpub.Keys
  {
    RunKeepsInv(o, states, events, i);
    SetsApart(states[i]);
  }

  lemma {:induction false} SetsApart(s: State)
    requires SetsOk(s)
    ensures s.mesh.Keys !! s.fanout.Keys && s.fanout.Keys <= s.lastpub.Keys
  {
    forall t | t in s.fanout.Keys ensures t !in s.mesh.Keys && t in s.lastpub.Keys {}
  }

  /** Whatever gossip is pending for a peer, a request for it would be served. */
  lemma {:induction false} AdvertisedMessagesAreServable(
      o: Overlay, states: seq<State>, events: seq<Event>, i: nat, p: PeerId, k: nat, mid: Mid, ctl: Control)
    requires IsRun(o, states, events) && i < |states|
    requires p in states[i].gossip && k < |states[i].gossip[p]| && mid in states[i].gossip[p][k].mids
    requires exists ids :: ids in ctl.iwant && mid in ids
    ensures mid in Served(states[i].mcache, ctl)
  {
    RunKeepsInv(o, states, events, i);
    PendingGossipIsServable(states[i], p, k, mid, ctl);
  }

  // ----- the heartbeat restores the degree -----

  /** Picking as many as there are picks all. */
  lemma {:induction false} PickedAll(chosen: set<PeerId>, candidates: set<PeerId>, count: int)
    requires Picked(chosen, candidates, count) && (count <= 0 || |candidates| <= count)
    ensures chosen == candidates
  {
    Sizes.AllOfThem(chosen, candidates);
  }

  lemma {:induction false} RefillDegree(d: nat, before: set<PeerId>, after: set<PeerId>, eligible: set<PeerId>)
    requires |before| < d && before <= after && Picked(after - before, eligible - before, d - |before|)
    ensures |after| <= d && (|after| == d || eligible <= after)
  {
    Sizes.OfPart(before, after);
    if |eligible - before| <= d - |before| {
      PickedAll(after - before, eligible - before, d - |before|);
      assert eligible <= before + (eligible - before);
    }
  }

  /** After a heartbeat a mesh has at most Dhi peers, and either Dlo of them or all the eligible ones. */
  lemma {:induction false} HeartbeatRestoresMesh(o: Overlay, s: State, s': State, b: Beat, t: Topic)
    requires HeartbeatWith(o, s, s', b) && t in s.mesh
    ensures t in s'.mesh && |s'.mesh[t]| <= o.dhi
    ensures |s'.mesh[t]| >= o.dlo || Eligible(s, t) <= s'.mesh[t]
  {
    hide SentEach, GossipGrew, Moved, Picked;
    SentOnlySends(b.refilled, b.sent, GraftPruneRpcs(b.tograft, b.toprune));
    assert MeshStep(o, s.mesh[t], s'.mesh[t], Eligible(s, t));
    if |s.mesh[t]| < o.dlo {
      RefillDegree(o.d, s.mesh[t], s'.mesh[t], Eligible(s, t));
    }
  }

  lemma {:induction false} FanoutStepDegree(
      o: Overlay, before: set<PeerId>, after: set<PeerId>, known: set<PeerId>, eligible: set<PeerId>)
    requires FanoutStep(o, before, after, known, eligible) && eligible <= known
    ensures after <= known && (|after| >= o.d || eligible <= after)
    ensures |before| <= o.d ==> |after| <= o.d
  {
    var kept := before * known;
    Sizes.OfPart(kept, before);
    if |kept| < o.d {
      RefillDegree(o.d, kept, after, eligible);
      assert after == kept + (after - kept);
    }
  }

  /** A fanout that survives a heartbeat lies within the topic's peers, and has D of them unless it has
    * every eligible one; it does not exceed D if it did not before. */
  lemma {:induction false} HeartbeatRestoresFanout(o: Overlay, s: State, s': State, b: Beat, t: Topic)
    requires HeartbeatWith(o, s, s', b)
    ensures t in s'.fanout ==>
              && t in s.fanout && s'.fanout[t] <= Known(s, t)
              && (|s'.fanout[t]| >= o.d || Eligible(s, t) <= s'.fanout[t])
              && (|s.fanout[t]| <= o.d ==> |s'.fanout[t]| <= o.d)
  {
    hide SentEach, GossipGrew, Moved, MeshStep, FanoutStep;
    SentOnlySends(b.refilled, b.sent, GraftPruneRpcs(b.tograft, b.toprune));
    if t in s'.fanout {
      assert t in b.expired.fanout && t in b.maintained.fanout;
      assert FanoutStep(o, s.fanout[t], s'.fanout[t], Known(s, t), Eligible(s, t));
      FanoutStepDegree(o, s.fanout[t], s'.fanout[t], Known(s, t), Eligible(s, t));
    }
  }

  /** One heartbeat never both grafts and prunes a peer in a topic. */
  lemma {:induction false} NeverGraftedAndPruned(o: Overlay, s: State, s': State, b: Beat, p: PeerId, t: Topic)
    requires HeartbeatWith(o, s, s', b)
    ensures !(t in At(b.tograft, p) && t in At(b.toprune, p))
  {
  }

  /** Fanout sets never have more than D peers. */
  ghost predicate FanoutSmall(o: Overlay, s: State) {
    forall t | t in s.fanout :: |s.fanout[t]| <= o.d
  }

  lemma {:induction false} ChosenStaySmall(
      o: Overlay, s: State, topics: set<Topic>, now: int, fanout: PeerSets, lastpub: map<Topic, int>)
    requires FanoutSmall(o, s) && FanoutChosen(o, s, topics, now, fanout, lastpub)
    ensures forall t | t in fanout :: |fanout[t]| <= o.d
  {
    hide Eligible;
  }

  lemma {:induction false} PublishKeepsFanoutSmall(o: Overlay, s: State, s': State, from: PeerId, m: Msg, now: int)
    requires FanoutSmall(o, s) && Published(o, s, s', from, m, now)
    ensures FanoutSmall(o, s')
  {
    hide SentEach, Targets, FanoutTopics, FanoutChosen, PutEntry;
    var fanout, lastpub :| FanoutChosen(o, s, FanoutTopics(s, m.topics), now, fanout, lastpub)
      && SentEach(
           s.(mcache := PutEntry(s.mcache, m), published := s.published + {m.id}, fanout := fanout, lastpub := lastpub),
           s', ToAll(Targets(s, fanout, m.topics) - {from, m.author}, MessageRpc(m)));
    SentOnlySends(
      s.(mcache := PutEntry(s.mcache, m), published := s.published + {m.id}, fanout := fanout, lastpub := lastpub),
      s', ToAll(Targets(s, fanout, m.topics) - {from, m.author}, MessageRpc(m)));
    ChosenStaySmall(o, s, FanoutTopics(s, m.topics), now, fanout, lastpub);
  }

  /** No fanout appears or changes. */
  ghost predicate FanoutShrinks(s: State, s': State) {
    forall t | t in s'.fanout :: t in s.fanout && s'.fanout[t] == s.fanout[t]
  }

  lemma {:induction false} JoinedShrinksFanout(s: State, s': State, t: Topic, peers: set<PeerId>)
    requires JoinedWith(s, s', t, peers)
    ensures FanoutShrinks(s, s')
  {
    hide Send;
  }

  lemma {:induction false} SubscribeShrinksFanout(
      o: Overlay, s: State, s': State, t: Topic, sub: int, announced: State, joined: State)
    requires SubscriptionAdded(o, s, s', t, sub, announced, joined)
    ensures FanoutShrinks(s, s')
  {
    hide JoinedWith, Eligible;
    if !HasSubs(s, t) && t !in announced.mesh {
      var peers :| JoinedWith(announced, joined, t, peers);
      JoinedShrinksFanout(announced, joined, t, peers);
    }
  }

  lemma {:induction false} LeftShrinksFanout(s: State, s': State, t: Topic)
    requires Left(s, s', t)
    ensures FanoutShrinks(s, s')
  {
    hide Send;
  }

  lemma {:induction false} UnsubscribeShrinksFanout(s: State, s': State, t: Topic, sub: int, announced: State)
    requires SubscriptionRemoved(s, s', t, sub, announced)
    ensures FanoutShrinks(s, s')
  {
    hide Left, Announces, FanoutShrinks;
    if s'.fanout == s.fanout {
      SameFanout(s, s');
    } else {
      assert announced.fanout == s.fanout by {
        AnnounceOnlySends(s.(myTopics := s.myTopics - {t}), announced, t, false);
      }
      LeftShrinksFanout(announced, s', t);
      SameShrinks(s, announced, s');
    }
  }

  lemma {:induction false} SameFanout(s: State, s': State)
    requires s'.fanout == s.fanout
    ensures FanoutShrinks(s, s')
  {
  }

  lemma {:induction false} SameShrinks(s: State, s1: State, s': State)
    requires s1.fanout == s.fanout && FanoutShrinks(s1, s')
    ensures FanoutShrinks(s, s')
  {
  }

  lemma {:induction false} HandledShrinksFanout(s: State, s': State, from: PeerId, ctl: Option<Control>)
    requires Handled(s, s', from, ctl)
    ensures FanoutShrinks(s, s')
  {
    hide Answers, Send, Grafted;
  }

  lemma {:induction false} RemovedKeepsFanoutSmall(o: Overlay, s: State, s': State, p: PeerId)
    requires FanoutSmall(o, s)
    requires PeerRemoved(s.(peers := s.peers - {p}, topics := Without(s.topics, p)), s', p)
    ensures FanoutSmall(o, s')
  {
    forall t | t in s'.fanout ensures |s'.fanout[t]| <= o.d {
      Sizes.OfPart(s.fanout[t] - {p}, s.fanout[t]);
    }
  }

  lemma {:induction false} BeatKeepsFanoutSmall(o: Overlay, s: State, s': State, b: Beat)
    requires FanoutSmall(o, s) && HeartbeatWith(o, s, s', b)
    ensures FanoutSmall(o, s')
  {
    hide HeartbeatWith, Eligible;
    forall t | t in s'.fanout ensures |s'.fanout[t]| <= o.d {
      HeartbeatRestoresFanout(o, s, s', b, t);
    }
  }

  lemma {:induction false} StepKeepsFanoutSmall(o: Overlay, s: State, e: Event, s': State)
    requires FanoutSmall(o, s) && Step(o, s, e, s')
    ensures FanoutSmall(o, s')
  {
    hide Published, HeartbeatWith, Handled, SubscriptionAdded, SubscriptionRemoved, PeerRemoved, Known, Without;
    match e
    case Publish(from, m, now) => PublishKeepsFanoutSmall(o, s, s', from, m, now);
    case Heartbeat(beat) => BeatKeepsFanoutSmall(o, s, s', beat);
    case PeerGone(p) => RemovedKeepsFanoutSmall(o, s, s', p);
    case Subscribe(t, sub, announced, joined) => SubscribeShrinksFanout(o, s, s', t, sub, announced, joined);
    case Unsubscribe(t, sub, announced) => UnsubscribeShrinksFanout(s, s', t, sub, announced);
    case Incoming(from, control) => HandledShrinksFanout(s, s', from, control);
    case _ =>
  }

  lemma {:induction false} FanoutStaysSmall(o: Overlay, states: seq<State>, events: seq<Event>, i: nat)
    requires IsRun(o, states, events) && i < |states|
    ensures FanoutSmall(o, states[i])
  {
    hide Step;
    if i > 0 {
      FanoutStaysSmall(o, states, events, i - 1);
      StepKeepsFanoutSmall(o, states[i - 1], events[i - 1], states[i]);
    }
  }
}
