/** What we announce reaches our peers: whatever the order of subscriptions, full queues and retries. */
module Announcements {

  import opened Capacity
  import opened MessageCache
  import opened Loop

  function InTransit(s: State, p: PeerId): seq<Packet> {
    if p in s.transit then s.transit[p] else []
  }

  /** What a peer is still to hear: what was sent and has not arrived, and then what its channel holds. */
  function Ahead(s: State, p: PeerId): seq<Packet>
    requires p in s.peers
  {
    InTransit(s, p) + s.peers[p].queue
  }

  /** After that a peer believes the truth about a topic, or a retry carrying the truth is pending. */
  ghost predicate WillKnow(s: State, p: PeerId, t: Topic)
    requires p in s.peers && p in s.remote
  {
    (t in HeardAll(s.remote[p], Ahead(s, p)) <==> t in s.myTopics) || Retry(p, t, t in s.myTopics) in s.retries
  }

  ghost predicate Converging(s: State) {
    && s.remote.Keys == s.peers.Keys && s.transit.Keys == s.peers.Keys
    && forall p, t | p in s.peers :: WillKnow(s, p, t)
  }

  lemma {:induction false} HeardSnoc(view: set<Topic>, queue: seq<Packet>, packet: Packet)
    ensures HeardAll(view, queue + [packet]) == Heard(HeardAll(view, queue), packet)
  {
    assert (queue + [packet])[..|queue|] == queue;
  }

  /** Hearing the first packet at once changes nothing in the end. */
  lemma {:induction false} HeardFirst(view: set<Topic>, queue: seq<Packet>)
    requires queue != []
    ensures HeardAll(Heard(view, queue[0]), queue[1..]) == HeardAll(view, queue)
  {
    if |queue| == 1 {
      assert queue == [] + [queue[0]];
      HeardSnoc(view, [], queue[0]);
    } else {
      var init, last := queue[..|queue| - 1], queue[|queue| - 1];
      HeardFirst(view, init);
      assert init[1..] + [last] == queue[1..];
      HeardSnoc(Heard(view, queue[0]), init[1..], last);
    }
  }

  lemma {:induction false} HelloHeard(view: set<Topic>, hello: Packet, topics: set<Topic>)
    requires IsHello(hello, topics)
    ensures HeardAll(view, [hello]) == view + topics
  {
    HeardSnoc(view, [], hello);
    AllOn(view, hello);
    forall t ensures (t, true) in hello <==> t in topics {
      if (t, true) in hello {
        var i :| 0 <= i < |hello| && hello[i] == (t, true);
      }
    }
  }

  lemma {:induction false} AllOn(view: set<Topic>, packet: Packet)
    requires forall i | 0 <= i < |packet| :: packet[i].1
    ensures forall t :: t in Heard(view, packet) <==> t in view || (t, true) in packet
  {
    if packet != [] {
      var n := |packet| - 1;
      AllOn(view, packet[..n]);
      assert packet == packet[..n] + [(packet[n].0, true)];
    }
  }

  lemma {:induction false} HeardOne(view: set<Topic>, t: Topic, on: bool)
    ensures Heard(view, [(t, on)]) == if on then view + {t} else view - {t}
    ensures Heard(view, []) == view
  {
    assert Heard(view, [(t, on)][..0]) == view;
  }

  /** What a peer is led to believe after one more packet was offered to its channel. */
  lemma {:induction false} OfferHeard(view: set<Topic>, sent: seq<Packet>, c: Channel, packet: Packet)
    ensures HeardAll(view, sent + Offered(c, packet).queue) ==
            if |c.queue| < PEER_QUEUE then Heard(HeardAll(view, sent + c.queue), packet)
            else HeardAll(view, sent + c.queue)
  {
    if |c.queue| < PEER_QUEUE {
      HeardSnoc(view, sent + c.queue, packet);
      assert sent + c.queue + [packet] == sent + (c.queue + [packet]);
    }
  }

  /** What makes a connection begin well: the peer believes nothing of us that is no longer so, or is about
    * to be told. */
  ghost predicate BeginsWell(s: State, p: PeerId, view: set<Topic>) {
    forall t | t in view && t !in s.myTopics :: Retry(p, t, false) in s.retries
  }

  /** With a new channel holding a hello packet, the peer will know the truth exactly if it begins well. */
  lemma {:induction false} NewChannelConverges(s: State, s': State, p: PeerId, hello: Packet, view: set<Topic>)
    requires Converging(s) && IsHello(hello, s.myTopics.Keys)
    requires s' == s.(peers := s.peers[p := Channel([hello], true)], remote := s.remote[p := view],
                      transit := s.transit[p := []])
    ensures Converging(s') <==> BeginsWell(s, p, view)
  {
    hide HeardAll, IsHello;
    HelloHeard(view, hello, s.myTopics.Keys);
    forall q, t | q in s'.peers && q != p ensures WillKnow(s', q, t) {
      assert WillKnow(s, q, t);
    }
    assert Ahead(s', p) == [hello];
    forall t ensures WillKnow(s', p, t) <==> (t in view && t !in s.myTopics ==> Retry(p, t, false) in s.retries) {
    }
    assert BeginsWell(s, p, view) <==> forall t :: WillKnow(s', p, t);
  }

  /** An announcement of the new truth about one topic. */
  lemma {:induction false} AnnounceConverges(s: State, s0: State, s': State, t: Topic, on: bool)
    requires Converging(s) && s0.peers == s.peers && s0.remote == s.remote && s0.retries == s.retries
    requires s'.peers == Announced(s0, t, on).peers && s'.retries == Announced(s0, t, on).retries
    requires s'.remote == s.remote && s'.transit == s.transit
    requires forall u | u != t :: u in s'.myTopics <==> u in s.myTopics
    requires t in s'.myTopics <==> on
    ensures Converging(s')
  {
    hide HeardAll, Heard, Announced, WillKnow;
    AnnouncedKeys(s0, t, on);
    forall p, u | p in s'.peers ensures WillKnow(s', p, u) {
      assert WillKnow(s, p, u);
      AnnouncedTold(s, s0, s', t, on, p, u);
    }
  }

  lemma {:induction false} AnnouncedKeys(s: State, t: Topic, on: bool)
    ensures Announced(s, t, on).peers.Keys == s.peers.Keys
  {
  }

  lemma {:induction false} AnnouncedTold(
      s: State, s0: State, s': State, t: Topic, on: bool, p: PeerId, u: Topic)
    requires p in s.peers && p in s.remote && p in s'.peers && WillKnow(s, p, u)
    requires s0.peers == s.peers && s0.retries == s.retries
    requires s'.peers == Announced(s0, t, on).peers && s'.retries == Announced(s0, t, on).retries
    requires s'.remote == s.remote && s'.transit == s.transit
    requires u != t ==> (u in s'.myTopics <==> u in s.myTopics)
    requires t in s'.myTopics <==> on
    ensures WillKnow(s', p, u)
  {
    hide HeardAll, Heard;
    OfferHeard(s.remote[p], InTransit(s, p), s.peers[p], [(t, on)]);
    HeardOne(HeardAll(s.remote[p], Ahead(s, p)), t, on);
    if u == t && |s.peers[p].queue| >= PEER_QUEUE {
      assert Retry(p, t, on) in (set q | q in s0.peers && |s0.peers[q].queue| >= PEER_QUEUE :: Retry(q, t, on));
    }
  }

  lemma {:induction false} RetryConverges(s: State, s': State, r: Retry)
    requires Converging(s) && r in s.retries && s' == Retried(s, r)
    ensures Converging(s')
  {
    hide WillKnow;
    forall p, u | p in s'.peers ensures WillKnow(s', p, u) {
      assert WillKnow(s, p, u);
      if p == r.peer && u == r.topic {
        RetryTold(s, s', r);
      } else {
        RetryOther(s, s', r, p, u);
      }
    }
  }

  lemma {:induction false} RetryTold(s: State, s': State, r: Retry)
    requires r.peer in s.peers && s.remote.Keys == s.peers.Keys && WillKnow(s, r.peer, r.topic)
    requires r in s.retries && s' == Retried(s, r)
    ensures WillKnow(s', r.peer, r.topic)
  {
    hide HeardAll, Heard;
    OfferHeard(s.remote[r.peer], InTransit(s, r.peer), s.peers[r.peer], [(r.topic, r.on)]);
    HeardOne(HeardAll(s.remote[r.peer], Ahead(s, r.peer)), r.topic, r.on);
  }

  lemma {:induction false} RetryOther(s: State, s': State, r: Retry, p: PeerId, u: Topic)
    requires p in s.peers && s.remote.Keys == s.peers.Keys && WillKnow(s, p, u) && !(p == r.peer && u == r.topic)
    requires r in s.retries && s' == Retried(s, r)
    ensures WillKnow(s', p, u)
  {
    hide HeardAll, Heard;
    OfferHeard(s.remote[p], InTransit(s, p), s.peers[p], [(r.topic, r.on)]);
    HeardOne(HeardAll(s.remote[p], Ahead(s, p)), r.topic, r.on);
  }

  lemma {:induction false} TrafficConverges(s: State, s': State, p: PeerId)
    requires Converging(s) && p in s.peers && s' == After(s, Traffic(p))
    ensures Converging(s')
  {
    hide HeardAll, Heard;
    forall q, u | q in s'.peers ensures WillKnow(s', q, u) {
      assert WillKnow(s, q, u);
      OfferHeard(s.remote[q], InTransit(s, q), s.peers[q], []);
      HeardOne(HeardAll(s.remote[q], Ahead(s, q)), u, true);
    }
  }

  lemma {:induction false} SendingConverges(s: State, s': State, p: PeerId)
    requires Converging(s) && p in s.peers && s.peers[p].queue != [] && s' == Sending(s, p)
    ensures Converging(s')
  {
    hide HeardAll;
    forall q, u | q in s'.peers ensures WillKnow(s', q, u) {
      assert WillKnow(s, q, u);
      assert Ahead(s', q) == Ahead(s, q);
    }
  }

  lemma {:induction false} HeededConverges(s: State, s': State, p: PeerId)
    requires Converging(s) && p in s.peers && InTransit(s, p) != [] && s' == Heeded(s, p)
    ensures Converging(s')
  {
    hide HeardAll, Heard;
    forall q, u | q in s'.peers ensures WillKnow(s', q, u) {
      assert WillKnow(s, q, u);
      if q == p {
        HeardFirst(s.remote[p], Ahead(s, p));
        assert Ahead(s', p) == Ahead(s, p)[1..];
      }
    }
  }

  /** A peer connects, or its writer is respawned, believing something that is no longer so. */
  ghost predicate BeginsBadly(s: State, e: Event) {
    || (e.NewPeer? && e.p !in s.peers && e.p !in s.blacklist && !BeginsWell(s, e.p, e.view))
    || (e.WriterRespawned? && e.p in s.remote && !BeginsWell(s, e.p, s.remote[e.p]))
  }

  /** A case keeps announcements converging exactly if it does not begin a connection badly. */
  lemma {:induction false} ConvergingUnlessBegunBadly(s: State, e: Event)
    requires Converging(s) && Enabled(s, e)
    ensures Converging(After(s, e)) <==> !BeginsBadly(s, e)
  {
    hide Converging, BeginsWell, IsHello, Announced, Subscribed, Cancelled, Retried, Sending, Heeded, Dropped, Streamed;
    match e
    case NewPeer(p, hello, view) =>
      if p !in s.peers && p !in s.blacklist {
        NewChannelConverges(s, After(s, e), p, hello, view);
      }
    case WriterRespawned(p, hello) =>
      RemoteKnown(s, p);
      NewChannelConverges(s, After(s, e), p, hello, s.remote[p]);
    case _ => OthersConverge(s, e);
  }

  lemma {:induction false} OthersConverge(s: State, e: Event)
    requires Converging(s) && Enabled(s, e) && !e.NewPeer? && !e.WriterRespawned?
    ensures Converging(After(s, e))
  {
    hide Converging, IsHello, Announced, Subscribed, Cancelled, Retried, Sending, Heeded, Dropped, Streamed;
    match e
    case Subscribe(sub, t) => SubscribeConverges(s, sub, t);
    case Cancel(sub) => CancelConverges(s, sub);
    case RetryDue(r) => RetryConverges(s, After(s, e), r);
    case Traffic(p) => TrafficConverges(s, After(s, e), p);
    case Dequeued(p) =>
      SameTables(s);
      SendingConverges(s, After(s, e), p);
    case Arrived(p) =>
      SameTables(s);
      HeededConverges(s, After(s, e), p);
    case _ => FewerConverge(s, e);
  }

  lemma {:induction false} SameTables(s: State)
    requires Converging(s)
    ensures s.remote.Keys == s.peers.Keys && forall p :: InTransit(s, p) == if p in s.transit then s.transit[p] else []
  {
  }

  /** Peers are dropped, or a channel is closed. */
  lemma {:induction false} FewerConverge(s: State, e: Event)
    requires Converging(s)
    requires e.StreamOpened? || e.StreamFailed? || e.PeerGone? || e.BlacklistPeer? || e.BlacklistedElsewhere?
             || e.Shutdown?
    ensures Converging(After(s, e))
  {
    SameTables(s);
    FewerPeers(s, After(s, e));
  }

  lemma {:induction false} FewerPeers(s: State, s': State)
    requires Converging(s) && s'.myTopics == s.myTopics && s'.retries == s.retries
    requires s'.remote.Keys == s'.peers.Keys && s'.transit.Keys == s'.peers.Keys
    requires forall p | p in s'.peers ::
               && p in s.peers && s'.peers[p].queue == s.peers[p].queue
               && s'.remote[p] == s.remote[p] && s'.transit[p] == s.transit[p]
    ensures Converging(s')
  {
    hide HeardAll;
    forall p, t | p in s'.peers ensures WillKnow(s', p, t) {
      assert WillKnow(s, p, t);
    }
  }

  lemma {:induction false} SubscribeConverges(s: State, sub: SubId, t: Topic)
    requires Converging(s) && sub !in s.subs
    ensures Converging(After(s, Subscribe(sub, t)))
  {
    hide WillKnow, Announced;
    var s' := After(s, Subscribe(sub, t));
    if SubsOf(s, t) == {} {
      AnnounceKeepsRest(s, t, true);
      AnnounceConverges(s, s, s', t, true);
    } else {
      SameTopics(s, s');
    }
  }

  lemma {:induction false} CancelConverges(s: State, sub: SubId)
    requires Converging(s) && sub in s.subs
    ensures Converging(After(s, Cancel(sub)))
  {
    hide WillKnow, Announced;
    var s', t := After(s, Cancel(sub)), s.subs[sub].topic;
    if t in s.myTopics && s.myTopics[t] - {sub} == {} {
      var s0 := s.(subs := s.subs[sub := Sub(t, false)], myTopics := s.myTopics - {t});
      AnnounceKeepsRest(s0, t, false);
      AnnounceConverges(s, s0, s', t, false);
    } else {
      SameTopics(s, s');
    }
  }

  lemma {:induction false} AnnounceKeepsRest(s: State, t: Topic, on: bool)
    ensures Announced(s, t, on).myTopics == s.myTopics && Announced(s, t, on).remote == s.remote
            && Announced(s, t, on).transit == s.transit
  {
  }

  lemma {:induction false} SameTopics(s: State, s': State)
    requires Converging(s) && s'.myTopics.Keys == s.myTopics.Keys
    requires s'.retries == s.retries && s'.remote == s.remote && s'.peers == s.peers && s'.transit == s.transit
    ensures Converging(s')
  {
    hide HeardAll;
    forall p, t | p in s'.peers ensures WillKnow(s', p, t) {
      assert WillKnow(s, p, t);
    }
  }

  /** In every run in which connections begin well, announcements converge. */
  lemma {:induction false} AnnouncementsConverge(states: seq<State>, events: seq<Event>, i: nat)
    requires IsRun(states, events) && i < |states|
    requires forall k | 0 <= k < i :: !BeginsBadly(states[k], events[k])
    ensures Converging(states[i])
  {
    hide Converging, BeginsBadly, Enabled, After, Panics;
    if i == 0 {
      NothingToAnnounce();
    } else {
      AnnouncementsConverge(states, events, i - 1);
      assert Step(states[i - 1], events[i - 1], states[i]);
      if Panics(states[i - 1], events[i - 1]) {
        PanicConverges(states[i - 1]);
      } else {
        ConvergingUnlessBegunBadly(states[i - 1], events[i - 1]);
      }
    }
  }

  lemma {:induction false} NothingToAnnounce()
    ensures Converging(BEGINNING)
  {
  }

  lemma {:induction false} PanicConverges(s: State)
    requires Converging(s)
    ensures Converging(s.(panicked := true))
  {
    SameTopics(s, s.(panicked := true));
  }

  /** So with no retry pending, its queue drained and all that was sent arrived, a peer knows exactly the topics
    * we are in. */
  lemma {:induction false} SettledPeersKnow(states: seq<State>, events: seq<Event>, i: nat, p: PeerId)
    requires IsRun(states, events) && i < |states| && p in states[i].peers
    requires forall k | 0 <= k < i :: !BeginsBadly(states[k], events[k])
    requires states[i].retries == multiset{} && Ahead(states[i], p) == []
    ensures p in states[i].remote && states[i].remote[p] == states[i].myTopics.Keys
  {
    hide Step;
    AnnouncementsConverge(states, events, i);
    forall t ensures t in states[i].remote[p] <==> t in states[i].myTopics.Keys {
      assert WillKnow(states[i], p, t);
    }
  }

  // ----- what a node can tell from its own state -----

  /** These packets take back no topic, or only what we are in, or what a retry will take back again. */
  ghost predicate Clean(s: State, p: PeerId, packets: seq<Packet>) {
    forall t, i | t !in s.myTopics && 0 <= i < |packets| && (t, false) in packets[i] :: Retry(p, t, false) in s.retries
  }

  predicate Mentions(packet: Packet, t: Topic) {
    (t, true) in packet || (t, false) in packet
  }

  /** What a packet makes of a topic depends on nothing but what was believed of that topic, and not even on
    * that if it mentions the topic. */
  lemma {:induction false} HeardSame(view: set<Topic>, view': set<Topic>, packet: Packet, t: Topic)
    requires (t in view <==> t in view') || Mentions(packet, t)
    ensures t in Heard(view, packet) <==> t in Heard(view', packet)
  {
    if packet != [] {
      var init, last := packet[..|packet| - 1], packet[|packet| - 1];
      assert packet == init + [last];
      if last.0 != t {
        HeardSame(view, view', init, t);
      }
    }
  }

  ghost predicate Touches(queue: seq<Packet>, t: Topic) {
    exists i :: 0 <= i < |queue| && Mentions(queue[i], t)
  }

  lemma {:induction false} TouchedBefore(queue: seq<Packet>, t: Topic)
    requires queue != []
    ensures Touches(queue, t) ==> Touches(queue[..|queue| - 1], t) || Mentions(queue[|queue| - 1], t)
  {
    hide Mentions;
    if Touches(queue, t) {
      var i :| 0 <= i < |queue| && Mentions(queue[i], t);
      if i < |queue| - 1 {
        assert Mentions(queue[..|queue| - 1][i], t);
      }
    }
  }

  lemma {:induction false} HeardAllSame(view: set<Topic>, view': set<Topic>, queue: seq<Packet>, t: Topic)
    requires (t in view <==> t in view') || Touches(queue, t)
    ensures t in HeardAll(view, queue) <==> t in HeardAll(view', queue)
  {
    hide Heard, Mentions;
    if queue != [] {
      var init, last := queue[..|queue| - 1], queue[|queue| - 1];
      TouchedBefore(queue, t);
      if (t in view <==> t in view') || Touches(init, t) {
        HeardAllSame(view, view', init, t);
      }
      HeardSame(HeardAll(view, init), HeardAll(view', init), last, t);
    }
  }

  lemma {:induction false} HeardKeeps(view: set<Topic>, packet: Packet, t: Topic)
    requires t in view && (t, false) !in packet
    ensures t in Heard(view, packet)
  {
    if packet != [] {
      var init, last := packet[..|packet| - 1], packet[|packet| - 1];
      assert packet == init + [last] && last == (last.0, last.1) && last in packet;
      HeardKeeps(view, init, t);
    }
  }

  lemma {:induction false} HeardAllKeeps(view: set<Topic>, queue: seq<Packet>, t: Topic)
    requires t in view && forall i | 0 <= i < |queue| :: (t, false) !in queue[i]
    ensures t in HeardAll(view, queue)
  {
    hide Heard;
    if queue != [] {
      HeardAllKeeps(view, queue[..|queue| - 1], t);
      HeardKeeps(HeardAll(view, queue[..|queue| - 1]), queue[|queue| - 1], t);
    }
  }

  /** What is clean can be discarded. */
  lemma {:induction false} CleanBeginsWell(s: State, p: PeerId)
    requires Converging(s) && p in s.peers && Clean(s, p, Ahead(s, p))
    ensures BeginsWell(s, p, s.remote[p])
  {
    hide HeardAll;
    forall t | t in s.remote[p] && t !in s.myTopics ensures Retry(p, t, false) in s.retries {
      assert WillKnow(s, p, t);
      if forall i | 0 <= i < |Ahead(s, p)| :: (t, false) !in Ahead(s, p)[i] {
        HeardAllKeeps(s.remote[p], Ahead(s, p), t);
      }
    }
  }

  /** The same node, with a peer that believes something else. */
  function Believing(s: State, p: PeerId, view: set<Topic>): State {
    s.(remote := s.remote[p := view])
  }

  /** A topic that is going to be taken back may be believed in until then. */
  lemma {:induction false} MayBelieve(s: State, p: PeerId, t: Topic, i: nat)
    requires Converging(s) && p in s.peers && i < |Ahead(s, p)| && (t, false) in Ahead(s, p)[i]
    ensures Converging(Believing(s, p, s.remote[p] + {t}))
  {
    hide HeardAll;
    var s' := Believing(s, p, s.remote[p] + {t});
    assert Mentions(Ahead(s, p)[i], t);
    forall q, u | q in s'.peers ensures WillKnow(s', q, u) {
      assert WillKnow(s, q, u);
      if q == p {
        HeardAllSame(s.remote[p], s'.remote[p], Ahead(s, p), u);
      }
    }
  }

  lemma {:induction false} RespawnConverges(s: State, p: PeerId, hello: Packet)
    requires Converging(s) && p in s.peers && IsHello(hello, s.myTopics.Keys)
    ensures Converging(Respawned(s, p, hello)) <==> BeginsWell(s, p, s.remote[p])
  {
    hide Converging, BeginsWell, IsHello;
    RemoteKnown(s, p);
    NewChannelConverges(s, Respawned(s, p, hello), p, hello, s.remote[p]);
  }

  lemma {:induction false} RemoteKnown(s: State, p: PeerId)
    requires Converging(s) && p in s.peers
    ensures p in s.remote && s.remote[p := s.remote[p]] == s.remote
  {
  }

  /** Whatever the peer may believe, a respawn keeps announcements converging if and only if all that it
    * discards is clean: what the channel holds, and what was sent and has not arrived. */
  lemma {:induction false} RespawnSafeIff(s: State, p: PeerId, hello: Packet)
    requires Converging(s) && p in s.peers && IsHello(hello, s.myTopics.Keys)
    ensures Clean(s, p, Ahead(s, p)) <==>
            forall view | Converging(Believing(s, p, view)) :: Converging(Respawned(Believing(s, p, view), p, hello))
  {
    hide Converging, BeginsWell, IsHello, Respawned, HeardAll, Ahead;
    if Clean(s, p, Ahead(s, p)) {
      forall view | Converging(Believing(s, p, view)) ensures Converging(Respawned(Believing(s, p, view), p, hello)) {
        SameAhead(s, p, view);
        CleanBeginsWell(Believing(s, p, view), p);
        RespawnConverges(Believing(s, p, view), p, hello);
      }
    } else {
      DirtyAhead(s, p, hello);
    }
  }

  lemma {:induction false} SameAhead(s: State, p: PeerId, view: set<Topic>)
    requires p in s.peers
    ensures Ahead(Believing(s, p, view), p) == Ahead(s, p)
  {
  }

  lemma {:induction false} DirtyAhead(s: State, p: PeerId, hello: Packet)
    requires Converging(s) && p in s.peers && IsHello(hello, s.myTopics.Keys) && !Clean(s, p, Ahead(s, p))
    ensures exists view :: Converging(Believing(s, p, view))
                        && !Converging(Respawned(Believing(s, p, view), p, hello))
  {
    hide Converging, IsHello, Respawned, HeardAll, Ahead;
    RemoteKnown(s, p);
    var t, i :| t !in s.myTopics && 0 <= i < |Ahead(s, p)| && (t, false) in Ahead(s, p)[i]
                && Retry(p, t, false) !in s.retries;
    var view := s.remote[p] + {t};
    MayBelieve(s, p, t, i);
    RespawnConverges(Believing(s, p, view), p, hello);
    assert !BeginsWell(Believing(s, p, view), p, view);
  }

  /** The same node, of whose packets `sent` all but the first `k` are still in transit. */
  function Arriving(s: State, p: PeerId, view: set<Topic>, sent: seq<Packet>, k: nat): State
    requires k <= |sent|
  {
    s.(remote := s.remote[p := view], transit := s.transit[p := sent[k..]])
  }

  /** Nor can a node tell what has arrived. Of all that its writer has sent, and the channel holds, nothing may
    * be unclean: then, and only then, a respawn is safe whatever has arrived and whatever the peer believes. */
  lemma {:induction false} RespawnSafeUnseenIff(s: State, p: PeerId, sent: seq<Packet>, hello: Packet)
    requires p in s.peers && IsHello(hello, s.myTopics.Keys)
    requires exists view :: Converging(Arriving(s, p, view, sent, 0))
    ensures Clean(s, p, sent + s.peers[p].queue) <==>
            forall view, k | 0 <= k <= |sent| && Converging(Arriving(s, p, view, sent, k)) ::
              Converging(Respawned(Arriving(s, p, view, sent, k), p, hello))
  {
    hide Converging, Clean, Ahead, IsHello, Respawned, Believing;
    if Clean(s, p, sent + s.peers[p].queue) {
      forall view, k | 0 <= k <= |sent| && Converging(Arriving(s, p, view, sent, k))
        ensures Converging(Respawned(Arriving(s, p, view, sent, k), p, hello))
      {
        var s1 := Arriving(s, p, view, sent, k);
        ArrivingAhead(s, p, view, sent, k);
        FewerClean(s, p, sent + s.peers[p].queue, k);
        RespawnSafeIff(s1, p, hello);
        assert Believing(s1, p, view) == s1;
      }
    } else {
      NothingArrived(s, p, sent, hello);
    }
  }

  lemma {:induction false} FewerClean(s: State, p: PeerId, packets: seq<Packet>, k: nat)
    requires Clean(s, p, packets) && k <= |packets|
    ensures Clean(s, p, packets[k..])
  {
  }

  lemma {:induction false} ArrivingAhead(s: State, p: PeerId, view: set<Topic>, sent: seq<Packet>, k: nat)
    requires p in s.peers && k <= |sent|
    ensures var s1 := Arriving(s, p, view, sent, k);
            && p in s1.peers && Ahead(s1, p) == (sent + s.peers[p].queue)[k..]
            && (Clean(s1, p, Ahead(s1, p)) <==> Clean(s, p, (sent + s.peers[p].queue)[k..]))
            && (forall view' :: Believing(s1, p, view') == Arriving(s, p, view', sent, k))
  {
  }

  lemma {:induction false} NothingArrived(s: State, p: PeerId, sent: seq<Packet>, hello: Packet)
    requires p in s.peers && IsHello(hello, s.myTopics.Keys) && !Clean(s, p, sent + s.peers[p].queue)
    requires exists view :: Converging(Arriving(s, p, view, sent, 0))
    ensures exists view :: Converging(Arriving(s, p, view, sent, 0))
                        && !Converging(Respawned(Arriving(s, p, view, sent, 0), p, hello))
  {
    hide Converging, Clean, Ahead, IsHello, Respawned, Believing;
    var view :| Converging(Arriving(s, p, view, sent, 0));
    var s1 := Arriving(s, p, view, sent, 0);
    ArrivingAhead(s, p, view, sent, 0);
    assert (sent + s.peers[p].queue)[0..] == sent + s.peers[p].queue;
    DirtyAhead(s1, p, hello);
    var view1 :| Converging(Believing(s1, p, view1)) && !Converging(Respawned(Believing(s1, p, view1), p, hello));
    assert Believing(s1, p, view1) == Arriving(s, p, view1, sent, 0);
  }

  /** Peers connect as new sessions, and no respawn discards what is not clean. */
  ghost predicate WithinSessions(states: seq<State>, events: seq<Event>)
    requires |states| > |events|
  {
    forall k | 0 <= k < |events| ::
      && (events[k].NewPeer? ==> events[k].view == {})
      && (events[k].WriterRespawned? && events[k].p in states[k].peers ==>
            Clean(states[k], events[k].p, Ahead(states[k], events[k].p)))
  }

  lemma {:induction false} SessionsBeginWell(s: State, e: Event)
    requires Converging(s) && (e.NewPeer? ==> e.view == {})
    requires e.WriterRespawned? && e.p in s.peers ==> Clean(s, e.p, Ahead(s, e.p))
    ensures !BeginsBadly(s, e)
  {
    hide WillKnow, Clean, Ahead;
    if e.WriterRespawned? && e.p in s.peers {
      CleanBeginsWell(s, e.p);
    }
  }

  /** Within sessions, announcements converge: for every peer and topic the peer will know the truth after
    * what is ahead of it, or a retry carrying the truth is pending. */
  lemma {:induction false} SessionsConverge(states: seq<State>, events: seq<Event>, i: nat)
    requires IsRun(states, events) && WithinSessions(states, events) && i < |states|
    ensures Converging(states[i]) && forall k | 0 <= k < i :: !BeginsBadly(states[k], events[k])
  {
    hide Converging, BeginsBadly, Step, Clean, Ahead;
    if i == 0 {
      NothingToAnnounce();
    } else {
      SessionsConverge(states, events, i - 1);
      SessionsBeginWell(states[i - 1], events[i - 1]);
      AnnouncementsConverge(states, events, i);
    }
  }

  /** So within sessions, with no retry pending, its queue drained and all that was sent arrived, a peer knows
    * exactly the topics we are in. */
  lemma {:induction false} SettledSessionsKnow(states: seq<State>, events: seq<Event>, i: nat, p: PeerId)
    requires IsRun(states, events) && WithinSessions(states, events) && i < |states| && p in states[i].peers
    requires states[i].retries == multiset{} && Ahead(states[i], p) == []
    ensures p in states[i].remote && states[i].remote[p] == states[i].myTopics.Keys
  {
    hide IsRun, WithinSessions, Converging, BeginsBadly;
    SessionsConverge(states, events, i);
    SettledPeersKnow(states, events, i, p);
  }

  // ----- runs that end badly -----

  lemma {:induction false} AnnouncedToOne(s: State, p: PeerId, t: Topic, on: bool)
    requires s.peers.Keys == {p} && |s.peers[p].queue| < PEER_QUEUE
    ensures Announced(s, t, on) == s.(peers := map[p := s.peers[p].(queue := s.peers[p].queue + [[(t, on)]])])
  {
    assert (set q | q in s.peers && |s.peers[q].queue| >= PEER_QUEUE :: Retry(q, t, on)) == {};
  }

  /** One peer connected, at most one topic. */
  function Stage(
      p: PeerId, queue: seq<Packet>, sent: seq<Packet>, mine: set<SubId>, t: Topic, subs: map<SubId, Sub>,
      view: set<Topic>): State
  {
    State(map[p := Channel(queue, true)], if mine == {} then map[] else map[t := mine], subs, {}, multiset{},
          map[p := view], map[p := sent], false)
  }

  lemma {:induction false} ConnectStage(p: PeerId, t: Topic, view: set<Topic>)
    ensures Step(BEGINNING, NewPeer(p, [], view), Stage(p, [[]], [], {}, t, map[], view))
  {
  }

  lemma {:induction false} SubscribeStage(p: PeerId, queue: seq<Packet>, sub: SubId, t: Topic)
    requires |queue| < PEER_QUEUE
    ensures Step(Stage(p, queue, [], {}, t, map[], {}), Subscribe(sub, t),
                 Stage(p, queue + [[(t, true)]], [], {sub}, t, map[sub := Sub(t, true)], {}))
  {
    hide Announced;
    var s := Stage(p, queue, [], {}, t, map[], {});
    AnnouncedToOne(s, p, t, true);
    assert SubsOf(s, t) == {} && {} + {sub} == {sub};
    assert After(s, Subscribe(sub, t)).subs == map[sub := Sub(t, true)];
  }

  lemma {:induction false} CancelStage(p: PeerId, queue: seq<Packet>, sub: SubId, t: Topic, view: set<Topic>)
    requires |queue| < PEER_QUEUE
    ensures Step(Stage(p, queue, [], {sub}, t, map[sub := Sub(t, true)], view), Cancel(sub),
                 Stage(p, queue + [[(t, false)]], [], {}, t, map[sub := Sub(t, false)], view))
  {
    hide Announced;
    var s := Stage(p, queue, [], {sub}, t, map[sub := Sub(t, true)], view);
    assert s.myTopics[t] - {sub} == {} && s.myTopics - {t} == map[];
    var s0 := s.(subs := s.subs[sub := Sub(t, false)], myTopics := s.myTopics - {t});
    AnnouncedToOne(s0, p, t, false);
    assert After(s, Cancel(sub)).subs == map[sub := Sub(t, false)];
  }

  lemma {:induction false} DequeueStage(
      p: PeerId, packet: Packet, rest: seq<Packet>, mine: set<SubId>, t: Topic, subs: map<SubId, Sub>, view: set<Topic>)
    ensures Step(Stage(p, [packet] + rest, [], mine, t, subs, view), Dequeued(p),
                 Stage(p, rest, [packet], mine, t, subs, view))
  {
    assert ([packet] + rest)[1..] == rest && [] + [packet] == [packet];
  }

  lemma {:induction false} ArriveStage(
      p: PeerId, packet: Packet, rest: seq<Packet>, mine: set<SubId>, t: Topic, subs: map<SubId, Sub>, view: set<Topic>)
    ensures Step(Stage(p, rest, [packet], mine, t, subs, view), Arrived(p),
                 Stage(p, rest, [], mine, t, subs, Heard(view, packet)))
  {
    hide Heard;
    var sent: seq<Packet> := [packet];
    assert sent[1..] == [];
  }

  lemma {:induction false} RespawnStage(
      p: PeerId, queue: seq<Packet>, sent: seq<Packet>, t: Topic, subs: map<SubId, Sub>, view: set<Topic>)
    ensures Step(Stage(p, queue, sent, {}, t, subs, view), WriterRespawned(p, []),
                 Stage(p, [[]], [], {}, t, subs, view))
  {
  }

  lemma {:induction false} RunSnoc(states: seq<State>, events: seq<Event>, e: Event, s: State)
    requires IsRun(states, events) && Step(states[|events|], e, s)
    ensures IsRun(states + [s], events + [e])
  {
    hide Step;
  }

  /** A packet is taken by the writer and arrives. */
  lemma {:induction false} DeliverStage(
      states: seq<State>, events: seq<Event>, p: PeerId, packet: Packet, rest: seq<Packet>, mine: set<SubId>, t: Topic,
      subs: map<SubId, Sub>, view: set<Topic>)
    returns (states': seq<State>, events': seq<Event>)
    requires IsRun(states, events) && states[|events|] == Stage(p, [packet] + rest, [], mine, t, subs, view)
    ensures IsRun(states', events') && states <= states' && events <= events'
    ensures states'[|events'|] == Stage(p, rest, [], mine, t, subs, Heard(view, packet))
  {
    hide Step, Stage, Heard;
    var s1 := Stage(p, rest, [packet], mine, t, subs, view);
    var s2 := Stage(p, rest, [], mine, t, subs, Heard(view, packet));
    DequeueStage(p, packet, rest, mine, t, subs, view);
    RunSnoc(states, events, Dequeued(p), s1);
    ArriveStage(p, packet, rest, mine, t, subs, view);
    RunSnoc(states + [s1], events + [Dequeued(p)], Arrived(p), s2);
    states', events' := states + [s1] + [s2], events + [Dequeued(p)] + [Arrived(p)];
  }

  /** A topic was announced, and then left: the unsubscription waits in the channel. */
  lemma {:induction false} UnsubscribedRun(p: PeerId, sub: SubId, t: Topic)
    returns (states: seq<State>, events: seq<Event>)
    ensures IsRun(states, events)
    ensures states[|events|] == Stage(p, [[(t, false)]], [], {}, t, map[sub := Sub(t, false)], {t})
  {
    hide Step, Stage, Heard;
    var on := map[sub := Sub(t, true)];
    var s1, s2 := Stage(p, [[]], [], {}, t, map[], {}), Stage(p, [[]] + [[(t, true)]], [], {sub}, t, on, {});
    states, events := [BEGINNING], [];
    ConnectStage(p, t, {});
    RunSnoc(states, events, NewPeer(p, [], {}), s1);
    states, events := states + [s1], events + [NewPeer(p, [], {})];
    SubscribeStage(p, [[]], sub, t);
    RunSnoc(states, events, Subscribe(sub, t), s2);
    states, events := DeliverStage(states + [s2], events + [Subscribe(sub, t)], p, [], [[(t, true)]], {sub}, t, on, {});
    HeardOne({}, t, true);
    assert [[(t, true)]] + [] == [[(t, true)]];
    states, events := DeliverStage(states, events, p, [(t, true)], [], {sub}, t, on, {});
    assert {} + {t} == {t};
    var s3 := Stage(p, [] + [[(t, false)]], [], {}, t, map[sub := Sub(t, false)], {t});
    CancelStage(p, [], sub, t, {t});
    RunSnoc(states, events, Cancel(sub), s3);
    states, events := states + [s3], events + [Cancel(sub)];
    assert [] + [[(t, false)]] == [[(t, false)]];
  }

  /** Settled, and yet the peer believes us to be in a topic that was left. */
  ghost predicate WrongForGood(s: State, p: PeerId, t: Topic) {
    && s.retries == multiset{} && p in s.peers && Ahead(s, p) == []
    && p in s.remote && s.remote[p] == {t} && s.myTopics == map[]
  }

  /** A respawned writer can leave a peer wrong for good: the unsubscription is lost in the channel, or, if
    * `taken`, with the stream of the writer that had taken it; and the hello packet does not say it. */
  lemma {:induction false} RespawnForgetsUnsubscription(p: PeerId, sub: SubId, t: Topic, taken: bool)
    returns (states: seq<State>, events: seq<Event>, k: nat)
    ensures IsRun(states, events) && WrongForGood(states[|events|], p, t)
    ensures k < |events| && events[k] == WriterRespawned(p, []) && p in states[k].peers
    ensures if taken then states[k].peers[p].queue == [] && InTransit(states[k], p) == [[(t, false)]]
            else states[k].peers[p].queue == [[(t, false)]] && InTransit(states[k], p) == []
  {
    hide Step, Heard, Stage;
    states, events := UnsubscribedRun(p, sub, t);
    var off := map[sub := Sub(t, false)];
    var queue: seq<Packet>, sent: seq<Packet> := [[(t, false)]], [];
    if taken {
      var s1 := Stage(p, [], [[(t, false)]], {}, t, off, {t});
      DequeueStage(p, [(t, false)], [], {}, t, off, {t});
      assert [[(t, false)]] + [] == [[(t, false)]];
      RunSnoc(states, events, Dequeued(p), s1);
      states, events := states + [s1], events + [Dequeued(p)];
      queue, sent := [], [[(t, false)]];
    }
    k := |events|;
    var s2 := Stage(p, [[]], [], {}, t, off, {t});
    RespawnStage(p, queue, sent, t, off, {t});
    RunSnoc(states, events, WriterRespawned(p, []), s2);
    StageWaits(p, queue, sent, {}, t, off, {t});
    states, events := states + [s2], events + [WriterRespawned(p, [])];
    var hello: seq<Packet> := [[]];
    assert hello + [] == hello;
    states, events := DeliverStage(states, events, p, [], [], {}, t, off, {t});
    HeardOne({t}, t, true);
    StageWaits(p, [], [], {}, t, off, {t});
  }

  lemma {:induction false} StageWaits(
      p: PeerId, queue: seq<Packet>, sent: seq<Packet>, mine: set<SubId>, t: Topic, subs: map<SubId, Sub>,
      view: set<Topic>)
    ensures var s := Stage(p, queue, sent, mine, t, subs, view);
            && p in s.peers && s.peers[p].queue == queue && InTransit(s, p) == sent
            && (mine == {} && view == {t} && queue == [] && sent == [] ==> WrongForGood(s, p, t))
  {
  }

  /** A peer that kept what it believed in an earlier session stays wrong about a topic left in between. */
  lemma {:induction false} OldViewStaysWrong(p: PeerId, t: Topic)
    returns (states: seq<State>, events: seq<Event>)
    ensures IsRun(states, events) && |events| > 0 && events[0] == NewPeer(p, [], {t})
    ensures WrongForGood(states[|events|], p, t)
  {
    hide Step, Heard, Stage;
    ConnectStage(p, t, {t});
    RunSnoc([BEGINNING], [], NewPeer(p, [], {t}), Stage(p, [[]], [], {}, t, map[], {t}));
    var hello: seq<Packet> := [[]];
    assert hello + [] == hello;
    states, events := DeliverStage([BEGINNING] + [Stage(p, [[]], [], {}, t, map[], {t})], [] + [NewPeer(p, [], {t})],
                                   p, [], [], {}, t, map[], {t});
    HeardOne({t}, t, true);
    StageWaits(p, [], [], {}, t, map[], {t});
  }
}
