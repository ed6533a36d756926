/** What comes of a heartbeat: the meshes and fanouts, topic by topic, and whom gossip goes to. */
module HeartbeatOutcomes {

  import opened Capacity
  import opened MessageCache
  import opened Options
  import opened Router
  import opened RouterOutcomes
  import opened RouterSafety
  import Sizes

  /** `after` is `before` with as many gossipsub peers of the topic as make it `most`, or all there are. */
  ghost predicate FilledUp(s: State, t: Topic, before: set<PeerId>, after: set<PeerId>, most: nat) {
    && before <= after && |after| <= most
    && (forall p | p in after && p !in before :: IsGossipPeer(s, t, p))
    && (|after| < most ==> forall p | IsGossipPeer(s, t, p) :: p in after)
  }

  lemma {:induction false} PickedFillsUp(s: State, t: Topic, before: set<PeerId>, after: set<PeerId>, most: nat)
    requires |before| < most && before <= after
    requires Picked(after - before, Eligible(s, t) - before, most - |before|)
    ensures FilledUp(s, t, before, after, most)
  {
    EligibleMeans(s, t);
    hide Eligible;
    Sizes.OfPart(before, after);
    if |after| < most {
      Sizes.AllOfThem(after - before, Eligible(s, t) - before);
    }
    forall p | p in after && p !in before ensures IsGossipPeer(s, t, p) {
      assert p in after - before;
    }
    forall p | |after| < most && IsGossipPeer(s, t, p) ensures p in after {
      assert p in before || p in Eligible(s, t) - before;
    }
  }

  /** Meshes are the same topics; one below Dlo is filled up to D, one above Dhi cut to D, any other as it was. */
  lemma {:induction false} HeartbeatMesh(o: Overlay, s: State, s': State, b: Beat, t: Topic)
    requires HeartbeatWith(o, s, s', b)
    ensures t in s'.mesh <==> t in s.mesh
    ensures t in s.mesh ==>
              if |s.mesh[t]| < o.dlo then FilledUp(s, t, s.mesh[t], s'.mesh[t], o.d)
              else if |s.mesh[t]| > o.dhi then s'.mesh[t] <= s.mesh[t] && |s'.mesh[t]| == o.d
              else s'.mesh[t] == s.mesh[t]
  {
    hide SentEach, GossipGrew, Moved, Picked, FilledUp, Eligible;
    SentOnlySends(b.refilled, b.sent, GraftPruneRpcs(b.tograft, b.toprune));
    if t in s.mesh {
      assert Eligible(b.flushed, t) == Eligible(s, t) by {
        SameEligible(s, b.flushed, t);
      }
      assert MeshStep(o, s.mesh[t], s'.mesh[t], Eligible(s, t));
      if |s.mesh[t]| < o.dlo {
        PickedFillsUp(s, t, s.mesh[t], s'.mesh[t], o.d);
      }
    }
  }

  lemma {:induction false} SameEligible(s: State, s': State, t: Topic)
    requires s'.topics == s.topics && s'.protocols == s.protocols
    ensures Eligible(s', t) == Eligible(s, t) && Known(s', t) == Known(s, t)
  {
  }

  /** A fanout is dropped exactly if its topic was last published to longer ago than the time to live, with that
    * time; one that stays loses the peers no longer in the topic, and is filled up to D if that leaves fewer. */
  lemma {:induction false} HeartbeatFanout(o: Overlay, s: State, s': State, b: Beat, t: Topic)
    requires HeartbeatWith(o, s, s', b)
    ensures t in s'.fanout <==> t in s.fanout && !(t in s.lastpub && s.lastpub[t] + o.ttl < b.now)
    ensures t in s'.lastpub <==> t in s.lastpub && s.lastpub[t] + o.ttl >= b.now
    ensures t in s'.lastpub ==> s'.lastpub[t] == s.lastpub[t]
    ensures t in s'.fanout ==>
              exists kept: set<PeerId> ::
                && (forall p :: p in kept <==> p in s.fanout[t] && t in s.topics && p in s.topics[t])
                && if |kept| < o.d then FilledUp(s, t, kept, s'.fanout[t], o.d) else s'.fanout[t] == kept
  {
    hide SentEach, GossipGrew, Moved, MeshStep, Picked, FilledUp, Eligible, FanoutStep;
    SentOnlySends(b.refilled, b.sent, GraftPruneRpcs(b.tograft, b.toprune));
    if t in s'.fanout {
      SameEligible(s, b.expired, t);
      assert FanoutStep(o, s.fanout[t], s'.fanout[t], Known(s, t), Eligible(s, t));
      KeptFanout(o, s, t, s.fanout[t], s'.fanout[t]);
    }
  }

  lemma {:induction false} KeptFanout(o: Overlay, s: State, t: Topic, before: set<PeerId>, after: set<PeerId>)
    requires FanoutStep(o, before, after, Known(s, t), Eligible(s, t))
    ensures exists kept: set<PeerId> ::
              && (forall p :: p in kept <==> p in before && t in s.topics && p in s.topics[t])
              && if |kept| < o.d then FilledUp(s, t, kept, after, o.d) else after == kept
  {
    hide FilledUp, Eligible, Picked;
    var kept := before * Known(s, t);
    if |kept| < o.d {
      PickedFillsUp(s, t, kept, after, o.d);
    }
  }

  /** The cached messages age by one slot, the oldest are gone. */
  lemma {:induction false} HeartbeatCache(o: Overlay, s: State, s': State, b: Beat)
    requires HeartbeatWith(o, s, s', b)
    ensures |s'.mcache.history| == |s.mcache.history| && s'.mcache.history[0] == []
    ensures forall k | 0 < k < |s.mcache.history| :: s'.mcache.history[k] == s.mcache.history[k - 1]
    ensures var oldest := s.mcache.history[|s.mcache.history| - 1];
            forall mid :: mid in s'.mcache.msgs <==> mid in s.mcache.msgs && forall e | e in oldest :: e.mid != mid
  {
    hide SentEach, MeshMaintained, FanoutMaintained, FanoutExpired, FlushedAll;
  }

  /** The peer enters (`inside`) or leaves the mesh. */
  predicate Moves(s: State, s': State, t: Topic, p: PeerId, inside: bool) {
    InMesh(s.mesh, t, p) != inside && InMesh(s'.mesh, t, p) == inside
  }

  /** A connected peer that enters meshes, or leaves some, is told of one of them, after all that was on its queue
    * when the meshes were done: of the only one, if there is one only. */
  lemma {:induction false} HeartbeatTells(
      o: Overlay, s: State, s': State, b: Beat, p: PeerId, t: Topic, inside: bool)
    requires HeartbeatWith(o, s, s', b) && p in s.peers && Moves(s, s', t, p, inside)
    ensures exists u :: Moves(s, s', u, p, inside) && IsTold(b.refilled, s', p, u, inside)
  {
    hide HeartbeatWith, SentEach, IsTold, GraftPruneRpcs, Coalesced, Moves, At, InMesh;
    BeatSends(o, s, s', b);
    var lists := if inside then b.tograft else b.toprune;
    BeatLists(o, s, s', b, t, p, inside);
    var u := LastListed(lists, p, t);
    BeatLists(o, s, s', b, u, p, inside);
    ListedTells(b.refilled, b.sent, b.tograft, b.toprune, p, u, inside);
    ToldFrom(b.refilled, b.sent, s', p, u, inside);
  }

  lemma {:induction false} LastListed(lists: map<PeerId, seq<Topic>>, p: PeerId, t: Topic) returns (u: Topic)
    requires t in At(lists, p)
    ensures p in lists && u in At(lists, p) && u in Coalesced(lists[p])
  {
    u := lists[p][|lists[p]| - 1];
    LastIsNamed(lists[p]);
  }

  lemma {:induction false} BeatSends(o: Overlay, s: State, s': State, b: Beat)
    requires HeartbeatWith(o, s, s', b)
    ensures SentEach(b.refilled, b.sent, GraftPruneRpcs(b.tograft, b.toprune))
    ensures b.refilled.peers.Keys == s.peers.Keys && s'.peers == b.sent.peers && s'.control == b.sent.control
  {
    Phases(o, s, s', b);
    hide FlushedAll, SentEach, GossipGrew, MeshStep, FanoutStep, Moved;
  }

  lemma {:induction false} ListedTells(
      s: State, sent: State, tograft: map<PeerId, seq<Topic>>, toprune: map<PeerId, seq<Topic>>, p: PeerId, u: Topic,
      inside: bool)
    requires SentEach(s, sent, GraftPruneRpcs(tograft, toprune)) && p in s.peers
    requires p in (if inside then tograft else toprune)
    requires u in Coalesced((if inside then tograft else toprune)[p])
    ensures IsTold(s, sent, p, u, inside)
  {
    hide SentEach, IsTold, Coalesced;
    SentTells(s, sent, GraftPruneRpcs(tograft, toprune), p, u, inside);
  }

  lemma {:induction false} LastIsNamed(ts: seq<Topic>)
    requires ts != []
    ensures ts[|ts| - 1] in Coalesced(ts)
  {
    assert Coalesced(ts)[0] == ts[|ts| - 1];
  }

  lemma {:induction false} ToldFrom(s: State, sent: State, s': State, p: PeerId, t: Topic, inside: bool)
    requires IsTold(s, sent, p, t, inside) && s'.peers == sent.peers && s'.control == sent.control
    ensures IsTold(s, s', p, t, inside)
  {
    if HasRoom(s, p) {
      var r :| Gains(s, sent, p, r) && r.control.Some?
               && Says(r.control.value.graft, r.control.value.prune, t, inside);
      assert Gains(s, s', p, r);
    }
  }

  lemma {:induction false} BeatLists(
      o: Overlay, s: State, s': State, b: Beat, t: Topic, p: PeerId, inside: bool)
    requires HeartbeatWith(o, s, s', b)
    ensures t in At(if inside then b.tograft else b.toprune, p) <==> Moves(s, s', t, p, inside)
  {
    Phases(o, s, s', b);
    hide FlushedAll, SentEach, GossipGrew, MeshStep, FanoutStep;
  }

  // ----- gossip -----

  /** In one of the slots that gossip is about, for a topic it carries. */
  ghost predicate IsAdvertised(c: Cache, t: Topic, mid: Mid) {
    exists i, k :: EntryAt(c, i, k) && i < c.gossip && c.history[i][k].mid == mid && t in c.history[i][k].topics
  }

  lemma {:induction false} SlotIdsMean(slot: seq<Entry>, t: Topic, mid: Mid)
    ensures mid in SlotIds(slot, t) <==> exists k :: 0 <= k < |slot| && slot[k].mid == mid && t in slot[k].topics
  {
    if slot != [] {
      SlotIdsMean(slot[..|slot| - 1], t, mid);
    }
  }

  lemma {:induction false} SlotsIdsMean(slots: seq<seq<Entry>>, t: Topic, mid: Mid)
    ensures mid in SlotsIds(slots, t) <==> exists i :: 0 <= i < |slots| && mid in SlotIds(slots[i], t)
  {
    hide SlotIds;
    if slots != [] {
      SlotsIdsMean(slots[..|slots| - 1], t, mid);
    }
  }

  lemma {:induction false} GossipIdsMean(c: Cache, t: Topic, mid: Mid)
    requires WellFormed(c)
    ensures mid in GossipIds(c, t) <==> IsAdvertised(c, t, mid)
  {
    hide SlotsIds, SlotIds;
    var slots := c.history[..c.gossip];
    SlotsIdsMean(slots, t, mid);
    if mid in GossipIds(c, t) {
      var i :| 0 <= i < |slots| && mid in SlotIds(slots[i], t);
      SlotIdsMean(slots[i], t, mid);
      var k :| 0 <= k < |slots[i]| && slots[i][k].mid == mid && t in slots[i][k].topics;
      assert EntryAt(c, i, k);
    }
    if IsAdvertised(c, t, mid) {
      var i, k :| EntryAt(c, i, k) && i < c.gossip && c.history[i][k].mid == mid && t in c.history[i][k].topics;
      SlotIdsMean(slots[i], t, mid);
      assert slots[i][k].mid == mid && t in slots[i][k].topics;
    }
  }

  /** An IHAVE of the topic that names exactly what is advertised. */
  ghost predicate Lists(c: Cache, ihaves: seq<IHave>, t: Topic) {
    exists i :: 0 <= i < |ihaves| && ihaves[i].topic == t
             && forall mid :: mid in ihaves[i].mids <==> IsAdvertised(c, t, mid)
  }

  /** emitGossip, for one topic: as many gossipsub peers as D, or all, are drawn, and exactly those that are not in
    * the mesh or fanout have one more announcement pending. */
  lemma {:induction false} EmittedTo(
      o: Overlay, s: State, sets: PeerSets, gossip: map<PeerId, seq<IHave>>, t: Topic) returns (chosen: set<PeerId>)
    requires GossipGrew(o, s, sets, gossip) && t in sets && exists mid :: IsAdvertised(s.mcache, t, mid)
    ensures Drawn(s, t, chosen, o.d)
    ensures forall p | p in chosen && p !in sets[t] :: p in gossip && Lists(s.mcache, gossip[p], t)
  {
    hide IsAdvertised, Moved, GossipIds, Picked, Eligible, Drawn;
    var drawn, lists :| GossipEmitted(o, s, sets, drawn, lists, gossip);
    chosen := drawn[t];
    forall mid ensures mid in GossipIds(s.mcache, t) <==> IsAdvertised(s.mcache, t, mid) {
      GossipIdsMean(s.mcache, t, mid);
    }
    PickedIsDrawn(s, t, chosen, o.d);
    forall p | p in chosen && p !in sets[t] ensures p in gossip && Lists(s.mcache, gossip[p], t) {
      ListedIsAnnounced(s, sets, drawn, lists, gossip, t, p);
    }
  }

  lemma {:induction false} ListedIsAnnounced(
      s: State, sets: PeerSets, drawn: PeerSets, lists: map<PeerId, seq<Topic>>, gossip: map<PeerId, seq<IHave>>,
      t: Topic, p: PeerId)
    requires WellFormed(s.mcache) && gossip == WithIHaves(s.mcache, s.gossip, lists)
    requires Moved(lists, map[], Outside(drawn, sets)) && t in drawn && t in sets && p in drawn[t] && p !in sets[t]
    requires forall mid :: mid in GossipIds(s.mcache, t) <==> IsAdvertised(s.mcache, t, mid)
    ensures p in gossip && Lists(s.mcache, gossip[p], t)
  {
    hide IsAdvertised, GossipIds;
    assert InMesh(Outside(drawn, sets), t, p) && t in At(lists, p);
    var n :| 0 <= n < |lists[p]| && lists[p][n] == t;
    var before := if p in s.gossip then s.gossip[p] else [];
    assert gossip[p][|before| + n] == IHave(t, GossipIds(s.mcache, t));
  }

  /** And nothing else is announced. */
  lemma {:induction false} EmittedOnlyTo(
      o: Overlay, s: State, sets: PeerSets, gossip: map<PeerId, seq<IHave>>, p: PeerId, i: nat)
    requires GossipGrew(o, s, sets, gossip) && p in gossip && i < |gossip[p]|
    requires p in s.gossip ==> i >= |s.gossip[p]|
    ensures var ihave := gossip[p][i];
            && ihave.topic in sets && p !in sets[ihave.topic] && IsGossipPeer(s, ihave.topic, p) && ihave.mids != []
            && forall mid :: mid in ihave.mids <==> IsAdvertised(s.mcache, ihave.topic, mid)
  {
    hide IsAdvertised, GossipIds, Eligible;
    var drawn, lists :| GossipEmitted(o, s, sets, drawn, lists, gossip);
    var n := i - if p in s.gossip then |s.gossip[p]| else 0;
    var t := At(lists, p)[n];
    assert gossip[p][i] == IHave(t, GossipIds(s.mcache, t));
    assert t in At(lists, p);
    assert InMesh(Outside(drawn, sets), t, p);
    EligibleMeans(s, t);
    forall mid ensures mid in GossipIds(s.mcache, t) <==> IsAdvertised(s.mcache, t, mid) {
      GossipIdsMean(s.mcache, t, mid);
    }
  }

  /** After the heartbeat: an announcement of the topic is pending for the peer, or in an RPC on its queue, or there
    * was no room for the GRAFT or PRUNE that it would have left with. */
  ghost predicate WasAnnounced(s: State, s': State, p: PeerId, t: Topic) {
    || (p in s'.gossip && Lists(s.mcache, s'.gossip[p], t))
    || (p in s'.peers && exists r :: r in s'.peers[p] && r.control.Some? && Lists(s.mcache, r.control.value.ihave, t))
    || (p in s'.peers && |s'.peers[p]| >= 32
        && exists u :: InMesh(s.mesh, u, p) != InMesh(s'.mesh, u, p))
  }

  lemma {:induction false} GossipSurvives(s: State, s': State, out: map<PeerId, Rpc>, c: Cache, p: PeerId, t: Topic)
    requires SentEach(s, s', out) && p in s.gossip && Lists(c, s.gossip[p], t) && p in s.peers
    ensures || (p in s'.gossip && Lists(c, s'.gossip[p], t))
            || (p in s'.peers && exists r :: r in s'.peers[p] && r.control.Some? && Lists(c, r.control.value.ihave, t))
            || (p in out && p in s'.peers && |s'.peers[p]| >= 32)
  {
    hide SentEach, Lists;
    if p in out {
      var r := SentToOne(s, s', out, p);
      if HasRoom(s, p) {
        assert r in s'.peers[p] by {
          assert s'.peers[p][|s.peers[p]|] == r;
        }
        if r.control.None? {
          NothingAnnounced(c, t);
        }
      }
    } else {
      SentToNone(s, s', out, p);
    }
  }

  lemma {:induction false} NothingAnnounced(c: Cache, t: Topic)
    ensures !Lists(c, [], t)
  {
  }

  lemma {:induction false} ListedMoved(b: Beat, p: PeerId)
    requires Moved(b.tograft, b.flushed.mesh, b.maintained.mesh) && Moved(b.toprune, b.maintained.mesh, b.flushed.mesh)
    requires p in GraftPruneRpcs(b.tograft, b.toprune)
    ensures exists u :: InMesh(b.flushed.mesh, u, p) != InMesh(b.maintained.mesh, u, p)
  {
    if p in b.tograft {
      assert b.tograft[p][0] in At(b.tograft, p);
    } else {
      assert b.toprune[p][0] in At(b.toprune, p);
    }
  }

  lemma {:induction false} FlushedTables(s: State, s': State)
    requires FlushedAll(s, s')
    ensures s'.mcache == s.mcache && s'.topics == s.topics && s'.protocols == s.protocols && s'.mesh == s.mesh
    ensures s'.peers.Keys == s.peers.Keys && s'.gossip == map[]
  {
    hide Send;
    forall p ensures (p in s'.peers <==> p in s.peers) && p !in s'.gossip {
      assert CellOf(s', p) == Flushed(s.mesh, p, CellOf(s, p));
      FlushedCell(s.mesh, p, CellOf(s, p));
    }
  }

  lemma {:induction false} FlushedCell(mesh: PeerSets, p: PeerId, c: Cell)
    ensures Flushed(mesh, p, c).gossip == None && (Flushed(mesh, p, c).queue.Some? <==> c.queue.Some?)
  {
  }

  /** The phases of a heartbeat, as far as gossip is concerned. */
  lemma {:induction false} Phases(o: Overlay, s: State, s': State, b: Beat)
    requires HeartbeatWith(o, s, s', b)
    ensures b.flushed.gossip == map[] && b.flushed.peers.Keys == s.peers.Keys && b.refilled.peers == b.flushed.peers
    ensures b.flushed.mcache == s.mcache && b.expired.mcache == s.mcache && b.flushed.mesh == s.mesh
    ensures b.flushed.topics == s.topics && b.flushed.protocols == s.protocols
    ensures b.expired.topics == s.topics && b.expired.protocols == s.protocols
    ensures b.expired.gossip == b.maintained.gossip
    ensures s'.mesh == b.maintained.mesh && s'.fanout == b.refilled.fanout
    ensures GossipGrew(o, b.flushed, s'.mesh, b.expired.gossip)
    ensures GossipGrew(o, b.expired, s'.fanout, b.refilled.gossip)
    ensures SentEach(b.refilled, b.sent, GraftPruneRpcs(b.tograft, b.toprune))
    ensures s'.gossip == b.sent.gossip && s'.peers == b.sent.peers
    ensures forall p | p in GraftPruneRpcs(b.tograft, b.toprune) ::
              exists u :: InMesh(s.mesh, u, p) != InMesh(s'.mesh, u, p)
  {
    hide FlushedAll, SentEach, GossipGrew, Moved, MeshStep, FanoutStep;
    FlushedTables(s, b.flushed);
    SentOnlySends(b.refilled, b.sent, GraftPruneRpcs(b.tograft, b.toprune));
    forall p | p in GraftPruneRpcs(b.tograft, b.toprune)
      ensures exists u :: InMesh(s.mesh, u, p) != InMesh(s'.mesh, u, p)
    {
      ListedMoved(b, p);
    }
  }

  lemma {:induction false} AnnouncedStays(
      o: Overlay, s: State, sets: PeerSets, gossip: map<PeerId, seq<IHave>>, c: Cache, p: PeerId, t: Topic)
    requires GossipGrew(o, s, sets, gossip) && p in s.gossip && Lists(c, s.gossip[p], t)
    ensures p in gossip && Lists(c, gossip[p], t)
  {
    hide IsAdvertised, Moved, GossipPicked;
    var drawn, lists :| GossipEmitted(o, s, sets, drawn, lists, gossip);
    var i :| 0 <= i < |s.gossip[p]| && s.gossip[p][i].topic == t
             && forall mid :: mid in s.gossip[p][i].mids <==> IsAdvertised(c, t, mid);
    assert gossip[p][i] == s.gossip[p][i];
  }

  /** What is pending before the GRAFTs and PRUNEs leave. */
  lemma {:induction false} BeatEmits(o: Overlay, s: State, s': State, b: Beat, t: Topic) returns (chosen: set<PeerId>)
    requires HeartbeatWith(o, s, s', b) && (t in s'.mesh || t in s'.fanout)
    requires exists mid :: IsAdvertised(s.mcache, t, mid)
    ensures Drawn(s, t, chosen, o.d)
    ensures forall p | p in chosen && p !in (if t in s'.mesh then s'.mesh[t] else s'.fanout[t]) ::
              p in b.refilled.gossip && Lists(s.mcache, b.refilled.gossip[p], t)
  {
    Phases(o, s, s', b);
    hide HeartbeatWith, GossipGrew, SentEach, Drawn, Lists, IsAdvertised;
    if t in s'.mesh {
      chosen := EmittedTo(o, b.flushed, s'.mesh, b.expired.gossip, t);
      SameDrawn(b.flushed, s, t, chosen, o.d);
      forall p | p in chosen && p !in s'.mesh[t]
        ensures p in b.refilled.gossip && Lists(s.mcache, b.refilled.gossip[p], t)
      {
        AnnouncedStays(o, b.expired, s'.fanout, b.refilled.gossip, s.mcache, p, t);
      }
    } else {
      chosen := EmittedTo(o, b.expired, s'.fanout, b.refilled.gossip, t);
      SameDrawn(b.expired, s, t, chosen, o.d);
    }
  }

  lemma {:induction false} GossipPhase(o: Overlay, s: State, s': State, b: Beat, p: PeerId)
    requires HeartbeatWith(o, s, s', b)
    ensures SentEach(b.refilled, b.sent, GraftPruneRpcs(b.tograft, b.toprune)) && b.refilled.peers.Keys == s.peers.Keys
    ensures s'.gossip == b.sent.gossip && s'.peers == b.sent.peers
    ensures p in GraftPruneRpcs(b.tograft, b.toprune) ==> exists u :: InMesh(s.mesh, u, p) != InMesh(s'.mesh, u, p)
  {
    Phases(o, s, s', b);
    hide HeartbeatWith, SentEach, GraftPruneRpcs, InMesh;
  }

  lemma {:induction false} PendingSurvives(o: Overlay, s: State, s': State, b: Beat, t: Topic, p: PeerId)
    requires HeartbeatWith(o, s, s', b) && p in s.peers
    requires p in b.refilled.gossip && Lists(s.mcache, b.refilled.gossip[p], t)
    ensures WasAnnounced(s, s', p, t)
  {
    GossipPhase(o, s, s', b, p);
    hide HeartbeatWith, SentEach, Lists, GraftPruneRpcs, InMesh;
    GossipSurvives(b.refilled, b.sent, GraftPruneRpcs(b.tograft, b.toprune), s.mcache, p, t);
  }

  /** For every topic with a mesh or fanout, and something to advertise, as many gossipsub peers as D, or all, are
    * drawn; and every connected one of them outside of the mesh or fanout is announced to. */
  lemma {:induction false} HeartbeatAnnounces(o: Overlay, s: State, s': State, b: Beat, t: Topic)
    returns (chosen: set<PeerId>)
    requires HeartbeatWith(o, s, s', b) && (t in s'.mesh || t in s'.fanout)
    requires exists mid :: IsAdvertised(s.mcache, t, mid)
    ensures Drawn(s, t, chosen, o.d)
    ensures forall p | p in chosen && p in s.peers && p !in (if t in s'.mesh then s'.mesh[t] else s'.fanout[t]) ::
              WasAnnounced(s, s', p, t)
  {
    hide HeartbeatWith, Drawn, Lists, IsAdvertised, WasAnnounced;
    chosen := BeatEmits(o, s, s', b, t);
    forall p | p in chosen && p in s.peers && p !in (if t in s'.mesh then s'.mesh[t] else s'.fanout[t])
      ensures WasAnnounced(s, s', p, t)
    {
      PendingSurvives(o, s, s', b, t, p);
    }
  }

  lemma {:induction false} SameDrawn(s: State, s': State, t: Topic, chosen: set<PeerId>, most: nat)
    requires Drawn(s, t, chosen, most) && s'.topics == s.topics && s'.protocols == s.protocols
    ensures Drawn(s', t, chosen, most)
  {
    forall p ensures IsGossipPeer(s', t, p) <==> IsGossipPeer(s, t, p) {}
  }

  /** Gossip pending after a heartbeat is about topics with a mesh or fanout, for gossipsub peers outside of it, and
    * names exactly what the cache advertised. */
  lemma {:induction false} HeartbeatGossipOnly(
      o: Overlay, s: State, s': State, b: Beat, p: PeerId, i: nat)
    requires HeartbeatWith(o, s, s', b) && p in s'.gossip && i < |s'.gossip[p]|
    ensures var ihave := s'.gossip[p][i];
            && (|| (ihave.topic in s'.mesh && p !in s'.mesh[ihave.topic])
                || (ihave.topic in s'.fanout && p !in s'.fanout[ihave.topic]))
            && IsGossipPeer(s, ihave.topic, p) && ihave.mids != []
            && forall mid :: mid in ihave.mids <==> IsAdvertised(s.mcache, ihave.topic, mid)
  {
    Phases(o, s, s', b);
    hide HeartbeatWith, IsAdvertised;
    assert s'.gossip[p] == b.refilled.gossip[p] by {
      GossipKept(b.refilled, b.sent, GraftPruneRpcs(b.tograft, b.toprune), p);
    }
    hide SentEach;
    var before := if p in b.expired.gossip then b.expired.gossip[p] else [];
    if i >= |before| {
      EmittedOnlyTo(o, b.expired, s'.fanout, b.refilled.gossip, p, i);
    } else {
      EmittedOnlyTo(o, b.flushed, s'.mesh, b.expired.gossip, p, i);
      GrownFront(o, b.expired, s'.fanout, b.refilled.gossip, p);
      assert b.refilled.gossip[p][i] == b.expired.gossip[p][i];
    }
  }

  lemma {:induction false} GossipKept(s: State, s': State, out: map<PeerId, Rpc>, p: PeerId)
    requires SentEach(s, s', out) && p in s'.gossip
    ensures p in s.gossip && s'.gossip[p] == s.gossip[p]
  {
    hide Send;
    assert CellOf(s', p).gossip == Some(s'.gossip[p]);
    if p in out {
      SendTakesGossip(s.mesh, p, CellOf(s, p), out[p]);
    }
    assert CellOf(s', p) == CellOf(s, p);
  }

  lemma {:induction false} GrownFront(
      o: Overlay, s: State, sets: PeerSets, gossip: map<PeerId, seq<IHave>>, p: PeerId)
    requires GossipGrew(o, s, sets, gossip) && p in s.gossip
    ensures p in gossip && s.gossip[p] <= gossip[p]
  {
    hide Moved, GossipPicked;
    var drawn, lists :| GossipEmitted(o, s, sets, drawn, lists, gossip);
  }
}
