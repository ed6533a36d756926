/** The loops of the heartbeat, one topic or one peer at a time. */
module HeartbeatSteps {

  import opened MessageCache
  import opened Options
  import opened Router
  import opened Listing
  import opened Sending

  // ----- flush -----

  ghost predicate OnlySends(s: State, s': State) {
    s' == s.(peers := s'.peers, gossip := s'.gossip, control := s'.control)
  }

  ghost predicate GossipFlushed(s: State, s': State, left: set<PeerId>) {
    && OnlySends(s, s')
    && forall p :: CellOf(s', p) == if p in left then CellOf(s, p) else FlushedGossip(s.mesh, p, CellOf(s, p))
  }

  ghost predicate ControlFlushed(s: State, s': State, left: set<PeerId>) {
    && OnlySends(s, s')
    && forall p :: CellOf(s', p) == if p in left then CellOf(s, p) else FlushedControl(s.mesh, p, CellOf(s, p))
  }

  lemma {:induction false} NoneFlushed(s: State)
    ensures GossipFlushed(s, s, s.gossip.Keys) && ControlFlushed(s, s, s.control.Keys)
  {
  }

  /** What flush does before it sends to one peer. */
  lemma {:induction false} CellWithout(s: State, p: PeerId, q: PeerId)
    ensures CellOf(s.(gossip := s.gossip - {p}), q) == if q == p then CellOf(s, q).(gossip := None) else CellOf(s, q)
    ensures CellOf(s.(control := s.control - {p}), q) == if q == p then CellOf(s, q).(control := None) else CellOf(s, q)
  {
  }

  lemma {:induction false} OneMoreGossip(s: State, s1: State, s2: State, left: set<PeerId>, p: PeerId)
    requires GossipFlushed(s, s1, left) && p in left && p in s1.gossip
    requires SentEach(s1.(gossip := s1.gossip - {p}), s2, map[p := ControlRpc(s1.gossip[p], [], [])])
    ensures GossipFlushed(s, s2, left - {p})
  {
    hide Send;
    forall q
      ensures CellOf(s2, q) == if q in left - {p} then CellOf(s, q) else FlushedGossip(s.mesh, q, CellOf(s, q))
    {
      CellWithout(s1, p, q);
      assert CellOf(s1, q) == if q in left then CellOf(s, q) else FlushedGossip(s.mesh, q, CellOf(s, q));
    }
  }

  lemma {:induction false} OneMoreControl(s: State, s1: State, s2: State, left: set<PeerId>, p: PeerId)
    requires ControlFlushed(s, s1, left) && p in left && p in s1.control
    requires SentEach(s1.(control := s1.control - {p}), s2,
                      map[p := ControlRpc([], s1.control[p].graft, s1.control[p].prune)])
    ensures ControlFlushed(s, s2, left - {p})
  {
    hide Send;
    forall q
      ensures CellOf(s2, q) == if q in left - {p} then CellOf(s, q) else FlushedControl(s.mesh, q, CellOf(s, q))
    {
      CellWithout(s1, p, q);
      assert CellOf(s1, q) == if q in left then CellOf(s, q) else FlushedControl(s.mesh, q, CellOf(s, q));
    }
  }

  lemma {:induction false} StillPending(s: State, s1: State, left: set<PeerId>, p: PeerId)
    requires p in left
    ensures GossipFlushed(s, s1, left) && p in s.gossip ==> p in s1.gossip
    ensures ControlFlushed(s, s1, left) && p in s.control ==> p in s1.control
  {
    if GossipFlushed(s, s1, left) {
      assert CellOf(s1, p) == CellOf(s, p);
    }
    if ControlFlushed(s, s1, left) {
      assert CellOf(s1, p) == CellOf(s, p);
    }
  }

  lemma {:induction false} BothHalves(s: State, s1: State, s2: State)
    requires GossipFlushed(s, s1, {}) && ControlFlushed(s1, s2, {})
    ensures FlushedAll(s, s2)
  {
    hide Send;
    forall p ensures CellOf(s2, p) == Flushed(s.mesh, p, CellOf(s, p)) {
      assert CellOf(s1, p) == FlushedGossip(s.mesh, p, CellOf(s, p));
    }
  }

  // ----- the lists of peers to graft and prune -----

  function Appended(lists: map<PeerId, seq<Topic>>, ps: set<PeerId>, t: Topic): map<PeerId, seq<Topic>> {
    map p | p in lists.Keys + ps :: At(lists, p) + (if p in ps then [t] else [])
  }

  lemma {:induction false} AtAppended(lists: map<PeerId, seq<Topic>>, ps: set<PeerId>, t: Topic, p: PeerId)
    ensures At(Appended(lists, ps, t), p) == if p in ps then At(lists, p) + [t] else At(lists, p)
  {
    if p !in ps {
      assert At(lists, p) + [] == At(lists, p);
    }
  }

  /** Distinct topics. */
  predicate NoneTwice(ts: seq<Topic>) {
    forall i, j | 0 <= i < j < |ts| :: ts[i] != ts[j]
  }

  lemma {:induction false} MovedAt(
      lists: map<PeerId, seq<Topic>>, b: PeerSets, a: PeerSets, ps: set<PeerId>, t: Topic, p: PeerId)
    requires Moved(lists, b, a) && !(InMesh(a, t, p) && !InMesh(b, t, p))
    ensures NoneTwice(At(Appended(lists, ps, t), p))
    ensures forall u | u != t :: u in At(Appended(lists, ps, t), p) <==> u in At(lists, p)
    ensures t in At(Appended(lists, ps, t), p) <==> p in ps
  {
    hide InMesh;
    AtAppended(lists, ps, t, p);
    assert t !in At(lists, p);
    hide Appended;
  }

  /** What changes between two meshes for one topic is appended to the lists. */
  lemma {:induction false} MovedMore(
      lists: map<PeerId, seq<Topic>>, b: PeerSets, a: PeerSets, b': PeerSets, a': PeerSets, ps: set<PeerId>, t: Topic)
    requires Moved(lists, b, a)
    requires forall p, u | u != t :: InMesh(b', u, p) == InMesh(b, u, p) && InMesh(a', u, p) == InMesh(a, u, p)
    requires forall p :: !(InMesh(a, t, p) && !InMesh(b, t, p))
    requires forall p :: p in ps <==> InMesh(a', t, p) && !InMesh(b', t, p)
    ensures Moved(Appended(lists, ps, t), b', a')
  {
    hide InMesh;
    var l := Appended(lists, ps, t);
    forall p, u ensures u in At(l, p) <==> InMesh(a', u, p) && !InMesh(b', u, p) {
      MovedAt(lists, b, a, ps, t, p);
      assert u in At(lists, p) <==> InMesh(a, u, p) && !InMesh(b, u, p);
    }
    forall p | p in l ensures NoneTwice(l[p]) && l[p] != [] {
      MovedAt(lists, b, a, ps, t, p);
      AtAppended(lists, ps, t, p);
    }
    hide Appended;
  }

  lemma {:induction false} NothingAppended(lists: map<PeerId, seq<Topic>>, t: Topic)
    ensures Appended(lists, {}, t) == lists
  {
    assert Appended(lists, {}, t).Keys == lists.Keys;
    forall p | p in lists ensures Appended(lists, {}, t)[p] == lists[p] {
      assert lists[p] + [] == lists[p];
    }
  }

  lemma {:induction false} OneMoreAppended(lists: map<PeerId, seq<Topic>>, ps: set<PeerId>, p: PeerId, t: Topic)
    requires p !in ps
    ensures Appended(lists, ps + {p}, t) == Appended(lists, ps, t)[p := At(Appended(lists, ps, t), p) + [t]]
  {
    assert Appended(lists, ps + {p}, t).Keys == Appended(lists, ps, t).Keys + {p};
    assert At(Appended(lists, ps, t), p) == At(lists, p);
  }

  // ----- gossip -----

  /** What emitGossip for one topic makes of the pending gossip. */
  ghost predicate GossipMore(
      o: Overlay, s: State, topic: Topic, peers: set<PeerId>, g0: map<PeerId, seq<IHave>>, g1: map<PeerId, seq<IHave>>)
  {
    WellFormed(s.mcache) && exists chosen ::
      GossipPicked(o, s, topic, chosen) && g1 == WithIHaves(s.mcache, g0, Appended(map[], chosen - peers, topic))
  }

  lemma {:induction false} IHavesSnoc(c: Cache, ts: seq<Topic>, t: Topic)
    requires WellFormed(c)
    ensures IHaves(c, ts + [t]) == IHaves(c, ts) + [IHave(t, GossipIds(c, t))] && IHaves(c, []) == []
    ensures IHaves(c, [t]) == [IHave(t, GossipIds(c, t))]
  {
    hide GossipIds;
  }

  /** The pending gossip of one peer with a list of topics announced after it. */
  function GossipAt(c: Cache, g: map<PeerId, seq<IHave>>, lists: map<PeerId, seq<Topic>>, p: PeerId): seq<IHave>
    requires WellFormed(c)
  {
    (if p in g then g[p] else []) + IHaves(c, At(lists, p))
  }

  lemma {:induction false} SameGossip(
      c: Cache, g: map<PeerId, seq<IHave>>, lists: map<PeerId, seq<Topic>>, g': map<PeerId, seq<IHave>>)
    requires WellFormed(c) && g'.Keys == g.Keys + lists.Keys
    requires forall p | p in g' :: g'[p] == GossipAt(c, g, lists, p)
    ensures g' == WithIHaves(c, g, lists)
  {
    hide IHaves;
  }

  /** Announcing a topic after others. */
  lemma {:induction false} AnnouncedAfter(
      c: Cache, g: map<PeerId, seq<IHave>>, lists: map<PeerId, seq<Topic>>, ps: set<PeerId>, t: Topic)
    requires WellFormed(c)
    ensures WithIHaves(c, WithIHaves(c, g, lists), Appended(map[], ps, t)) == WithIHaves(c, g, Appended(lists, ps, t))
  {
    hide IHaves, GossipAt;
    var g1, g2 := WithIHaves(c, g, lists), WithIHaves(c, g, Appended(lists, ps, t));
    forall p | p in g2 ensures g2[p] == GossipAt(c, g1, Appended(map[], ps, t), p) {
      AnnouncedAfterAt(c, g, lists, ps, t, p);
    }
    SameGossip(c, g1, Appended(map[], ps, t), g2);
  }

  lemma {:induction false} AnnouncedAfterAt(
      c: Cache, g: map<PeerId, seq<IHave>>, lists: map<PeerId, seq<Topic>>, ps: set<PeerId>, t: Topic, p: PeerId)
    requires WellFormed(c) && p in WithIHaves(c, g, Appended(lists, ps, t))
    ensures WithIHaves(c, g, Appended(lists, ps, t))[p] ==
            GossipAt(c, WithIHaves(c, g, lists), Appended(map[], ps, t), p)
  {
    hide IHaves, Appended, At;
    AtAppended(lists, ps, t, p);
    AtAppended(map[], ps, t, p);
    EmptyAt(map[], p);
    assert [] + [t] == [t];
    IHavesSnoc(c, At(lists, p), t);
    InAppended(lists, ps, t);
    InAppended(map[], ps, t);
    EmptyAt(lists, p);
  }

  lemma {:induction false} InAppended(lists: map<PeerId, seq<Topic>>, ps: set<PeerId>, t: Topic)
    ensures Appended(lists, ps, t).Keys == lists.Keys + ps
  {
  }

  lemma {:induction false} EmptyAt(lists: map<PeerId, seq<Topic>>, p: PeerId)
    ensures p !in lists ==> At(lists, p) == []
  {
  }

  lemma {:induction false} MoreGossip(
      o: Overlay, s: State, sets: PeerSets, topic: Topic, peers: set<PeerId>, g0: map<PeerId, seq<IHave>>,
      g1: map<PeerId, seq<IHave>>)
    requires GossipGrew(o, s, sets, g0) && GossipMore(o, s, topic, peers, g0, g1) && topic !in sets
    ensures GossipGrew(o, s, sets[topic := peers], g1)
  {
    hide GossipPicked, WithIHaves, Moved, Appended;
    var chosen, lists :| GossipEmitted(o, s, sets, chosen, lists, g0);
    var now :| GossipPicked(o, s, topic, now) && g1 == WithIHaves(s.mcache, g0, Appended(map[], now - peers, topic));
    var chosen', sets' := chosen[topic := now], sets[topic := peers];
    MovedMore(lists, map[], Outside(chosen, sets), map[], Outside(chosen', sets'), now - peers, topic);
    AnnouncedAfter(s.mcache, s.gossip, lists, now - peers, topic);
    assert GossipEmitted(o, s, sets', chosen', Appended(lists, now - peers, topic), g1);
  }

  lemma {:induction false} NoGossip(c: Cache, g: map<PeerId, seq<IHave>>, topic: Topic)
    requires WellFormed(c)
    ensures WithIHaves(c, g, Appended(map[], {}, topic)) == g
  {
    hide IHaves;
    NothingAppended(map[], topic);
    IHavesSnoc(c, [], topic);
    forall p | p in g ensures WithIHaves(c, g, map[])[p] == g[p] {
      assert g[p] + [] == g[p];
    }
  }

  /** pushGossip for one more peer. */
  lemma {:induction false} PushedOne(
      c: Cache, g: map<PeerId, seq<IHave>>, ps: set<PeerId>, p: PeerId, topic: Topic)
    requires WellFormed(c) && p !in ps
    ensures var g1 := WithIHaves(c, g, Appended(map[], ps, topic));
            WithIHaves(c, g, Appended(map[], ps + {p}, topic)) ==
            g1[p := (if p in g1 then g1[p] else []) + [IHave(topic, GossipIds(c, topic))]]
  {
    hide IHaves, GossipIds, GossipAt, Appended, WithIHaves;
    var g1 := WithIHaves(c, g, Appended(map[], ps, topic));
    var g2 := g1[p := (if p in g1 then g1[p] else []) + [IHave(topic, GossipIds(c, topic))]];
    AppendedKeys(c, g, ps, topic);
    InAppended(map[], ps + {p}, topic);
    forall q | q in g2 ensures g2[q] == GossipAt(c, g, Appended(map[], ps + {p}, topic), q) {
      PushedAt(c, g, ps, p, topic, q);
    }
    SameGossip(c, g, Appended(map[], ps + {p}, topic), g2);
  }

  lemma {:induction false} AppendedKeys(c: Cache, g: map<PeerId, seq<IHave>>, ps: set<PeerId>, topic: Topic)
    requires WellFormed(c)
    ensures WithIHaves(c, g, Appended(map[], ps, topic)).Keys == g.Keys + ps
  {
    hide IHaves;
  }

  lemma {:induction false} PushedAt(
      c: Cache, g: map<PeerId, seq<IHave>>, ps: set<PeerId>, p: PeerId, topic: Topic, q: PeerId)
    requires WellFormed(c) && p !in ps && (q == p || q in WithIHaves(c, g, Appended(map[], ps, topic)))
    ensures var g1 := WithIHaves(c, g, Appended(map[], ps, topic));
            GossipAt(c, g, Appended(map[], ps + {p}, topic), q) ==
            if q == p then (if p in g1 then g1[p] else []) + [IHave(topic, GossipIds(c, topic))] else g1[q]
  {
    hide IHaves, GossipIds, At, Appended;
    AppendedKeys(c, g, ps, topic);
    AtAppended(map[], ps, topic, q);
    AtAppended(map[], ps + {p}, topic, q);
    EmptyAt(map[], q);
    IHavesSnoc(c, [], topic);
    assert [] + [topic] == [topic];
    if q in g {
      assert g[q] + [] == g[q];
    }
  }

  lemma {:induction false} GossipNothingYet(o: Overlay, s: State)
    requires WellFormed(s.mcache)
    ensures GossipGrew(o, s, map[], s.gossip)
  {
    hide IHaves, WithIHaves;
    IHavesSnoc(s.mcache, [], Topic(""));
    SameGossip(s.mcache, s.gossip, map[], s.gossip);
    assert GossipEmitted(o, s, map[], map[], map[], s.gossip);
  }

  // ----- the mesh, topic by topic -----

  function Excluding(sets: PeerSets, left: set<Topic>): PeerSets {
    map t | t in sets && t !in left :: sets[t]
  }

  /** All topics but those of `left` have been maintained. */
  ghost predicate MeshPartly(
      o: Overlay, s: State, s': State, left: set<Topic>, tograft: map<PeerId, seq<Topic>>,
      toprune: map<PeerId, seq<Topic>>)
  {
    && s' == s.(mesh := s'.mesh, gossip := s'.gossip)
    && s'.mesh.Keys == s.mesh.Keys
    && (forall t | t in s.mesh ::
         if t in left then s'.mesh[t] == s.mesh[t] else MeshStep(o, s.mesh[t], s'.mesh[t], Eligible(s, t)))
    && Moved(tograft, s.mesh, s'.mesh) && Moved(toprune, s'.mesh, s.mesh)
    && GossipGrew(o, s, Excluding(s'.mesh, left), s'.gossip)
  }

  lemma {:induction false} MeshUntouched(o: Overlay, s: State)
    requires WellFormed(s.mcache)
    ensures MeshPartly(o, s, s, s.mesh.Keys, map[], map[])
  {
    GossipNothingYet(o, s);
    hide GossipGrew;
    assert Excluding(s.mesh, s.mesh.Keys) == map[];
  }

  lemma {:induction false} MeshDone(
      o: Overlay, s: State, s': State, tograft: map<PeerId, seq<Topic>>, toprune: map<PeerId, seq<Topic>>)
    requires MeshPartly(o, s, s', {}, tograft, toprune)
    ensures MeshMaintained(o, s, s', tograft, toprune)
  {
    hide GossipGrew;
    assert Excluding(s'.mesh, {}) == s'.mesh;
  }

  /** One round of the loop over the mesh, from what its body is proved to do. */
  lemma {:induction false} OneMoreMesh(
      o: Overlay, s: State, s1: State, s2: State, left: set<Topic>, topic: Topic, tograft: map<PeerId, seq<Topic>>,
      toprune: map<PeerId, seq<Topic>>)
    requires MeshPartly(o, s, s1, left, tograft, toprune) && topic in left && topic in s1.mesh && topic in s2.mesh
    requires s2 == s1.(mesh := s1.mesh[topic := s2.mesh[topic]], gossip := s2.gossip)
    requires MeshStep(o, s1.mesh[topic], s2.mesh[topic], Eligible(s1, topic))
    requires GossipMore(o, s1, topic, s2.mesh[topic], s1.gossip, s2.gossip)
    ensures MeshPartly(o, s, s2, left - {topic},
                       Appended(tograft, s2.mesh[topic] - s1.mesh[topic], topic),
                       Appended(toprune, s1.mesh[topic] - s2.mesh[topic], topic))
  {
    hide MeshStep, Moved, GossipGrew, GossipMore, Eligible, Appended;
    SameKnown(s, s1, topic);
    SameMore(o, s1, s, topic, s2.mesh[topic], s1.gossip, s2.gossip);
    MovedMore(tograft, s.mesh, s1.mesh, s.mesh, s2.mesh, s2.mesh[topic] - s1.mesh[topic], topic);
    MovedMore(toprune, s1.mesh, s.mesh, s2.mesh, s.mesh, s1.mesh[topic] - s2.mesh[topic], topic);
    assert Excluding(s2.mesh, left - {topic}) == Excluding(s1.mesh, left)[topic := s2.mesh[topic]];
    MoreGossip(o, s, Excluding(s1.mesh, left), topic, s2.mesh[topic], s1.gossip, s2.gossip);
  }

  lemma {:induction false} MeshStillThere(
      o: Overlay, s: State, s1: State, left: set<Topic>, topic: Topic, tograft: map<PeerId, seq<Topic>>,
      toprune: map<PeerId, seq<Topic>>)
    requires MeshPartly(o, s, s1, left, tograft, toprune) && topic in s.mesh
    ensures topic in s1.mesh && s1.mcache == s.mcache
  {
  }

  // ----- the fanout, topic by topic -----

  ghost predicate FanoutPartly(o: Overlay, s: State, s': State, left: set<Topic>) {
    && s' == s.(fanout := s'.fanout, gossip := s'.gossip)
    && s'.fanout.Keys == s.fanout.Keys
    && (forall t | t in s.fanout ::
         if t in left then s'.fanout[t] == s.fanout[t]
         else FanoutStep(o, s.fanout[t], s'.fanout[t], Known(s, t), Eligible(s, t)))
    && GossipGrew(o, s, Excluding(s'.fanout, left), s'.gossip)
  }

  lemma {:induction false} FanoutUntouched(o: Overlay, s: State)
    requires WellFormed(s.mcache)
    ensures FanoutPartly(o, s, s, s.fanout.Keys)
  {
    GossipNothingYet(o, s);
    hide GossipGrew;
    assert Excluding(s.fanout, s.fanout.Keys) == map[];
  }

  lemma {:induction false} FanoutDone(o: Overlay, s: State, s': State)
    requires FanoutPartly(o, s, s', {})
    ensures FanoutMaintained(o, s, s')
  {
    hide GossipGrew;
    assert Excluding(s'.fanout, {}) == s'.fanout;
  }

  lemma {:induction false} OneMoreFanout(o: Overlay, s: State, s1: State, s2: State, left: set<Topic>, topic: Topic)
    requires FanoutPartly(o, s, s1, left) && topic in left && topic in s1.fanout && topic in s2.fanout
    requires s2 == s1.(fanout := s1.fanout[topic := s2.fanout[topic]], gossip := s2.gossip)
    requires FanoutStep(o, s1.fanout[topic], s2.fanout[topic], Known(s1, topic), Eligible(s1, topic))
    requires GossipMore(o, s1, topic, s2.fanout[topic], s1.gossip, s2.gossip)
    ensures FanoutPartly(o, s, s2, left - {topic})
  {
    hide FanoutStep, GossipGrew, GossipMore, Eligible, Known;
    SameKnown(s, s1, topic);
    SameMore(o, s1, s, topic, s2.fanout[topic], s1.gossip, s2.gossip);
    assert Excluding(s2.fanout, left - {topic}) == Excluding(s1.fanout, left)[topic := s2.fanout[topic]];
    MoreGossip(o, s, Excluding(s1.fanout, left), topic, s2.fanout[topic], s1.gossip, s2.gossip);
  }

  lemma {:induction false} FanoutStillThere(o: Overlay, s: State, s1: State, left: set<Topic>, topic: Topic)
    requires FanoutPartly(o, s, s1, left) && topic in s.fanout
    ensures topic in s1.fanout && s1.mcache == s.mcache
  {
  }

  /** Gossip is judged by the peers, the topics and the cache alone. */
  lemma {:induction false} SameMore(
      o: Overlay, s: State, s': State, topic: Topic, peers: set<PeerId>, g0: map<PeerId, seq<IHave>>,
      g1: map<PeerId, seq<IHave>>)
    requires GossipMore(o, s, topic, peers, g0, g1)
    requires s'.topics == s.topics && s'.protocols == s.protocols && s'.mcache == s.mcache
    ensures GossipMore(o, s', topic, peers, g0, g1)
  {
    hide WithIHaves, GossipIds;
    SameKnown(s, s', topic);
    var chosen :| GossipPicked(o, s, topic, chosen)
      && g1 == WithIHaves(s.mcache, g0, Appended(map[], chosen - peers, topic));
    assert GossipPicked(o, s', topic, chosen);
  }

  lemma {:induction false} SameKnown(s: State, s': State, topic: Topic)
    requires s'.topics == s.topics && s'.protocols == s.protocols
    ensures Eligible(s', topic) == Eligible(s, topic) && Known(s', topic) == Known(s, topic)
  {
  }

  // ----- peer lists -----

  lemma {:induction false} UnionSize(xs: set<PeerId>, ys: set<PeerId>)
    requires xs !! ys
    ensures |xs + ys| == |xs| + |ys|
  {
  }

  /** Dropping the first `n` of a list of the set. */
  lemma {:induction false} FirstOf(xs: set<PeerId>, plst: seq<PeerId>, n: nat)
    requires Distinct(plst) && SetOf(plst) == xs && n <= |xs|
    ensures n <= |plst| && Distinct(plst[..n]) && SetOf(plst[..n]) <= xs && |xs - SetOf(plst[..n])| == |xs| - n
  {
    DistinctSize(plst);
    DistinctSize(plst[..n]);
    UnionSize(SetOf(plst[..n]), xs - SetOf(plst[..n]));
    assert SetOf(plst[..n]) + (xs - SetOf(plst[..n])) == xs;
  }

  lemma {:induction false} OneMorePeer(plst: seq<PeerId>, i: nat)
    requires Distinct(plst) && i < |plst|
    ensures plst[i] !in SetOf(plst[..i]) && SetOf(plst[..i + 1]) == SetOf(plst[..i]) + {plst[i]}
  {
    assert plst[..i + 1] == plst[..i] + [plst[i]];
  }

  // ----- sendGraftPrune -----

  function Except(rpcs: map<PeerId, Rpc>, left: set<PeerId>): map<PeerId, Rpc> {
    map p | p in rpcs && p !in left :: rpcs[p]
  }

  lemma {:induction false} NothingSent(s: State, rpcs: map<PeerId, Rpc>)
    ensures SentEach(s, s, Except(rpcs, rpcs.Keys))
  {
  }

  lemma {:induction false} AllSent(rpcs: map<PeerId, Rpc>)
    ensures Except(rpcs, {}) == rpcs
  {
  }

  lemma {:induction false} OneMoreSent(
      s: State, s1: State, s2: State, rpcs: map<PeerId, Rpc>, left: set<PeerId>, p: PeerId)
    requires SentEach(s, s1, Except(rpcs, left)) && p in left && p in rpcs && SentEach(s1, s2, map[p := rpcs[p]])
    ensures SentEach(s, s2, Except(rpcs, left - {p}))
  {
    hide SentEach;
    SentOneMore(s, s1, s2, Except(rpcs, left), p, rpcs[p]);
    assert Except(rpcs, left - {p}) == Except(rpcs, left)[p := rpcs[p]];
  }

  /** The RPCs of the first loop. */
  function GraftRpcs(tograft: map<PeerId, seq<Topic>>, toprune: map<PeerId, seq<Topic>>): (r: map<PeerId, Rpc>)
    ensures r.Keys == tograft.Keys
  {
    map p | p in tograft :: AnswerTo(tograft, toprune, p)
  }

  function AnswerTo(tograft: map<PeerId, seq<Topic>>, toprune: map<PeerId, seq<Topic>>, p: PeerId): Rpc {
    ControlRpc([], Coalesced(At(tograft, p)), Coalesced(At(toprune, p)))
  }

  /** The RPCs of the second loop. */
  function PruneRpcs(toprune: map<PeerId, seq<Topic>>): (r: map<PeerId, Rpc>)
    ensures r.Keys == toprune.Keys
  {
    map p | p in toprune :: ControlRpc([], [], Coalesced(toprune[p]))
  }

  lemma {:induction false} GraftRpc(tograft: map<PeerId, seq<Topic>>, toprune: map<PeerId, seq<Topic>>, p: PeerId)
    requires p in tograft
    ensures GraftRpcs(tograft, toprune)[p] == AnswerTo(tograft, toprune, p)
  {
  }

  lemma {:induction false} PruneRpc(toprune: map<PeerId, seq<Topic>>, p: PeerId)
    requires p in toprune
    ensures PruneRpcs(toprune)[p] == ControlRpc([], [], Coalesced(toprune[p]))
  {
  }

  lemma {:induction false} GraftsAndPrunes(tograft: map<PeerId, seq<Topic>>, toprune: map<PeerId, seq<Topic>>)
    ensures GraftPruneRpcs(tograft, toprune) == GraftRpcs(tograft, toprune) + PruneRpcs(toprune - tograft.Keys)
  {
    NothingCoalesced();
    var l, r := GraftPruneRpcs(tograft, toprune), GraftRpcs(tograft, toprune) + PruneRpcs(toprune - tograft.Keys);
    assert l.Keys == r.Keys;
    forall p | p in l ensures l[p] == r[p] {
      if p in tograft {
      } else {
        assert At(tograft, p) == [];
      }
    }
  }

  lemma {:induction false} SentBoth(s: State, s1: State, s2: State, a: map<PeerId, Rpc>, b: map<PeerId, Rpc>)
    requires SentEach(s, s1, a) && SentEach(s1, s2, b) && a.Keys !! b.Keys
    ensures SentEach(s, s2, a + b)
  {
    hide Send;
    forall q
      ensures CellOf(s2, q) == if q in a + b then Send(s.mesh, q, CellOf(s, q), (a + b)[q]) else CellOf(s, q)
    {
      assert CellOf(s1, q) == if q in a then Send(s.mesh, q, CellOf(s, q), a[q]) else CellOf(s, q);
    }
  }

  /** The prunes that are left when all but `rest` have been sent their grafts. */
  predicate LeftOver(
      left: map<PeerId, seq<Topic>>, tograft: map<PeerId, seq<Topic>>, toprune: map<PeerId, seq<Topic>>,
      rest: set<PeerId>)
  {
    left == map p | p in toprune && (p in rest || p !in tograft) :: toprune[p]
  }

  lemma {:induction false} NoneTaken(tograft: map<PeerId, seq<Topic>>, toprune: map<PeerId, seq<Topic>>)
    ensures LeftOver(toprune, tograft, toprune, tograft.Keys)
  {
  }

  lemma {:induction false} OneMoreTaken(
      left: map<PeerId, seq<Topic>>, tograft: map<PeerId, seq<Topic>>, toprune: map<PeerId, seq<Topic>>,
      rest: set<PeerId>,
      p: PeerId)
    requires LeftOver(left, tograft, toprune, rest) && p in rest && p in tograft
    ensures LeftOver(left - {p}, tograft, toprune, rest - {p})
    ensures AnswerTo(tograft, left, p) == AnswerTo(tograft, toprune, p)
  {
    assert At(left, p) == At(toprune, p);
  }

  lemma {:induction false} AllTaken(
      left: map<PeerId, seq<Topic>>, tograft: map<PeerId, seq<Topic>>, toprune: map<PeerId, seq<Topic>>)
    requires LeftOver(left, tograft, toprune, {})
    ensures left == toprune - tograft.Keys
  {
  }

  lemma {:induction false} NothingCoalesced()
    ensures Coalesced([]) == []
  {
  }

  // ----- the cases of the two loops -----

  lemma {:induction false} Grown(o: Overlay, before: set<PeerId>, added: set<PeerId>, eligible: set<PeerId>)
    requires |before| < o.dlo && Picked(added, eligible - before, o.d - |before|)
    ensures MeshStep(o, before, before + added, eligible)
    ensures before + added - before == added && before - (before + added) == {}
  {
    assert before + added - before == added;
  }

  lemma {:induction false} Shrunk(o: Overlay, before: set<PeerId>, dropped: set<PeerId>, eligible: set<PeerId>)
    requires |before| > o.dhi && |before - dropped| == o.d && dropped <= before
    ensures MeshStep(o, before, before - dropped, eligible)
    ensures before - (before - dropped) == dropped && before - dropped - before == {}
  {
  }

  lemma {:induction false} Kept(o: Overlay, before: set<PeerId>, eligible: set<PeerId>)
    requires o.dlo <= |before| <= o.dhi
    ensures MeshStep(o, before, before, eligible) && before - before == {}
  {
  }

  lemma {:induction false} FanoutGrown(
      o: Overlay, before: set<PeerId>, added: set<PeerId>, known: set<PeerId>, eligible: set<PeerId>)
    requires |before * known| < o.d && Picked(added, eligible - before * known, o.d - |before * known|)
    ensures FanoutStep(o, before, before * known + added, known, eligible)
  {
    assert before * known + added - before * known == added;
  }

  lemma {:induction false} Enough(o: Overlay, before: set<PeerId>, known: set<PeerId>, eligible: set<PeerId>)
    requires |before * known| >= o.d
    ensures FanoutStep(o, before, before * known, known, eligible)
  {
  }

  // ----- fanout expiry -----

  /** Of the topics outside of `rest`, those that are stale are gone. */
  function Unexpired(o: Overlay, s: State, now: int, rest: set<Topic>): State {
    s.(fanout := map t | t in s.fanout && (t in rest || !IsStale(o, s, t, now)) :: s.fanout[t],
       lastpub := map t | t in s.lastpub && (t in rest || !IsStale(o, s, t, now)) :: s.lastpub[t])
  }

  lemma {:induction false} NoneExpired(o: Overlay, s: State, now: int)
    ensures Unexpired(o, s, now, s.lastpub.Keys) == s
  {
    var u := Unexpired(o, s, now, s.lastpub.Keys);
    assert u.fanout == s.fanout && u.lastpub == s.lastpub;
  }

  lemma {:induction false} OneMoreExpired(o: Overlay, s: State, now: int, rest: set<Topic>, t: Topic)
    requires t in rest && t in s.lastpub
    ensures var u := Unexpired(o, s, now, rest);
            t in u.lastpub && Unexpired(o, s, now, rest - {t}) ==
            if u.lastpub[t] + o.ttl < now then u.(fanout := u.fanout - {t}, lastpub := u.lastpub - {t}) else u
  {
    var u, v := Unexpired(o, s, now, rest), Unexpired(o, s, now, rest - {t});
    if u.lastpub[t] + o.ttl < now {
      assert v.fanout == u.fanout - {t} && v.lastpub == u.lastpub - {t};
    } else {
      assert v.fanout == u.fanout && v.lastpub == u.lastpub;
    }
  }

  lemma {:induction false} AllExpired(o: Overlay, s: State, now: int)
    ensures FanoutExpired(o, s, Unexpired(o, s, now, {}), now)
  {
  }
}
