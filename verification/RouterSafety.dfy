/** What every step of the router keeps, over whole runs. */
module RouterSafety {

  import opened Capacity
  import opened MessageCache
  import opened Options
  import opened Router

  // ----- control messages never contradict -----

  predicate Consistent(graft: seq<Topic>, prune: seq<Topic>) {
    forall t | t in graft :: t !in prune
  }

  predicate RpcOk(r: Rpc) {
    Consistent(ControlOf(r).graft, ControlOf(r).prune)
  }

  predicate CellOk(c: Cell) {
    && (c.queue.Some? ==> forall r | r in c.queue.value :: RpcOk(r))
    && (c.control.Some? ==> Consistent(c.control.value.graft, c.control.value.prune))
  }

  /** The control entries say what the mesh says. */
  predicate Agrees(mesh: PeerSets, p: PeerId, r: Rpc) {
    && (forall t | t in ControlOf(r).graft :: InMesh(mesh, t, p))
    && (forall t | t in ControlOf(r).prune :: !InMesh(mesh, t, p))
  }

  lemma {:induction false} SendKeepsOk(mesh: PeerSets, p: PeerId, c: Cell, out: Rpc)
    requires CellOk(c) && (Agrees(mesh, p, out) || (c.control.None? && RpcOk(out)))
    ensures CellOk(Send(mesh, p, c, out))
  {
    var loaded := Loaded(mesh, p, c, out);
    assert RpcOk(loaded);
    if c.queue.Some? {
      assert forall r | r in c.queue.value + [loaded] :: r in c.queue.value || r == loaded;
    }
  }

  lemma {:induction false} FlushKeepsOk(mesh: PeerSets, p: PeerId, c: Cell)
    requires CellOk(c)
    ensures CellOk(Flushed(mesh, p, c)) && Flushed(mesh, p, c).gossip == None
  {
    hide Send;
    var c1 := c;
    if c.gossip.Some? {
      var c0 := c.(gossip := None);
      SendKeepsOk(mesh, p, c0, ControlRpc(c.gossip.value, [], []));
      SendTakesGossip(mesh, p, c0, ControlRpc(c.gossip.value, [], []));
      c1 := Send(mesh, p, c0, ControlRpc(c.gossip.value, [], []));
    }
    if c1.control.Some? {
      var out := ControlRpc([], c1.control.value.graft, c1.control.value.prune);
      SendKeepsOk(mesh, p, c1.(control := None), out);
      SendTakesGossip(mesh, p, c1.(control := None), out);
    }
  }

  lemma {:induction false} SendTakesGossip(mesh: PeerSets, p: PeerId, c: Cell, out: Rpc)
    ensures Send(mesh, p, c, out).gossip == None
  {
  }

  ghost predicate CellsOk(s: State) {
    forall p :: CellOk(CellOf(s, p))
  }

  /** Sending RPCs that agree with the mesh keeps every queue and every pending retry free of
    * contradictions, and takes gossip away at most. */
  lemma {:induction false} SentEachKeeps(s: State, s': State, out: map<PeerId, Rpc>)
    requires CellsOk(s) && SentEach(s, s', out)
    requires forall p | p in out :: Agrees(s.mesh, p, out[p])
    ensures CellsOk(s')
    ensures forall p | p in s'.gossip :: p in s.gossip && s'.gossip[p] == s.gossip[p]
  {
    hide Send;
    forall p
      ensures CellOk(CellOf(s', p)) && CellOf(s', p).gossip in {None, CellOf(s, p).gossip}
    {
      assert CellOk(CellOf(s, p));
      if p in out {
        SendKeepsOk(s.mesh, p, CellOf(s, p), out[p]);
        SendTakesGossip(s.mesh, p, CellOf(s, p), out[p]);
      }
    }
    forall p | p in s'.gossip
      ensures p in s.gossip && s'.gossip[p] == s.gossip[p]
    {
      assert CellOf(s', p).gossip in {None, CellOf(s, p).gossip};
    }
  }

  lemma {:induction false} SentOnlySends(s: State, s': State, out: map<PeerId, Rpc>)
    requires SentEach(s, s', out)
    ensures s' == s.(peers := s'.peers, gossip := s'.gossip, control := s'.control)
  {
  }

  // ----- what is sent is conserved -----

  /** Every GRAFT and PRUNE of an RPC, and every pending one that still agrees with the mesh, leaves with
    * the RPC or, if the queue is full, is pending again; the messages of the RPC leave or are dropped. */
  lemma {:induction false} SendConserves(mesh: PeerSets, p: PeerId, c: Cell, out: Rpc)
    requires c.queue.Some?
    ensures var pending := if c.control.Some? then c.control.value else Pending([], []);
            var graft := ControlOf(out).graft + Fresh(mesh, p, pending.graft, true);
            var prune := ControlOf(out).prune + Fresh(mesh, p, pending.prune, false);
            var c' := Send(mesh, p, c, out);
            if |c.queue.value| < PEER_QUEUE then
              && c'.control == None && c'.queue.Some? && |c'.queue.value| == |c.queue.value| + 1
              && c'.queue.value[..|c.queue.value|] == c.queue.value
              && var sent := c'.queue.value[|c.queue.value|];
                 && ControlOf(sent).graft == graft && ControlOf(sent).prune == prune
                 && ControlOf(sent).iwant == ControlOf(out).iwant
                 && sent.publish == out.publish && sent.subscriptions == out.subscriptions
                 && ControlOf(sent).ihave == if c.gossip.Some? then c.gossip.value else ControlOf(out).ihave
            else
              && c'.queue == c.queue
              && (if c'.control.Some? then c'.control.value else Pending([], [])) == Pending(graft, prune)
  {
    if c.control.Some? {
      assert ControlOf(out).graft + [] == ControlOf(out).graft && ControlOf(out).prune + [] == ControlOf(out).prune;
    }
  }

  /** The RPCs a peer's queue gained. */
  function Gained(c: Cell, c': Cell): seq<Rpc> {
    if c.queue.Some? && c'.queue.Some? && |c.queue.value| <= |c'.queue.value|
    then c'.queue.value[|c.queue.value|..] else []
  }

  /** flush loses no GRAFT or PRUNE that agrees with the mesh, and the pending IHAVEs leave whole in the
    * first RPC, if there is room, overwritten by nothing. */
  lemma {:induction false} FlushConserves(mesh: PeerSets, p: PeerId, c: Cell, t: Topic)
    requires c.queue.Some?
    ensures var pending := if c.control.Some? then c.control.value else Pending([], []);
            var c' := Flushed(mesh, p, c);
            var left := if c'.control.Some? then c'.control.value else Pending([], []);
            && (t in pending.graft && InMesh(mesh, t, p) ==>
                  t in left.graft || exists r | r in Gained(c, c') :: t in ControlOf(r).graft)
            && (t in pending.prune && !InMesh(mesh, t, p) ==>
                  t in left.prune || exists r | r in Gained(c, c') :: t in ControlOf(r).prune)
            && (c.gossip.Some? && |c.queue.value| < PEER_QUEUE ==>
                  |Gained(c, c')| == 1 && ControlOf(Gained(c, c')[0]).ihave == c.gossip.value)
  {
    var c' := Flushed(mesh, p, c);
    if c.gossip.Some? {
      var c0, out := c.(gossip := None), ControlRpc(c.gossip.value, [], []);
      SendConserves(mesh, p, c0, out);
      if |c.queue.value| < PEER_QUEUE {
        assert c' == Send(mesh, p, c0, out);
        assert Gained(c, c') == [c'.queue.value[|c.queue.value|]];
        assert Gained(c, c')[0] in Gained(c, c');
      } else {
        var c1 := Send(mesh, p, c0, out);
        if c1.control.Some? {
          SendConserves(mesh, p, c1.(control := None), ControlRpc([], c1.control.value.graft, c1.control.value.prune));
        }
      }
    } else if c.control.Some? {
      SendConserves(mesh, p, c.(control := None), ControlRpc([], c.control.value.graft, c.control.value.prune));
      if |c.queue.value| < PEER_QUEUE {
        assert Gained(c, c') == [c'.queue.value[|c.queue.value|]];
        assert Gained(c, c')[0] in Gained(c, c');
      }
    }
  }

  // ----- the cache -----

  predicate EntryAt(c: Cache, i: int, k: int) {
    0 <= i < |c.history| && 0 <= k < |c.history[i]|
  }

  function MidAt(c: Cache, i: int, k: int): Mid
    requires EntryAt(c, i, k)
  {
    c.history[i][k].mid
  }

  /** Each id stands once in the history, which holds exactly the cached ids; and a cached message goes
    * by its own id. */
  ghost predicate CacheOk(c: Cache, published: set<Mid>) {
    && WellFormed(c) && c.gossip < |c.history|
    && (forall i, k, j, l | EntryAt(c, i, k) && EntryAt(c, j, l) && MidAt(c, i, k) == MidAt(c, j, l) ::
          i == j && k == l)
    && (forall i, k | EntryAt(c, i, k) :: MidAt(c, i, k) in c.msgs && MidAt(c, i, k) in published)
    && (forall mid | mid in c.msgs :: c.msgs[mid].id == mid)
  }

  /** The ids of the slots that gossip may still be pending for. */
  ghost predicate Recent(c: Cache, slots: int, mid: Mid) {
    exists i, k :: EntryAt(c, i, k) && i < slots && MidAt(c, i, k) == mid
  }

  lemma {:induction false} PutKeepsCache(c: Cache, published: set<Mid>, m: Msg)
    requires CacheOk(c, published) && m.id !in published
    ensures CacheOk(PutEntry(c, m), published + {m.id})
    ensures forall n, mid | Recent(c, n, mid) :: Recent(PutEntry(c, m), n, mid)
  {
    var c' := PutEntry(c, m);
    var n := |c.history[0]|;
    forall i, k | EntryAt(c', i, k)
      ensures if EntryAt(c, i, k) then MidAt(c', i, k) == MidAt(c, i, k)
              else i == 0 && k == n && MidAt(c', i, k) == m.id
    {
    }
    forall i, k | EntryAt(c, i, k)
      ensures EntryAt(c', i, k) && MidAt(c', i, k) == MidAt(c, i, k)
    {
    }
  }

  lemma {:induction false} ShiftKeepsCache(c: Cache, published: set<Mid>)
    requires CacheOk(c, published)
    ensures CacheOk(Shifted(c), published)
    ensures forall mid | Recent(c, c.gossip, mid) :: Recent(Shifted(c), c.gossip + 1, mid)
  {
    var c', n := Shifted(c), |c.history| - 1;
    forall i, k | EntryAt(c', i, k)
      ensures EntryAt(c, i - 1, k) && MidAt(c', i, k) == MidAt(c, i - 1, k) && MidAt(c', i, k) !in Ids(c.history[n])
    {
      assert c'.history[i] == c.history[i - 1];
      forall l | 0 <= l < |c.history[n]|
        ensures c.history[n][l].mid != MidAt(c, i - 1, k)
      {
        assert EntryAt(c, n, l) && EntryAt(c, i - 1, k);
      }
    }
    forall i, k | EntryAt(c, i, k) && i < n
      ensures EntryAt(c', i + 1, k) && MidAt(c', i + 1, k) == MidAt(c, i, k)
    {
      assert c'.history[i + 1] == c.history[i];
    }
  }

  lemma {:induction false} AdvertisedIsRecent(c: Cache, topic: Topic, mid: Mid)
    requires WellFormed(c) && mid in GossipIds(c, topic)
    ensures Recent(c, c.gossip, mid)
  {
    var i, k := FindEntry(c.history[..c.gossip], topic, mid);
    assert EntryAt(c, i, k) && MidAt(c, i, k) == mid;
  }

  lemma {:induction false} FindEntry(slots: seq<seq<Entry>>, topic: Topic, mid: Mid) returns (i: nat, k: nat)
    requires mid in SlotsIds(slots, topic)
    ensures i < |slots| && k < |slots[i]| && slots[i][k].mid == mid
  {
    var n := |slots| - 1;
    if mid in SlotIds(slots[n], topic) {
      i := n;
      k := FindInSlot(slots[n], topic, mid);
    } else {
      i, k := FindEntry(slots[..n], topic, mid);
    }
  }

  lemma {:induction false} FindInSlot(slot: seq<Entry>, topic: Topic, mid: Mid) returns (k: nat)
    requires mid in SlotIds(slot, topic)
    ensures k < |slot| && slot[k].mid == mid
  {
    k := |slot| - 1;
    if slot[k].mid != mid || topic !in slot[k].topics {
      k := FindInSlot(slot[..|slot| - 1], topic, mid);
    }
  }

  // ----- the invariant -----

  /** Mesh and subscriptions agree, mesh and fanout are apart, and fanout has a publish time. */
  ghost predicate SetsOk(s: State) {
    && s.mesh.Keys == s.myTopics.Keys
    && (forall t | t in s.myTopics :: s.myTopics[t] != {})
    && (forall t | t in s.fanout :: t !in s.mesh && t in s.lastpub)
  }

  /** Every id in pending gossip is among the cached ones, of the first `slots` slots. */
  ghost predicate GossipOk(s: State, slots: int) {
    forall p, i, mid | p in s.gossip && 0 <= i < |s.gossip[p]| && mid in s.gossip[p][i].mids ::
      Recent(s.mcache, slots, mid)
  }

  ghost predicate Inv(s: State) {
    CellsOk(s) && SetsOk(s) && CacheOk(s.mcache, s.published) && GossipOk(s, s.mcache.gossip + 1)
  }

  /** What the invariant means for a peer that was sent gossip: whatever is still pending can be asked for. */
  lemma {:induction false} PendingGossipIsServable(s: State, p: PeerId, i: nat, mid: Mid, ctl: Control)
    requires Inv(s) && p in s.gossip && i < |s.gossip[p]| && mid in s.gossip[p][i].mids
    requires exists ids :: ids in ctl.iwant && mid in ids
    ensures mid in Served(s.mcache, ctl)
  {
    assert Recent(s.mcache, s.mcache.gossip + 1, mid);
    var ids :| ids in ctl.iwant && mid in ids;
    var n :| 0 <= n < |ctl.iwant| && ctl.iwant[n] == ids;
    assert mid in ctl.iwant[n];
  }

  lemma {:induction false} Initially(gossip: nat, history: nat)
    requires gossip < history
    ensures Inv(Initial(gossip, history))
  {
  }

  function Initial(gossip: nat, history: nat): State {
    State(map[], map[], map[], map[], map[], map[], Cache(map[], seq(history, _ => []), gossip),
          map[], map[], map[], {}, {})
  }

  // ----- every step keeps it -----

  lemma {:induction false} SameCells(s: State, s': State)
    requires CellsOk(s) && s'.peers == s.peers && s'.gossip == s.gossip && s'.control == s.control
    ensures CellsOk(s')
  {
    forall p ensures CellOf(s', p) == CellOf(s, p) {}
  }

  lemma {:induction false} AnnounceKeeps(s: State, s': State, t: Topic, subscribe: bool)
    requires CellsOk(s) && Announces(s, s', t, subscribe)
    ensures CellsOk(s')
  {
    forall p ensures CellOk(CellOf(s', p)) {
      assert CellOk(CellOf(s, p));
      if p in s.peers {
        var r := Rpc([(t, subscribe)], [], None);
        assert forall q | q in s.peers[p] + [r] :: q in s.peers[p] || q == r;
      }
    }
  }

  lemma {:induction false} SubscribeKeepsInv(
      o: Overlay, s: State, s': State, t: Topic, sub: int, announced: State, joined: State)
    requires Inv(s) && SubscriptionAdded(o, s, s', t, sub, announced, joined)
    ensures Inv(s')
  {
    if t in s.myTopics {
      hide Recent, CacheOk, CellsOk;
      SameCells(s, s');
    } else {
      hide Recent, CacheOk, CellsOk, GossipOk, Announces, JoinedWith;
      assert announced.mesh == s.mesh by {
        AnnounceOnlySends(s, announced, t, true);
      }
      var peers :| JoinedWith(announced, joined, t, peers);
      FirstSubscribeKeepsInv(s, announced, joined, s', t, sub, peers);
    }
  }

  lemma {:induction false} AnnounceOnlySends(s: State, s': State, t: Topic, subscribe: bool)
    requires Announces(s, s', t, subscribe)
    ensures s' == s.(peers := s'.peers)
  {
  }

  /** The cache and the publications stay, and gossip is taken away at most. */
  lemma {:induction false} InvFollows(s: State, s': State)
    requires Inv(s) && CellsOk(s') && SetsOk(s') && s'.mcache == s.mcache && s'.published == s.published
    requires forall p | p in s'.gossip :: p in s.gossip && s'.gossip[p] == s.gossip[p]
    ensures Inv(s')
  {
    hide CellsOk, SetsOk, CacheOk, Recent;
  }

  /** The first subscription starts the mesh and takes the fanout away. */
  lemma {:induction false} StartedKeepsSets(s: State, s': State, t: Topic, sub: int, peers: set<PeerId>)
    requires SetsOk(s) && s'.myTopics == s.myTopics[t := {} + {sub}]
    requires s'.mesh == MeshStarted(s, t, peers).mesh && s'.fanout == MeshStarted(s, t, peers).fanout
    requires s'.lastpub == MeshStarted(s, t, peers).lastpub
    ensures SetsOk(s')
  {
  }

  lemma {:induction false} FirstSubscribeKeepsInv(
      s: State, announced: State, joined: State, s': State, t: Topic, sub: int, peers: set<PeerId>)
    requires Inv(s) && t !in s.myTopics && Announces(s, announced, t, true) && JoinedWith(announced, joined, t, peers)
    requires s' == joined.(myTopics := joined.myTopics[t := {} + {sub}])
    ensures Inv(s')
  {
    AnnounceKeeps(s, announced, t, true);
    AnnounceOnlySends(s, announced, t, true);
    hide CellsOk, CacheOk, SetsOk, GossipOk, Send, Announces;
    var s1 := MeshStarted(announced, t, peers);
    SameCells(announced, s1);
    SentEachKeeps(s1, joined, ToAll(peers, ControlRpc([], [t], [])));
    SameCells(joined, s');
    StartedKeepsSets(s, s', t, sub, peers);
    InvFollows(s, s');
  }

  lemma {:induction false} UnsubscribeKeepsInv(s: State, s': State, t: Topic, sub: int, announced: State)
    requires Inv(s) && SubscriptionRemoved(s, s', t, sub, announced)
    ensures Inv(s')
  {
    hide Recent, CacheOk, Send, SentEach, Announces;
    if t in s.myTopics {
      if s.myTopics[t] - {sub} != {} {
        SameCells(s, s');
      } else {
        LastUnsubscribeKeepsInv(s, s', t, announced);
      }
    }
  }

  /** The last subscription goes, and with it the mesh. */
  lemma {:induction false} LeftKeepsSets(s: State, s': State, t: Topic)
    requires SetsOk(s) && s'.myTopics == s.myTopics - {t} && s'.mesh == s.mesh - {t}
    requires s'.fanout == s.fanout && s'.lastpub == s.lastpub
    ensures SetsOk(s')
  {
  }

  lemma {:induction false} LastUnsubscribeKeepsInv(s: State, s': State, t: Topic, announced: State)
    requires Inv(s) && t in s.myTopics && Announces(s.(myTopics := s.myTopics - {t}), announced, t, false)
    requires Left(announced, s', t)
    ensures Inv(s')
  {
    var s0 := s.(myTopics := s.myTopics - {t});
    hide CellsOk, CacheOk, GossipOk, Send, Announces;
    SameCells(s, s0);
    AnnounceKeeps(s0, announced, t, false);
    AnnounceOnlySends(s0, announced, t, false);
    assert t in s.mesh.Keys;
    hide SetsOk;
    var s1 := announced.(mesh := announced.mesh - {t});
    SameCells(announced, s1);
    SentEachKeeps(s1, s', ToAll(announced.mesh[t], ControlRpc([], [], [t])));
    LeftKeepsSets(s, s', t);
    InvFollows(s, s');
  }

  lemma {:induction false} FanoutChosenKeepsSets(
      o: Overlay, s: State, topics: set<Topic>, now: int, fanout: PeerSets, lastpub: map<Topic, int>)
    requires SetsOk(s) && topics !! s.mesh.Keys && FanoutChosen(o, s, topics, now, fanout, lastpub)
    ensures SetsOk(s.(fanout := fanout, lastpub := lastpub))
  {
    hide Picked, Eligible;
  }

  lemma {:induction false} PublishKeepsInv(o: Overlay, s: State, s': State, from: PeerId, m: Msg, now: int)
    requires Inv(s) && m.id !in s.published && Published(o, s, s', from, m, now)
    ensures Inv(s')
  {
    hide Recent, CacheOk, CellsOk, SetsOk, FanoutChosen, Targets, PutEntry, Send;
    var fanout, lastpub :| FanoutChosen(o, s, FanoutTopics(s, m.topics), now, fanout, lastpub)
      && SentEach(
           s.(mcache := PutEntry(s.mcache, m), published := s.published + {m.id}, fanout := fanout, lastpub := lastpub),
           s', ToAll(Targets(s, fanout, m.topics) - {from, m.author}, MessageRpc(m)));
    var s1 := s.(mcache := PutEntry(s.mcache, m), published := s.published + {m.id}, fanout := fanout,
                 lastpub := lastpub);
    FanoutChosenKeepsSets(o, s, FanoutTopics(s, m.topics), now, fanout, lastpub);
    PutKeepsCache(s.mcache, s.published, m);
    SameCells(s, s1);
    SentEachKeeps(s1, s', ToAll(Targets(s, fanout, m.topics) - {from, m.author}, MessageRpc(m)));
    SameSets(s.(fanout := fanout, lastpub := lastpub), s');
    PutKeepsGossip(s.mcache, m);
  }

  lemma {:induction false} PutKeepsGossip(c: Cache, m: Msg)
    requires WellFormed(c)
    ensures PutEntry(c, m).gossip == c.gossip
  {
  }

  lemma {:induction false} SameSets(s: State, s': State)
    requires SetsOk(s) && s'.mesh == s.mesh && s'.fanout == s.fanout && s'.lastpub == s.lastpub
             && s'.myTopics == s.myTopics
    ensures SetsOk(s')
  {
  }

  lemma {:induction false} AnswerAgrees(s: State, from: PeerId, ctl: Control, out: Rpc)
    requires Answers(s, ctl, out)
    ensures Agrees(Grafted(s.mesh, from, ctl), from, out)
  {
  }

  lemma {:induction false} GraftedKeepsSets(s: State, s': State, from: PeerId, ctl: Control)
    requires SetsOk(s) && s'.mesh == Grafted(s.mesh, from, ctl)
    requires s'.fanout == s.fanout && s'.lastpub == s.lastpub && s'.myTopics == s.myTopics
    ensures SetsOk(s')
  {
    assert s'.mesh.Keys == s.mesh.Keys;
  }

  lemma {:induction false} HandleKeepsInv(s: State, s': State, from: PeerId, ctl: Option<Control>)
    requires Inv(s) && Handled(s, s', from, ctl)
    ensures Inv(s')
  {
    hide SetsOk, GossipOk, CacheOk, Answers, Send, CellsOk, Agrees, Grafted;
    if ctl.Some? {
      var s1 := s.(mesh := Grafted(s.mesh, from, ctl.value));
      var out :| Answers(s, ctl.value, out)
        && SentEach(s1, s', AnswerRpcs(from, out));
      SameCells(s, s1);
      AnswerAgrees(s, from, ctl.value, out);
      SentEachKeeps(s1, s', AnswerRpcs(from, out));
      GraftedKeepsSets(s, s', from, ctl.value);
      InvFollows(s, s');
    }
  }

  lemma {:induction false} RemoveKeepsInv(s: State, s': State, p: PeerId)
    requires Inv(s) && PeerRemoved(s, s', p)
    ensures Inv(s')
  {
    hide Recent, CacheOk;
    forall q ensures CellOk(CellOf(s', q)) {
      assert CellOk(CellOf(s, q));
    }
  }

  // ----- the heartbeat -----

  lemma {:induction false} FlushKeeps(s: State, s': State)
    requires CellsOk(s) && FlushedAll(s, s')
    ensures CellsOk(s') && s'.gossip == map[]
  {
    hide Flushed;
    forall p
      ensures CellOk(CellOf(s', p)) && CellOf(s', p).gossip == None
    {
      assert CellOk(CellOf(s, p));
      FlushKeepsOk(s.mesh, p, CellOf(s, p));
    }
    forall p ensures p !in s'.gossip {
      assert CellOf(s', p).gossip == None;
    }
  }

  lemma {:induction false} AnnouncementsAreRecent(o: Overlay, s: State, s': State, sets: PeerSets)
    requires WellFormed(s.mcache) && s'.mcache == s.mcache
    requires GossipOk(s, s.mcache.gossip) && GossipGrew(o, s, sets, s'.gossip)
    ensures GossipOk(s', s.mcache.gossip)
  {
    hide GossipPicked, Moved, GossipIds, Recent;
    var chosen, lists :| GossipEmitted(o, s, sets, chosen, lists, s'.gossip);
    forall p, i, mid | p in s'.gossip && 0 <= i < |s'.gossip[p]| && mid in s'.gossip[p][i].mids
      ensures Recent(s.mcache, s.mcache.gossip, mid)
    {
      if p in s.gossip && i < |s.gossip[p]| {
        assert s'.gossip[p][i] == s.gossip[p][i];
      } else {
        AdvertisedIsRecent(s.mcache, s'.gossip[p][i].topic, mid);
      }
    }
  }

  lemma {:induction false} GrowthKeepsCells(s: State, s': State)
    requires CellsOk(s) && s'.peers == s.peers && s'.control == s.control
    ensures CellsOk(s')
  {
    forall p ensures CellOk(CellOf(s', p)) {
      assert CellOk(CellOf(s, p));
    }
  }

  /** What sendGraftPrune sends agrees with the mesh that the heartbeat made. */
  lemma {:induction false} GraftPruneAgrees(
      before: PeerSets, after: PeerSets, tograft: map<PeerId, seq<Topic>>, toprune: map<PeerId, seq<Topic>>, p: PeerId)
    requires Moved(tograft, before, after) && Moved(toprune, after, before)
    requires p in GraftPruneRpcs(tograft, toprune)
    ensures Agrees(after, p, GraftPruneRpcs(tograft, toprune)[p])
  {
  }

  lemma {:induction false} HeartbeatKeepsInv(o: Overlay, s: State, s': State, b: Beat)
    requires Inv(s) && HeartbeatWith(o, s, s', b)
    ensures Inv(s')
  {
    hide CellsOk, CacheOk, Recent, Moved, MeshStep, FanoutStep, GossipGrew;
    CacheIsWellFormed(s);
    FlushKeeps(s, b.flushed);
    AnnouncementsAreRecent(o, b.flushed, b.maintained, b.maintained.mesh);
    GrowthKeepsCells(b.flushed, b.maintained);
    SameCells(b.maintained, b.expired);
    AnnouncementsAreRecent(o, b.expired, b.refilled, b.refilled.fanout);
    GrowthKeepsCells(b.expired, b.refilled);
    var out := GraftPruneRpcs(b.tograft, b.toprune);
    forall p | p in out ensures Agrees(b.refilled.mesh, p, out[p]) {
      GraftPruneAgrees(b.flushed.mesh, b.maintained.mesh, b.tograft, b.toprune, p);
    }
    hide Agrees;
    SentEachKeeps(b.refilled, b.sent, out);
    ShiftKeepsCache(s.mcache, s.published);
    SameCells(b.sent, s');
    forall p, i, mid | p in s'.gossip && 0 <= i < |s'.gossip[p]| && mid in s'.gossip[p][i].mids
      ensures Recent(s'.mcache, s'.mcache.gossip + 1, mid)
    {
      assert Recent(s.mcache, s.mcache.gossip, mid);
    }
  }

  lemma {:induction false} CacheIsWellFormed(s: State)
    requires CacheOk(s.mcache, s.published)
    ensures WellFormed(s.mcache)
  {
  }
}
