/** No GRAFT or PRUNE that is still right gets lost, over every step of the router and every run of steps; and
  * when an RPC names all that it should. */
module Conservation {

  import opened Capacity
  import opened MessageCache
  import opened Options
  import opened Router
  import opened RouterRuns
  import opened RouterSafety

  /** The GRAFTs (`inside`) or the PRUNEs. */
  function Entries(pending: Pending, inside: bool): seq<Topic> {
    if inside then pending.graft else pending.prune
  }

  function Carried(r: Rpc, inside: bool): seq<Topic> {
    if inside then ControlOf(r).graft else ControlOf(r).prune
  }

  predicate IsPending(c: Cell, t: Topic, inside: bool) {
    c.control.Some? && t in Entries(c.control.value, inside)
  }

  /** The peer is going to be told: a retry is pending, or an RPC that says so is queued. */
  predicate Holds(c: Cell, t: Topic, inside: bool) {
    IsPending(c, t, inside) || (c.queue.Some? && exists r | r in c.queue.value :: t in Carried(r, inside))
  }

  lemma {:induction false} SendHolds(mesh: PeerSets, p: PeerId, c: Cell, out: Rpc, t: Topic, inside: bool)
    requires c.queue.Some? && InMesh(mesh, t, p) == inside && Holds(c, t, inside)
    ensures Holds(Send(mesh, p, c, out), t, inside)
  {
    SendConserves(mesh, p, c, out);
    var c' := Send(mesh, p, c, out);
    if IsPending(c, t, inside) {
      assert t in Fresh(mesh, p, Entries(c.control.value, inside), inside);
      if |c.queue.value| < PEER_QUEUE {
        assert c'.queue.value[|c.queue.value|] in c'.queue.value;
      }
    } else {
      var r :| r in c.queue.value && t in Carried(r, inside);
      assert r in c'.queue.value;
    }
  }

  /** An RPC that says so is sent. */
  lemma {:induction false} SentHolds(mesh: PeerSets, p: PeerId, c: Cell, out: Rpc, t: Topic, inside: bool)
    requires c.queue.Some? && t in Carried(out, inside)
    ensures Holds(Send(mesh, p, c, out), t, inside)
  {
    SendConserves(mesh, p, c, out);
    var c' := Send(mesh, p, c, out);
    if |c.queue.value| < PEER_QUEUE {
      assert c'.queue.value[|c.queue.value|] in c'.queue.value;
    }
  }

  lemma {:induction false} MoreQueueHolds(c: Cell, c': Cell, t: Topic, inside: bool)
    requires Holds(c, t, inside) && c.queue.Some? && c'.queue.Some? && c'.control == c.control
    requires c.queue.value <= c'.queue.value
    ensures Holds(c', t, inside)
  {
    if !IsPending(c, t, inside) {
      var r :| r in c.queue.value && t in Carried(r, inside);
      assert r in c'.queue.value;
    }
  }

  lemma {:induction false} FlushHolds(mesh: PeerSets, p: PeerId, c: Cell, t: Topic, inside: bool)
    requires c.queue.Some? && InMesh(mesh, t, p) == inside && Holds(c, t, inside)
    ensures Holds(Flushed(mesh, p, c), t, inside)
  {
    hide Send, Holds;
    var c1 := if c.gossip.Some? then Send(mesh, p, c.(gossip := None), ControlRpc(c.gossip.value, [], [])) else c;
    if c.gossip.Some? {
      WithoutGossip(c, t, inside);
      SendHolds(mesh, p, c.(gossip := None), ControlRpc(c.gossip.value, [], []), t, inside);
      SendKeepsQueue(mesh, p, c.(gossip := None), ControlRpc(c.gossip.value, [], []));
    }
    if c1.control.Some? {
      DrainHolds(mesh, p, c1, t, inside);
    }
  }

  lemma {:induction false} WithoutGossip(c: Cell, t: Topic, inside: bool)
    requires Holds(c, t, inside)
    ensures Holds(c.(gossip := None), t, inside)
  {
  }

  lemma {:induction false} SendKeepsQueue(mesh: PeerSets, p: PeerId, c: Cell, out: Rpc)
    requires c.queue.Some?
    ensures Send(mesh, p, c, out).queue.Some?
  {
  }

  lemma {:induction false} DrainHolds(mesh: PeerSets, p: PeerId, c: Cell, t: Topic, inside: bool)
    requires c.queue.Some? && c.control.Some? && InMesh(mesh, t, p) == inside && Holds(c, t, inside)
    ensures var out := ControlRpc([], c.control.value.graft, c.control.value.prune);
            Holds(Send(mesh, p, c.(control := None), out), t, inside)
  {
    hide Send;
    var out := ControlRpc([], c.control.value.graft, c.control.value.prune);
    if IsPending(c, t, inside) {
      SentHolds(mesh, p, c.(control := None), out, t, inside);
    } else {
      SendHolds(mesh, p, c.(control := None), out, t, inside);
    }
  }

  lemma {:induction false} SentEachHolds(
      s: State, s': State, out: map<PeerId, Rpc>, p: PeerId, t: Topic, inside: bool)
    requires SentEach(s, s', out) && p in s.peers && InMesh(s.mesh, t, p) == inside && Holds(CellOf(s, p), t, inside)
    ensures p in s'.peers && Holds(CellOf(s', p), t, inside)
  {
    hide Send, Holds;
    assert CellOf(s', p) == if p in out then Send(s.mesh, p, CellOf(s, p), out[p]) else CellOf(s, p);
    if p in out {
      SendHolds(s.mesh, p, CellOf(s, p), out[p], t, inside);
      SendKeepsQueue(s.mesh, p, CellOf(s, p), out[p]);
    }
  }

  lemma {:induction false} AnnounceHolds(s: State, s': State, u: Topic, on: bool, p: PeerId, t: Topic, inside: bool)
    requires Announces(s, s', u, on) && p in s.peers && Holds(CellOf(s, p), t, inside)
    ensures p in s'.peers && Holds(CellOf(s', p), t, inside) && s'.mesh == s.mesh
  {
    hide Holds;
    MoreQueueHolds(CellOf(s, p), CellOf(s', p), t, inside);
  }

  lemma {:induction false} JoinHolds(o: Overlay, s: State, s': State, u: Topic, p: PeerId, t: Topic, inside: bool)
    requires Joined(o, s, s', u) && p in s.peers && InMesh(s'.mesh, t, p) == inside && Holds(CellOf(s, p), t, inside)
    ensures p in s'.peers && Holds(CellOf(s', p), t, inside)
  {
    hide Holds, Picked, Eligible, JoinedWith;
    if u !in s.mesh {
      var ps :| JoinedWith(s, s', u, ps);
      JoinWithHolds(s, s', u, ps, p, t, inside);
    }
  }

  lemma {:induction false} JoinWithHolds(
      s: State, s': State, u: Topic, ps: set<PeerId>, p: PeerId, t: Topic, inside: bool)
    requires JoinedWith(s, s', u, ps) && p in s.peers
    requires InMesh(s'.mesh, t, p) == inside && Holds(CellOf(s, p), t, inside)
    ensures p in s'.peers && Holds(CellOf(s', p), t, inside)
  {
    hide Holds, SentEach;
    SentOnlySends(MeshStarted(s, u, ps), s', ToAll(ps, ControlRpc([], [u], [])));
    SameCell(s, MeshStarted(s, u, ps), p);
    SentEachHolds(MeshStarted(s, u, ps), s', ToAll(ps, ControlRpc([], [u], [])), p, t, inside);
  }

  lemma {:induction false} SameCell(s: State, s': State, p: PeerId)
    requires s'.peers == s.peers && s'.gossip == s.gossip && s'.control == s.control
    ensures CellOf(s', p) == CellOf(s, p)
  {
  }

  lemma {:induction false} SubscribeHolds(
      o: Overlay, s: State, s': State, u: Topic, sub: int, announced: State, joined: State, p: PeerId, t: Topic,
      inside: bool)
    requires SubscriptionAdded(o, s, s', u, sub, announced, joined) && p in s.peers
    requires InMesh(s'.mesh, t, p) == inside && Holds(CellOf(s, p), t, inside)
    ensures Holds(CellOf(s', p), t, inside)
  {
    hide Holds, Announces, Joined;
    if !HasSubs(s, u) {
      AnnounceHolds(s, announced, u, true, p, t, inside);
      JoinHolds(o, announced, joined, u, p, t, inside);
    }
    SameCell(joined, s', p);
  }

  lemma {:induction false} UnsubscribeHolds(
      s: State, s': State, u: Topic, sub: int, announced: State, p: PeerId, t: Topic, inside: bool)
    requires SubscriptionRemoved(s, s', u, sub, announced) && p in s.peers
    requires InMesh(s'.mesh, t, p) == inside && Holds(CellOf(s, p), t, inside)
    ensures Holds(CellOf(s', p), t, inside)
  {
    hide Holds, Announces, Left, CellOf;
    if u !in s.myTopics || s.myTopics[u] - {sub} != {} {
      SameCell(s, s', p);
    } else {
      var s0 := s.(myTopics := s.myTopics - {u});
      SameCell(s, s0, p);
      AnnounceHolds(s0, announced, u, false, p, t, inside);
      LeaveHolds(announced, s', u, p, t, inside);
    }
  }

  lemma {:induction false} LeaveHolds(s: State, s': State, u: Topic, p: PeerId, t: Topic, inside: bool)
    requires Left(s, s', u) && p in s.peers && InMesh(s'.mesh, t, p) == inside && Holds(CellOf(s, p), t, inside)
    ensures Holds(CellOf(s', p), t, inside)
  {
    hide Holds, Send;
    if u in s.mesh {
      var s0, out := s.(mesh := s.mesh - {u}), ToAll(s.mesh[u], ControlRpc([], [], [u]));
      SentOnlySends(s0, s', out);
      SameCell(s, s0, p);
      SentEachHolds(s0, s', out, p, t, inside);
    }
  }

  lemma {:induction false} PublishHolds(
      o: Overlay, s: State, s': State, from: PeerId, m: Msg, now: int, p: PeerId, t: Topic, inside: bool)
    requires Published(o, s, s', from, m, now) && p in s.peers
    requires InMesh(s.mesh, t, p) == inside && Holds(CellOf(s, p), t, inside)
    ensures Holds(CellOf(s', p), t, inside)
  {
    hide Holds, Send, FanoutChosen, Targets, PutEntry, SentEach;
    var fanout, lastpub :| FanoutChosen(o, s, FanoutTopics(s, m.topics), now, fanout, lastpub)
      && SentEach(
           s.(mcache := PutEntry(s.mcache, m), published := s.published + {m.id}, fanout := fanout, lastpub := lastpub),
           s', ToAll(Targets(s, fanout, m.topics) - {from, m.author}, MessageRpc(m)));
    var s1 := s.(mcache := PutEntry(s.mcache, m), published := s.published + {m.id}, fanout := fanout,
                 lastpub := lastpub);
    SameCell(s, s1, p);
    SentEachHolds(s1, s', ToAll(Targets(s, fanout, m.topics) - {from, m.author}, MessageRpc(m)), p, t, inside);
  }

  lemma {:induction false} HandleHolds(
      s: State, s': State, from: PeerId, ctl: Option<Control>, p: PeerId, t: Topic, inside: bool)
    requires Handled(s, s', from, ctl) && p in s.peers
    requires InMesh(s'.mesh, t, p) == inside && Holds(CellOf(s, p), t, inside)
    ensures Holds(CellOf(s', p), t, inside)
  {
    hide Holds, Send, Answers, AnswerRpcs, SentEach, Grafted;
    if ctl.Some? {
      var out :| Answers(s, ctl.value, out)
        && SentEach(s.(mesh := Grafted(s.mesh, from, ctl.value)), s', AnswerRpcs(from, out));
      var s1, rpcs := s.(mesh := Grafted(s.mesh, from, ctl.value)), AnswerRpcs(from, out);
      SentOnlySends(s1, s', rpcs);
      SameCell(s, s1, p);
      SentEachHolds(s1, s', rpcs, p, t, inside);
    }
  }

  lemma {:induction false} HeartbeatHolds(o: Overlay, s: State, s': State, b: Beat, p: PeerId, t: Topic, inside: bool)
    requires HeartbeatWith(o, s, s', b) && p in s.peers && InMesh(s.mesh, t, p) == inside
             && InMesh(s'.mesh, t, p) == inside
    requires Holds(CellOf(s, p), t, inside)
    ensures Holds(CellOf(s', p), t, inside)
  {
    hide Holds, Flushed, SentEach, GossipGrew, Moved, MeshStep, FanoutStep, GraftPruneRpcs;
    assert CellOf(b.flushed, p) == Flushed(s.mesh, p, CellOf(s, p));
    FlushHolds(s.mesh, p, CellOf(s, p), t, inside);
    FlushKeepsQueue(s.mesh, p, CellOf(s, p));
    GossipApart(b.flushed, b.refilled, p, t, inside);
    SentOnlySends(b.refilled, b.sent, GraftPruneRpcs(b.tograft, b.toprune));
    SentEachHolds(b.refilled, b.sent, GraftPruneRpcs(b.tograft, b.toprune), p, t, inside);
    SameCell(b.sent, s', p);
  }

  lemma {:induction false} FlushKeepsQueue(mesh: PeerSets, p: PeerId, c: Cell)
    requires c.queue.Some?
    ensures Flushed(mesh, p, c).queue.Some?
  {
  }

  lemma {:induction false} GossipApart(s: State, s': State, p: PeerId, t: Topic, inside: bool)
    requires s'.peers == s.peers && s'.control == s.control && Holds(CellOf(s, p), t, inside)
    ensures Holds(CellOf(s', p), t, inside)
  {
  }

  /** Over one step: if a GRAFT or PRUNE is pending for a peer that stays connected, and agrees with the mesh
    * before and after, then it is pending still or in an RPC on the peer's queue. */
  lemma {:induction false} ControlConserved(
      o: Overlay, s: State, e: Event, s': State, p: PeerId, t: Topic, inside: bool)
    requires Step(o, s, e, s') && p in s.peers && p in s'.peers && IsPending(CellOf(s, p), t, inside)
    requires InMesh(s.mesh, t, p) == inside && InMesh(s'.mesh, t, p) == inside
    ensures Holds(CellOf(s', p), t, inside)
  {
    hide Step, Holds, CellOf, IsPending, InMesh;
    PendingHolds(CellOf(s, p), t, inside);
    if IsRouterEvent(e) {
      RouterStepHolds(o, s, e, s', p, t, inside);
    } else {
      LoopStepKeepsPending(o, s, e, s', p);
      PendingStays(CellOf(s, p), CellOf(s', p), t, inside);
    }
  }

  lemma {:induction false} RouterStepHolds(o: Overlay, s: State, e: Event, s': State, p: PeerId, t: Topic, inside: bool)
    requires Step(o, s, e, s') && IsRouterEvent(e) && p in s.peers && Holds(CellOf(s, p), t, inside)
    requires InMesh(s.mesh, t, p) == inside && InMesh(s'.mesh, t, p) == inside
    ensures Holds(CellOf(s', p), t, inside)
  {
    hide SubscriptionAdded, SubscriptionRemoved, Published, Handled, HeartbeatWith, Holds, CellOf, InMesh;
    match e
    case Subscribe(u, sub, announced, joined) => SubscribeHolds(o, s, s', u, sub, announced, joined, p, t, inside);
    case Unsubscribe(u, sub, announced) => UnsubscribeHolds(s, s', u, sub, announced, p, t, inside);
    case Publish(from, m, now) => PublishHolds(o, s, s', from, m, now, p, t, inside);
    case Incoming(from, control) => HandleHolds(s, s', from, control, p, t, inside);
    case Heartbeat(beat) => HeartbeatHolds(o, s, s', beat, p, t, inside);
  }

  lemma {:induction false} PendingHolds(c: Cell, t: Topic, inside: bool)
    requires IsPending(c, t, inside)
    ensures Holds(c, t, inside)
  {
  }

  lemma {:induction false} PendingStays(c: Cell, c': Cell, t: Topic, inside: bool)
    requires IsPending(c, t, inside) && c'.control == c.control
    ensures Holds(c', t, inside)
  {
  }

  lemma {:induction false} LoopStepKeepsPending(o: Overlay, s: State, e: Event, s': State, p: PeerId)
    requires Step(o, s, e, s') && !IsRouterEvent(e) && p in s'.peers
    ensures CellOf(s', p).control == CellOf(s, p).control
  {
    hide Without;
  }

  /** Over a run: as long as the peer stays connected and the entry right, it is pending still, or some step on
    * the way put it on the peer's queue. */
  lemma {:induction false} ControlReaches(
      o: Overlay, states: seq<State>, events: seq<Event>, i: nat, j: nat, p: PeerId, t: Topic, inside: bool)
    requires IsRun(o, states, events) && i <= j < |states| && IsPending(CellOf(states[i], p), t, inside)
    requires forall k | i <= k <= j :: p in states[k].peers && InMesh(states[k].mesh, t, p) == inside
    ensures IsPending(CellOf(states[j], p), t, inside)
            || exists k :: i < k <= j && exists r | r in states[k].peers[p] :: t in Carried(r, inside)
    decreases j
  {
    hide Step, IsPending;
    if i < j {
      ControlReaches(o, states, events, i, j - 1, p, t, inside);
      if IsPending(CellOf(states[j - 1], p), t, inside) {
        ControlConserved(o, states[j - 1], events[j - 1], states[j], p, t, inside);
      }
    }
  }

  // ----- what is written into an RPC in the first place -----

  predicate AtMostOne(ts: seq<Topic>) {
    forall t, u | t in ts && u in ts :: t == u
  }

  lemma {:induction false} CoalescedNamesAllIff(ts: seq<Topic>)
    ensures (forall t :: t in Coalesced(ts) <==> t in ts) <==> AtMostOne(ts)
  {
    if ts != [] {
      var last := ts[|ts| - 1];
      assert Coalesced(ts)[0] == last && last in ts;
      forall t ensures t in Coalesced(ts) <==> t == last {
        assert Coalesced(ts)[0] in Coalesced(ts);
      }
    }
  }

  /** The topics whose meshes the peer enters. */
  predicate Enters(before: PeerSets, after: PeerSets, t: Topic, p: PeerId) {
    InMesh(after, t, p) && !InMesh(before, t, p)
  }

  ghost predicate EntersAtMostOne(before: PeerSets, after: PeerSets, p: PeerId) {
    forall t, u | Enters(before, after, t, p) && Enters(before, after, u, p) :: t == u
  }

  lemma {:induction false} MovedNamesAllIff(
      lists: map<PeerId, seq<Topic>>, before: PeerSets, after: PeerSets, p: PeerId)
    requires Moved(lists, before, after)
    ensures (forall t :: t in Coalesced(At(lists, p)) <==> Enters(before, after, t, p))
            <==> EntersAtMostOne(before, after, p)
  {
    CoalescedNamesAllIff(At(lists, p));
    hide At, Coalesced;
    forall t ensures t in At(lists, p) <==> Enters(before, after, t, p) {}
    assert AtMostOne(At(lists, p)) <==> EntersAtMostOne(before, after, p);
  }

  /** The RPC of a heartbeat tells a peer of every mesh it has entered exactly if that is at most one; and the
    * same for the meshes it has left. */
  lemma {:induction false} HeartbeatNamesAllIff(o: Overlay, s: State, s': State, b: Beat, p: PeerId)
    requires HeartbeatWith(o, s, s', b) && p in GraftPruneRpcs(b.tograft, b.toprune)
    ensures var ctl := ControlOf(GraftPruneRpcs(b.tograft, b.toprune)[p]);
            && ((forall t :: t in ctl.graft <==> Enters(s.mesh, s'.mesh, t, p))
                <==> EntersAtMostOne(s.mesh, s'.mesh, p))
            && ((forall t :: t in ctl.prune <==> Enters(s'.mesh, s.mesh, t, p))
                <==> EntersAtMostOne(s'.mesh, s.mesh, p))
  {
    hide Moved, GossipGrew, MeshStep, FanoutStep, Coalesced, EntersAtMostOne, Enters;
    SentOnlySends(b.refilled, b.sent, GraftPruneRpcs(b.tograft, b.toprune));
    MovedNamesAllIff(b.tograft, s.mesh, s'.mesh, p);
    MovedNamesAllIff(b.toprune, s'.mesh, s.mesh, p);
  }

  /** The answer to GRAFTs names every topic refused exactly if there is at most one. */
  lemma {:induction false} AnswerNamesAllIff(s: State, ctl: Control, out: Rpc)
    requires Answers(s, ctl, out)
    ensures (forall t :: t in ControlOf(out).prune <==> t in ctl.graft && t !in s.mesh) <==>
            forall t, u | t in ctl.graft && t !in s.mesh && u in ctl.graft && u !in s.mesh :: t == u
  {
    CoalescedNamesAllIff(Refused(s.mesh, ctl.graft));
    hide Coalesced, MessagesOf, Served, Wanted;
    assert forall t :: t in Refused(s.mesh, ctl.graft) <==> t in ctl.graft && t !in s.mesh;
  }
}
