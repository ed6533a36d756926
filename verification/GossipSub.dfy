/** GossipSubRouter (gossipsub.go): the router with its maps updated in place. Each method is proved to
  * do what the module Router says of its operation.
  *
  * A map is iterated over a snapshot of its keys, in an order that is left open.
  */
module GossipSub {

  import opened Capacity
  import opened MessageCache
  import opened Options
  import opened Router
  import opened Sending
  import opened Listing
  import opened Fanout
  import opened Handling
  import opened HeartbeatSteps

  /** A peer's queue after an announcement. */
  function WithAnnouncement(queue: seq<Rpc>, topic: Topic, sub: bool): seq<Rpc> {
    if |queue| < PEER_QUEUE then queue + [Rpc([(topic, sub)], [], None)] else queue
  }

  /** The part of PubSub that the router works on. A peer's channel is its queue. */
  class PubSub {
    var peers: map<PeerId, seq<Rpc>>
    var topics: PeerSets
    var myTopics: map<Topic, set<int>>
    var seenMessages: set<Mid>

    constructor ()
      ensures peers == map[] && topics == map[] && myTopics == map[] && seenMessages == {}
    {
      peers, topics, myTopics, seenMessages := map[], map[], map[], {};
    }

    /** The peers whose queues are full are to be retried later. */
    method Announce(topic: Topic, sub: bool) returns (retry: set<PeerId>)
      modifies this`peers
      ensures peers.Keys == old(peers).Keys
      ensures forall q | q in old(peers) :: peers[q] == WithAnnouncement(old(peers)[q], topic, sub)
      ensures forall q :: q in retry <==> q in old(peers) && |old(peers)[q]| >= PEER_QUEUE
    {
      retry := {};
      var rest := peers.Keys;
      while rest != {}
        invariant rest <= peers.Keys == old(peers).Keys
        invariant forall q | q in peers :: peers[q] == if q in rest then old(peers)[q]
                  else WithAnnouncement(old(peers)[q], topic, sub)
        invariant forall q :: q in retry <==> q in old(peers) && q !in rest && |old(peers)[q]| >= PEER_QUEUE
        decreases |rest|
      {
        var pid :| pid in rest;
        if |peers[pid]| < PEER_QUEUE {
          peers := peers[pid := peers[pid] + [Rpc([(topic, sub)], [], None)]];
        } else {
          retry := retry + {pid};
        }
        rest := rest - {pid};
      }
    }

    method HandleAddSubscription(rt: GossipSubRouter, topic: Topic, sub: int)
      returns (retry: set<PeerId>, ghost announced: State, ghost joined: State)
      requires rt.p == this
      modifies this`peers, this`myTopics, rt`gossip, rt`control, rt`mesh, rt`fanout, rt`lastpub
      ensures SubscriptionAdded(rt.overlay, old(rt.Now()), rt.Now(), topic, sub, announced, joined)
      ensures forall q :: q in retry <==>
                old(!HasSubs(rt.Now(), topic)) && q in old(peers) && |old(peers)[q]| >= PEER_QUEUE
    {
      hide Joined;
      ghost var s := rt.Now();
      retry := {};
      if topic !in myTopics || myTopics[topic] == {} {
        retry := Announce(topic, true);
        announced := rt.Now();
        rt.Join(topic);
      } else {
        announced := rt.Now();
      }
      joined := rt.Now();
      if topic !in myTopics {
        myTopics := myTopics[topic := {}];
      }
      myTopics := myTopics[topic := myTopics[topic] + {sub}];
      assert rt.Now().myTopics ==
             joined.myTopics[topic := (if topic in s.myTopics then s.myTopics[topic] else {}) + {sub}];
    }

    method HandleRemoveSubscription(rt: GossipSubRouter, topic: Topic, sub: int)
      returns (retry: set<PeerId>, ghost announced: State)
      requires rt.p == this
      modifies this`peers, this`myTopics, rt`gossip, rt`control, rt`mesh
      ensures SubscriptionRemoved(old(rt.Now()), rt.Now(), topic, sub, announced)
      ensures forall q :: q in retry <==> topic in old(myTopics) && old(myTopics)[topic] - {sub} == {}
                                          && q in old(peers) && |old(peers)[q]| >= PEER_QUEUE
    {
      hide Left;
      retry, announced := {}, rt.Now();
      if topic !in myTopics {
        return;
      }
      ghost var s := rt.Now();
      var subs := myTopics[topic] - {sub};
      myTopics := myTopics[topic := subs];
      if subs == {} {
        myTopics := myTopics - {topic};
        assert myTopics == s.myTopics - {topic};
        retry := Announce(topic, false);
        announced := rt.Now();
        rt.Leave(topic);
      }
    }
  }

  class GossipSubRouter {
    const overlay: Overlay
    const p: PubSub
    const mcache: MessageCache
    var peers: map<PeerId, Protocol>
    var mesh: PeerSets
    var fanout: PeerSets
    var lastpub: map<Topic, int>
    var gossip: map<PeerId, seq<IHave>>
    var control: map<PeerId, Pending>
    ghost var published: set<Mid>

    ghost function Now(): State
      reads this, p, mcache
    {
      State(peers, mesh, fanout, lastpub, gossip, control, mcache.State(),
            p.peers, p.topics, p.myTopics, p.seenMessages, published)
    }

    constructor (overlay: Overlay, p: PubSub, mcache: MessageCache)
      ensures this.overlay == overlay && this.p == p && this.mcache == mcache
      ensures Now() == State(map[], map[], map[], map[], map[], map[], mcache.State(),
                             p.peers, p.topics, p.myTopics, p.seenMessages, {})
    {
      this.overlay, this.p, this.mcache := overlay, p, mcache;
      peers, mesh, fanout, lastpub, gossip, control := map[], map[], map[], map[], map[], map[];
      published := {};
    }

    method AddPeer(pid: PeerId, proto: Protocol)
      modifies this`peers
      ensures Now() == old(Now()).(protocols := old(peers)[pid := proto])
    {
      peers := peers[pid := proto];
    }

    method RemovePeer(pid: PeerId)
      modifies this`peers, this`mesh, this`fanout, this`gossip, this`control
      ensures PeerRemoved(old(Now()), Now(), pid)
    {
      peers := peers - {pid};
      mesh := DeleteFromAll(mesh, pid);
      fanout := DeleteFromAll(fanout, pid);
      gossip := gossip - {pid};
      control := control - {pid};
    }

    /** The loop that deletes a peer from every set of a map. */
    static method DeleteFromAll(sets: PeerSets, pid: PeerId) returns (r: PeerSets)
      ensures r == Without(sets, pid)
    {
      r := sets;
      var rest := sets.Keys;
      while rest != {}
        invariant rest <= sets.Keys == r.Keys
        invariant forall t | t in sets :: r[t] == if t in rest then sets[t] else sets[t] - {pid}
        decreases |rest|
      {
        var t :| t in rest;
        r := r[t := r[t] - {pid}];
        rest := rest - {t};
      }
    }

    // ----- sending -----

    method SendRPC(pid: PeerId, rpc: Rpc)
      modifies this`gossip, this`control, p`peers
      ensures SentEach(old(Now()), Now(), map[pid := rpc])
    {
      ghost var s := Now();
      var out := Load(pid, rpc);
      ghost var s1 := Now();
      Enqueue(pid, out);
      LoadedThenSent(s, s1, Now(), pid, rpc);
    }

    /** The second half of sendRPC. */
    method Enqueue(pid: PeerId, out: Rpc)
      requires pid !in control
      modifies this`control, p`peers
      ensures p.peers == if pid in old(p.peers) && |old(p.peers)[pid]| < PEER_QUEUE
                         then old(p.peers)[pid := old(p.peers)[pid] + [out]] else old(p.peers)
      ensures control == if pid in old(p.peers) && |old(p.peers)[pid]| >= PEER_QUEUE && Retry(out).Some?
                         then old(control)[pid := Retry(out).value] else old(control)
    {
      if pid in p.peers {
        if |p.peers[pid]| < PEER_QUEUE {
          p.peers := p.peers[pid := p.peers[pid] + [out]];
        } else if out.control.Some? {
          PushControl(pid, out.control.value);
        }
      }
    }

    /** The first half of sendRPC: pending control and gossip are moved into the RPC. */
    method Load(pid: PeerId, rpc: Rpc) returns (out: Rpc)
      modifies this`gossip, this`control
      ensures out == Loaded(mesh, pid, CellOf(old(Now()), pid), rpc)
      ensures control == old(control) - {pid} && gossip == old(gossip) - {pid}
    {
      hide Piggyback;
      out := rpc;
      if pid in control {
        out := PiggybackControl(pid, out, control[pid]);
        control := control - {pid};
      }
      if pid in gossip {
        out := out.(control := Some(ControlOf(out).(ihave := gossip[pid])));
        gossip := gossip - {pid};
      }
    }

    method PushControl(pid: PeerId, ctl: Control)
      modifies this`control
      ensures control == if ctl.graft != [] || ctl.prune != []
                         then old(control)[pid := Pending(ctl.graft, ctl.prune)] else old(control)
    {
      if ctl.graft != [] || ctl.prune != [] {
        control := control[pid := Pending(ctl.graft, ctl.prune)];
      }
    }

    method PiggybackControl(pid: PeerId, out: Rpc, ctl: Pending) returns (r: Rpc)
      ensures r == Piggyback(mesh, pid, out, ctl)
    {
      hide Fresh;
      var tograft, toprune: seq<Topic> := [], [];
      NoneFresh(mesh, pid, ctl.graft, true);
      NoneFresh(mesh, pid, ctl.prune, false);
      for i := 0 to |ctl.graft|
        invariant tograft == Fresh(mesh, pid, ctl.graft[..i], true)
      {
        var topic := ctl.graft[i];
        OneMoreFresh(mesh, pid, ctl.graft, i, true);
        if topic in mesh && pid in mesh[topic] {
          tograft := tograft + [topic];
        }
      }
      for i := 0 to |ctl.prune|
        invariant toprune == Fresh(mesh, pid, ctl.prune[..i], false)
      {
        var topic := ctl.prune[i];
        OneMoreFresh(mesh, pid, ctl.prune, i, false);
        if topic !in mesh {
          toprune := toprune + [topic];
        } else if pid !in mesh[topic] {
          toprune := toprune + [topic];
        }
      }
      assert ctl.graft[..|ctl.graft|] == ctl.graft && ctl.prune[..|ctl.prune|] == ctl.prune;
      if |tograft| == 0 && |toprune| == 0 {
        return out;
      }
      var xctl := ControlOf(out);
      xctl := xctl.(graft := xctl.graft + tograft, prune := xctl.prune + toprune);
      return out.(control := Some(xctl));
    }

    /** The loops that send one RPC to every peer of a set. */
    method SendToAll(pids: set<PeerId>, out: Rpc)
      modifies this`gossip, this`control, p`peers
      ensures SentEach(old(Now()), Now(), ToAll(pids, out))
    {
      var rest := pids;
      SentNone(Now(), ToAll({}, out));
      while rest != {}
        invariant rest <= pids
        invariant SentEach(old(Now()), Now(), ToAll(pids - rest, out))
        decreases |rest|
      {
        ghost var before := Now();
        var pid :| pid in rest;
        SendRPC(pid, out);
        SentOneMore(old(Now()), before, Now(), ToAll(pids - rest, out), pid, out);
        assert ToAll(pids - rest, out)[pid := out] == ToAll(pids - (rest - {pid}), out);
        rest := rest - {pid};
      }
      assert pids - rest == pids;
    }

    // ----- choosing peers -----

    /** `current` are the peers that the caller's filter leaves out. */
    method GetPeers(topic: Topic, count: int, current: set<PeerId>) returns (plst: seq<PeerId>)
      ensures Distinct(plst) && Picked(SetOf(plst), Eligible(Now(), topic) - current, count)
    {
      hide Eligible, Distinct, SetOf;
      if topic !in p.topics {
        NoneEligible(Now(), topic, current, count);
        NoPeers();
        return [];
      }
      plst := Candidates(topic, current);
      DistinctSize(plst);
      var a := new PeerId[|plst|](i requires 0 <= i < |plst| => plst[i]);
      assert a[..] == plst;
      ShufflePeers(a);
      plst := a[..];
      DistinctSize(plst);
      if count > 0 && |plst| > count {
        FirstOf(SetOf(plst), plst, count);
        plst := plst[..count];
        DistinctSize(plst);
      }
    }

    /** The loop of getPeers. */
    method Candidates(topic: Topic, current: set<PeerId>) returns (lst: seq<PeerId>)
      requires topic in p.topics
      ensures Distinct(lst) && SetOf(lst) == Eligible(Now(), topic) - current
    {
      lst := [];
      var rest := p.topics[topic];
      while rest != {}
        invariant rest <= p.topics[topic] && Distinct(lst)
        invariant forall q :: q in SetOf(lst) <==>
                    q in p.topics[topic] && q !in rest && q in Eligible(Now(), topic) - current
        decreases |rest|
      {
        hide Distinct, SetOf;
        var q :| q in rest;
        if q in peers && peers[q] == GossipSubID && q !in current {
          DistinctSnoc(lst, q);
          lst := lst + [q];
        }
        rest := rest - {q};
      }
    }

    // ----- publishing, joining, leaving -----

    method Publish(from: PeerId, msg: Msg, now: int)
      requires mcache.Valid()
      modifies this`gossip, this`control, this`fanout, this`lastpub, this`published, mcache, p`peers
      ensures mcache.Valid() && Published(overlay, old(Now()), Now(), from, msg, now)
    {
      ghost var s := Now();
      mcache.Put(msg);
      published := published + {msg.id};
      ghost var s1 := Now();
      var tosend := ChooseTargets(msg, now);
      SameTargets(s1, s, fanout, msg.topics);
      SameChoice(overlay, s1, s, FanoutTopics(s, msg.topics), now, fanout, lastpub);
      SendToAll(tosend - {from, msg.author}, MessageRpc(msg));
    }

    /** Publish's loop over the topics of a message. */
    method ChooseTargets(msg: Msg, now: int) returns (tosend: set<PeerId>)
      modifies this`fanout, this`lastpub
      ensures FanoutChosen(overlay, old(Now()), FanoutTopics(old(Now()), msg.topics), now, fanout, lastpub)
      ensures tosend == Targets(old(Now()), fanout, msg.topics)
    {
      hide FanoutChosen, Targets, FanoutTopics, OneTopic, TopicTargets;
      ghost var s := Now();
      tosend := {};
      NothingChosen(overlay, s, msg.topics, now);
      for i := 0 to |msg.topics|
        invariant Now() == s.(fanout := fanout, lastpub := lastpub)
        invariant FanoutChosen(overlay, s, FanoutTopics(s, msg.topics[..i]), now, fanout, lastpub)
        invariant tosend == Targets(s, fanout, msg.topics[..i])
      {
        if msg.topics[i] in p.topics {
          ghost var f0, lp0 := fanout, lastpub;
          var round := TopicPeers(msg.topics[i], now);
          assert TopicTargets(s, fanout, msg.topics[i]) == TopicTargets(Now(), fanout, msg.topics[i]) by {
            SameTopicTargets(s, Now(), fanout, msg.topics[i]);
          }
          OneMoreRound(overlay, s, msg.topics, i, now, f0, lp0, fanout, lastpub);
          tosend := tosend + round;
        } else {
          SkippedTopic(s, msg.topics, i, fanout);
        }
      }
      assert msg.topics[..|msg.topics|] == msg.topics;
    }

    /** The body of that loop, for a topic with peers. */
    method TopicPeers(topic: Topic, now: int) returns (tosend: set<PeerId>)
      requires topic in p.topics
      modifies this`fanout, this`lastpub
      ensures OneTopic(overlay, old(Now()), topic, now, old(fanout), old(lastpub), fanout, lastpub)
      ensures tosend == TopicTargets(Now(), fanout, topic)
    {
      hide OneTopic;
      var flood := FloodSubPeers(p.topics[topic]);
      var gmap := ForwardTo(topic, now);
      tosend := flood + gmap;
    }

    /** The floodsub peers among the peers of a topic. */
    method FloodSubPeers(tmap: set<PeerId>) returns (flood: set<PeerId>)
      ensures flood == set q | q in tmap && q in peers && peers[q] == FloodSubID
    {
      flood := {};
      var rest := tmap;
      while rest != {}
        invariant rest <= tmap && flood == set q | q in tmap - rest && q in peers && peers[q] == FloodSubID
        decreases |rest|
      {
        var q :| q in rest;
        if q in peers && peers[q] == FloodSubID {
          flood := flood + {q};
        }
        rest := rest - {q};
      }
    }

    /** The mesh of a topic or, if we are not in it, its fanout, picked now if there is none. */
    method ForwardTo(topic: Topic, now: int) returns (gmap: set<PeerId>)
      requires topic in p.topics
      modifies this`fanout, this`lastpub
      ensures OneTopic(overlay, old(Now()), topic, now, old(fanout), old(lastpub), fanout, lastpub)
      ensures gmap == if topic in mesh then mesh[topic] else if topic in fanout then fanout[topic] else {}
    {
      if topic in mesh {
        return mesh[topic];
      }
      gmap := if topic in fanout then fanout[topic] else {};
      if gmap == {} {
        var plst := GetPeers(topic, overlay.d, {});
        assert Eligible(Now(), topic) - {} == Eligible(Now(), topic);
        DistinctSize(plst);
        if |plst| > 0 {
          gmap := SetOf(plst);
          fanout := fanout[topic := gmap];
        } else {
          assert |Eligible(Now(), topic)| == 0;
        }
      }
      lastpub := lastpub[topic := now];
    }

    method Join(topic: Topic)
      modifies this`gossip, this`control, this`mesh, this`fanout, this`lastpub, p`peers
      ensures Joined(overlay, old(Now()), Now(), topic)
    {
      if topic in mesh {
        return;
      }
      var gmap: set<PeerId>;
      if topic in fanout {
        gmap := fanout[topic];
        mesh := mesh[topic := gmap];
        fanout := fanout - {topic};
        lastpub := lastpub - {topic};
      } else {
        var plst := GetPeers(topic, overlay.d, {});
        assert Eligible(Now(), topic) - {} == Eligible(Now(), topic);
        gmap := SetOf(plst);
        mesh := mesh[topic := gmap];
        assert fanout - {topic} == fanout;
      }
      assert Now() == MeshStarted(old(Now()), topic, gmap);
      SendToAll(gmap, ControlRpc([], [topic], []));
      assert JoinedWith(old(Now()), Now(), topic, gmap);
    }

    method Leave(topic: Topic)
      modifies this`gossip, this`control, this`mesh, p`peers
      ensures Left(old(Now()), Now(), topic)
    {
      if topic !in mesh {
        return;
      }
      var gmap := mesh[topic];
      mesh := mesh - {topic};
      SendToAll(gmap, ControlRpc([], [], [topic]));
    }

    // ----- handling an incoming RPC -----

    method HandleRPC(from: PeerId, ctl: Option<Control>)
      modifies this`gossip, this`control, this`mesh, p`peers
      ensures Handled(old(Now()), Now(), from, ctl)
    {
      if ctl.None? {
        return;
      }
      hide SentEach, Wanted, MessagesOf, Served, Refused, Grafted, Coalesced, GraftedIn, PrunedFrom;
      hide IsLacking, IsAskedOfUs;
      ghost var s := Now();
      var iwant := HandleIHave(ctl.value);
      var ihave := HandleIWant(ctl.value);
      var prune := HandleGraft(from, ctl.value);
      HandlePrune(from, ctl.value);
      GraftThenPrune(s.mesh, from, ctl.value);
      ghost var s1 := Now();
      var out := Rpc([], ihave, Some(Control([], iwant, [], prune)));
      assert Answers(s, ctl.value, out);
      if |iwant| == 0 && |ihave| == 0 && |prune| == 0 {
        SentNone(s1, map[]);
        return;
      }
      SendRPC(from, out);
    }

    method HandleIHave(ctl: Control) returns (iwantlst: seq<seq<Mid>>)
      ensures if Wanted(Now(), ctl) == {} then iwantlst == []
              else |iwantlst| == 1 && (forall mid :: mid in iwantlst[0] <==> mid in Wanted(Now(), ctl))
                   && |iwantlst[0]| == |Wanted(Now(), ctl)|
      ensures iwantlst == [] <==> !exists mid :: IsLacking(Now(), ctl, mid)
      ensures iwantlst != [] ==>
                |iwantlst| == 1 && forall mid :: mid in iwantlst[0] <==> IsLacking(Now(), ctl, mid)
    {
      var iwant: set<Mid> := {};
      for i := 0 to |ctl.ihave|
        invariant iwant == set k, mid | 0 <= k < i && ctl.ihave[k].topic in mesh && mid in ctl.ihave[k].mids
                                        && mid !in p.seenMessages :: mid
      {
        if ctl.ihave[i].topic in mesh {
          var unseen := Unseen(ctl.ihave[i].mids);
          iwant := iwant + unseen;
        }
      }
      assert iwant == Wanted(Now(), ctl);
      forall mid ensures mid in iwant <==> IsLacking(Now(), ctl, mid) {
        WantedMeans(Now(), ctl, mid);
      }
      hide IsLacking, Wanted;
      if iwant == {} {
        return [];
      }
      var lst := ListOf(iwant);
      return [lst];
    }

    method Unseen(mids: seq<Mid>) returns (unseen: set<Mid>)
      ensures unseen == set mid | mid in mids && mid !in p.seenMessages
    {
      unseen := {};
      for i := 0 to |mids|
        invariant unseen == set mid | mid in mids[..i] && mid !in p.seenMessages
      {
        assert mids[..i + 1] == mids[..i] + [mids[i]];
        if mids[i] !in p.seenMessages {
          unseen := unseen + {mids[i]};
        }
      }
      assert mids[..|mids|] == mids;
    }

    static method ListOf(ids: set<Mid>) returns (lst: seq<Mid>)
      ensures |lst| == |ids| && forall mid :: mid in lst <==> mid in ids
    {
      lst := [];
      var rest := ids;
      while rest != {}
        invariant rest <= ids && |lst| == |ids| - |rest| && forall mid :: mid in lst <==> mid in ids - rest
        decreases |rest|
      {
        var mid :| mid in rest;
        lst := lst + [mid];
        rest := rest - {mid};
      }
    }

    method HandleIWant(ctl: Control) returns (msgs: seq<Msg>)
      ensures MessagesOf(msgs, mcache.State(), Served(mcache.State(), ctl))
      ensures forall x :: x in msgs <==> exists mid :: IsAskedOfUs(Now(), ctl, mid) && mcache.msgs[mid] == x
    {
      hide CachedIn, MessagesOf, ValuesOf, Served, IsAskedOfUs;
      var ihave: map<Mid, Msg> := map[];
      EmptyIWant(mcache.State(), ctl);
      for i := 0 to |ctl.iwant|
        invariant ihave == CachedIn(mcache.State(), ctl.iwant[..i])
      {
        var found := Find(ctl.iwant[i]);
        ihave := ihave + found;
        OneMoreIWant(mcache.State(), ctl.iwant, i);
      }
      AllIWant(mcache.State(), ctl);
      msgs := Values(ihave);
      ValuesAreMessages(msgs, mcache.State(), ctl);
      AllMessagesMean(Now(), ctl, msgs);
    }

    method Find(mids: seq<Mid>) returns (found: map<Mid, Msg>)
      ensures found == Cached(mcache.State(), mids)
    {
      hide Cached;
      found := map[];
      EmptyCached(mcache.State(), mids);
      for j := 0 to |mids|
        invariant found == Cached(mcache.State(), mids[..j])
      {
        var msg, ok := mcache.Get(mids[j]);
        if ok {
          found := found[mids[j] := msg];
        }
        OneMoreCached(mcache.State(), mids, j);
      }
      assert mids[..|mids|] == mids;
    }

    static method Values(m: map<Mid, Msg>) returns (msgs: seq<Msg>)
      ensures ValuesOf(msgs, m)
    {
      msgs := [];
      var rest := m.Keys;
      while rest != {}
        invariant rest <= m.Keys && |msgs| == |m.Keys| - |rest|
        invariant forall mid | mid in m.Keys - rest :: m[mid] in msgs
        invariant forall x | x in msgs :: exists mid | mid in m :: m[mid] == x
        decreases |rest|
      {
        var mid :| mid in rest;
        msgs := msgs + [m[mid]];
        rest := rest - {mid};
      }
    }

    method HandleGraft(from: PeerId, ctl: Control) returns (cprune: seq<Topic>)
      modifies this`mesh
      ensures mesh == GraftedIn(old(mesh), from, ctl.graft)
      ensures cprune == Coalesced(Refused(old(mesh), ctl.graft))
    {
      hide GraftedIn, Refused;
      var prune: seq<Topic> := [];
      NothingHandled(mesh, from, ctl.graft);
      for i := 0 to |ctl.graft|
        invariant mesh == GraftedIn(old(mesh), from, ctl.graft[..i]) && mesh.Keys == old(mesh).Keys
        invariant prune == Refused(old(mesh), ctl.graft[..i])
      {
        var topic := ctl.graft[i];
        if topic !in mesh {
          prune := prune + [topic];
        } else {
          mesh := mesh[topic := mesh[topic] + {from}];
        }
        OneMoreGraft(old(mesh), from, ctl.graft, i);
      }
      assert ctl.graft[..|ctl.graft|] == ctl.graft;
      cprune := AddressesOf(prune);
    }

    /** A list filled with the address of the loop variable, read after the loop. */
    static method AddressesOf(topics: seq<Topic>) returns (named: seq<Topic>)
      ensures named == Coalesced(topics)
    {
      if topics == [] {
        return [];
      }
      var topic := topics[0];
      var count := 0;
      for i := 0 to |topics|
        invariant count == i && (i > 0 ==> topic == topics[i - 1])
      {
        topic := topics[i];
        count := count + 1;
      }
      named := seq(count, _ => topic);
    }

    method HandlePrune(from: PeerId, ctl: Control)
      modifies this`mesh
      ensures mesh == PrunedFrom(old(mesh), from, ctl.prune)
    {
      hide PrunedFrom;
      NothingHandled(mesh, from, ctl.prune);
      for i := 0 to |ctl.prune|
        invariant mesh == PrunedFrom(old(mesh), from, ctl.prune[..i]) && mesh.Keys == old(mesh).Keys
      {
        var topic := ctl.prune[i];
        if topic in mesh {
          mesh := mesh[topic := mesh[topic] - {from}];
        }
        OneMorePrune(old(mesh), from, ctl.prune, i);
      }
      assert ctl.prune[..|ctl.prune|] == ctl.prune;
    }

    // ----- the heartbeat -----

    method Heartbeat(now: int) returns (ghost beat: Beat)
      requires mcache.Valid()
      modifies this`gossip, this`control, this`mesh, this`fanout, this`lastpub, mcache, p`peers
      ensures HeartbeatWith(overlay, old(Now()), Now(), beat)
    {
      hide FlushedAll, MeshMaintained, FanoutExpired, FanoutMaintained, SentEach, WellFormed, Shifted;
      ghost var s := Now();
      Flush();
      ghost var flushed := Now();
      var tograft, toprune := MaintainMesh();
      ghost var maintained := Now();
      ExpireFanout(now);
      ghost var expired := Now();
      MaintainFanout();
      ghost var refilled := Now();
      SendGraftPrune(tograft, toprune);
      ghost var sent := Now();
      mcache.Shift();
      beat := Beat(flushed, maintained, expired, refilled, sent, tograft, toprune, now);
    }

    method Flush()
      modifies this`gossip, this`control, p`peers
      ensures FlushedAll(old(Now()), Now())
    {
      hide FlushedAll, GossipFlushed, ControlFlushed;
      ghost var s := Now();
      FlushGossip();
      ghost var half := Now();
      FlushControl();
      BothHalves(s, half, Now());
    }

    /** The first loop of flush: gossip, which also piggybacks control. */
    method FlushGossip()
      modifies this`gossip, this`control, p`peers
      ensures GossipFlushed(old(Now()), Now(), {})
    {
      hide GossipFlushed, ControlFlushed, SentEach, CellOf;
      ghost var s := Now();
      var rest := gossip.Keys;
      NoneFlushed(s);
      while rest != {}
        invariant rest <= s.gossip.Keys && GossipFlushed(s, Now(), rest)
        decreases |rest|
      {
        ghost var s1 := Now();
        var pid :| pid in rest;
        StillPending(s, s1, rest, pid);
        var ihave := gossip[pid];
        gossip := gossip - {pid};
        assert Now() == s1.(gossip := s1.gossip - {pid});
        SendRPC(pid, ControlRpc(ihave, [], []));
        OneMoreGossip(s, s1, Now(), rest, pid);
        rest := rest - {pid};
      }
    }

    /** The second loop: the control that is left. */
    method FlushControl()
      modifies this`gossip, this`control, p`peers
      ensures ControlFlushed(old(Now()), Now(), {})
    {
      hide GossipFlushed, ControlFlushed, SentEach, CellOf;
      ghost var s := Now();
      var rest := control.Keys;
      NoneFlushed(s);
      while rest != {}
        invariant rest <= s.control.Keys && ControlFlushed(s, Now(), rest)
        decreases |rest|
      {
        ghost var s1 := Now();
        var pid :| pid in rest;
        StillPending(s, s1, rest, pid);
        var ctl := control[pid];
        control := control - {pid};
        assert Now() == s1.(control := s1.control - {pid});
        SendRPC(pid, ControlRpc([], ctl.graft, ctl.prune));
        OneMoreControl(s, s1, Now(), rest, pid);
        rest := rest - {pid};
      }
    }

    method MaintainMesh() returns (tograft: map<PeerId, seq<Topic>>, toprune: map<PeerId, seq<Topic>>)
      requires mcache.Valid()
      modifies this`gossip, this`mesh
      ensures MeshMaintained(overlay, old(Now()), Now(), tograft, toprune)
    {
      hide MeshMaintained, MeshPartly, MeshStep, GossipMore, Eligible, Appended, WellFormed;
      ghost var s := Now();
      tograft, toprune := map[], map[];
      MeshUntouched(overlay, s);
      var rest := mesh.Keys;
      while rest != {}
        invariant rest <= s.mesh.Keys && mcache.Valid() && MeshPartly(overlay, s, Now(), rest, tograft, toprune)
        decreases |rest|
      {
        ghost var s1, graft0, prune0 := Now(), tograft, toprune;
        var topic :| topic in rest;
        MeshStillThere(overlay, s, s1, rest, topic, tograft, toprune);
        tograft, toprune := MaintainTopic(topic, tograft, toprune);
        OneMoreMesh(overlay, s, s1, Now(), rest, topic, graft0, prune0);
        rest := rest - {topic};
      }
      MeshDone(overlay, s, Now(), tograft, toprune);
    }

    /** The body of the loop over the mesh. */
    method MaintainTopic(topic: Topic, graft0: map<PeerId, seq<Topic>>, prune0: map<PeerId, seq<Topic>>)
      returns (tograft: map<PeerId, seq<Topic>>, toprune: map<PeerId, seq<Topic>>)
      requires mcache.Valid() && topic in mesh
      modifies this`gossip, this`mesh
      ensures mesh.Keys == old(mesh).Keys && mesh == old(mesh)[topic := mesh[topic]]
      ensures MeshStep(overlay, old(mesh)[topic], mesh[topic], Eligible(old(Now()), topic))
      ensures tograft == Appended(graft0, mesh[topic] - old(mesh)[topic], topic)
      ensures toprune == Appended(prune0, old(mesh)[topic] - mesh[topic], topic)
      ensures GossipMore(overlay, old(Now()), topic, mesh[topic], old(gossip), gossip)
    {
      hide Eligible, Appended, GossipMore, MeshStep, WellFormed;
      ghost var s := Now();
      tograft, toprune := RebalanceTopic(topic, graft0, prune0);
      ghost var s1 := Now();
      EmitGossip(topic, mesh[topic]);
      SameMore(overlay, s1, s, topic, mesh[topic], s.gossip, gossip);
    }

    /** The part of that body before gossip is emitted: too few peers, or too many. */
    method RebalanceTopic(topic: Topic, graft0: map<PeerId, seq<Topic>>, prune0: map<PeerId, seq<Topic>>)
      returns (tograft: map<PeerId, seq<Topic>>, toprune: map<PeerId, seq<Topic>>)
      requires topic in mesh
      modifies this`mesh
      ensures mesh.Keys == old(mesh).Keys && mesh == old(mesh)[topic := mesh[topic]]
      ensures MeshStep(overlay, old(mesh)[topic], mesh[topic], Eligible(old(Now()), topic))
      ensures tograft == Appended(graft0, mesh[topic] - old(mesh)[topic], topic)
      ensures toprune == Appended(prune0, old(mesh)[topic] - mesh[topic], topic)
    {
      hide Eligible, Appended, MeshStep, Picked, Distinct, SetOf;
      ghost var s := Now();
      tograft, toprune := graft0, prune0;
      NothingAppended(graft0, topic);
      NothingAppended(prune0, topic);
      if |mesh[topic]| < overlay.dlo {
        var ineed := overlay.d - |mesh[topic]|;
        var plst := GetPeers(topic, ineed, mesh[topic]);
        tograft := GraftPeers(topic, plst, tograft);
        Grown(overlay, s.mesh[topic], SetOf(plst), Eligible(s, topic));
      } else if |mesh[topic]| > overlay.dhi {
        var idontneed := |mesh[topic]| - overlay.d;
        var plst := PeerMapToList(mesh[topic]);
        FirstOf(mesh[topic], plst, idontneed);
        toprune := PrunePeers(topic, plst[..idontneed], toprune);
        Shrunk(overlay, s.mesh[topic], SetOf(plst[..idontneed]), Eligible(s, topic));
      } else {
        Kept(overlay, s.mesh[topic], Eligible(s, topic));
      }
    }

    method GraftPeers(topic: Topic, plst: seq<PeerId>, tograft0: map<PeerId, seq<Topic>>)
      returns (tograft: map<PeerId, seq<Topic>>)
      requires topic in mesh && Distinct(plst)
      modifies this`mesh
      ensures mesh == old(mesh)[topic := old(mesh)[topic] + SetOf(plst)]
      ensures tograft == Appended(tograft0, SetOf(plst), topic)
    {
      hide Appended;
      tograft := tograft0;
      NothingAppended(tograft0, topic);
      assert SetOf(plst[..0]) == {} && old(mesh)[topic] + {} == old(mesh)[topic];
      for i := 0 to |plst|
        invariant topic in mesh && mesh == old(mesh)[topic := old(mesh)[topic] + SetOf(plst[..i])]
        invariant tograft == Appended(tograft0, SetOf(plst[..i]), topic)
      {
        OneMorePeer(plst, i);
        OneMoreAppended(tograft0, SetOf(plst[..i]), plst[i], topic);
        mesh := mesh[topic := mesh[topic] + {plst[i]}];
        var topics := if plst[i] in tograft then tograft[plst[i]] else [];
        tograft := tograft[plst[i] := topics + [topic]];
        assert old(mesh)[topic] + SetOf(plst[..i]) + {plst[i]} == old(mesh)[topic] + SetOf(plst[..i + 1]);
      }
      assert plst[..|plst|] == plst;
    }

    method PrunePeers(topic: Topic, plst: seq<PeerId>, toprune0: map<PeerId, seq<Topic>>)
      returns (toprune: map<PeerId, seq<Topic>>)
      requires topic in mesh && Distinct(plst)
      modifies this`mesh
      ensures mesh == old(mesh)[topic := old(mesh)[topic] - SetOf(plst)]
      ensures toprune == Appended(toprune0, SetOf(plst), topic)
    {
      hide Appended;
      toprune := toprune0;
      NothingAppended(toprune0, topic);
      assert SetOf(plst[..0]) == {} && old(mesh)[topic] - {} == old(mesh)[topic];
      for i := 0 to |plst|
        invariant topic in mesh && mesh == old(mesh)[topic := old(mesh)[topic] - SetOf(plst[..i])]
        invariant toprune == Appended(toprune0, SetOf(plst[..i]), topic)
      {
        OneMorePeer(plst, i);
        OneMoreAppended(toprune0, SetOf(plst[..i]), plst[i], topic);
        mesh := mesh[topic := mesh[topic] - {plst[i]}];
        var topics := if plst[i] in toprune then toprune[plst[i]] else [];
        toprune := toprune[plst[i] := topics + [topic]];
        assert old(mesh)[topic] - SetOf(plst[..i]) - {plst[i]} == old(mesh)[topic] - SetOf(plst[..i + 1]);
      }
      assert plst[..|plst|] == plst;
    }

    /** The peers of a set as a shuffled list. */
    static method PeerMapToList(pids: set<PeerId>) returns (plst: seq<PeerId>)
      ensures Distinct(plst) && SetOf(plst) == pids
    {
      plst := [];
      var rest := pids;
      while rest != {}
        invariant rest <= pids && Distinct(plst) && SetOf(plst) == pids - rest
        decreases |rest|
      {
        var pid :| pid in rest;
        DistinctSnoc(plst, pid);
        plst := plst + [pid];
        rest := rest - {pid};
      }
      var a := new PeerId[|plst|](i requires 0 <= i < |plst| => plst[i]);
      assert a[..] == plst;
      ShufflePeers(a);
      plst := a[..];
    }

    method EmitGossip(topic: Topic, pids: set<PeerId>)
      requires mcache.Valid()
      modifies this`gossip
      ensures GossipMore(overlay, old(Now()), topic, pids, old(gossip), gossip)
    {
      hide WellFormed, WithIHaves, Appended, GossipIds, Eligible, Picked;
      ghost var s := Now();
      var mids := mcache.GetGossipIDs(topic);
      NoGossip(s.mcache, s.gossip, topic);
      if |mids| == 0 {
        assert GossipPicked(overlay, s, topic, {}) && {} - pids == {};
        return;
      }
      var gpeers := GetPeers(topic, overlay.d, {});
      assert Eligible(s, topic) - {} == Eligible(s, topic);
      assert GossipPicked(overlay, s, topic, SetOf(gpeers));
      assert SetOf(gpeers[..0]) - pids == {};
      for i := 0 to |gpeers|
        invariant gossip == WithIHaves(s.mcache, s.gossip, Appended(map[], SetOf(gpeers[..i]) - pids, topic))
      {
        OneMorePeer(gpeers, i);
        if gpeers[i] !in pids {
          PushedOne(s.mcache, s.gossip, SetOf(gpeers[..i]) - pids, gpeers[i], topic);
          assert SetOf(gpeers[..i]) - pids + {gpeers[i]} == SetOf(gpeers[..i + 1]) - pids;
          PushGossip(gpeers[i], IHave(topic, mids));
        } else {
          assert SetOf(gpeers[..i + 1]) - pids == SetOf(gpeers[..i]) - pids;
        }
      }
      assert gpeers[..|gpeers|] == gpeers;
    }

    method PushGossip(pid: PeerId, ihave: IHave)
      modifies this`gossip
      ensures gossip == old(gossip)[pid := (if pid in old(gossip) then old(gossip)[pid] else []) + [ihave]]
    {
      var pending := if pid in gossip then gossip[pid] else [];
      gossip := gossip[pid := pending + [ihave]];
    }

    method ExpireFanout(now: int)
      modifies this`fanout, this`lastpub
      ensures FanoutExpired(overlay, old(Now()), Now(), now)
    {
      hide Unexpired;
      ghost var s := Now();
      var rest := lastpub.Keys;
      NoneExpired(overlay, s, now);
      while rest != {}
        invariant rest <= s.lastpub.Keys && Now() == Unexpired(overlay, s, now, rest)
        decreases |rest|
      {
        ghost var s1 := Now();
        var topic :| topic in rest;
        OneMoreExpired(overlay, s, now, rest, topic);
        if lastpub[topic] + overlay.ttl < now {
          fanout := fanout - {topic};
          lastpub := lastpub - {topic};
        }
        rest := rest - {topic};
      }
      AllExpired(overlay, s, now);
    }

    method MaintainFanout()
      requires mcache.Valid()
      modifies this`gossip, this`fanout
      ensures FanoutMaintained(overlay, old(Now()), Now())
    {
      hide FanoutMaintained, FanoutPartly, FanoutStep, GossipMore, Eligible, Known, WellFormed;
      ghost var s := Now();
      FanoutUntouched(overlay, s);
      var rest := fanout.Keys;
      while rest != {}
        invariant rest <= s.fanout.Keys && mcache.Valid() && FanoutPartly(overlay, s, Now(), rest)
        decreases |rest|
      {
        ghost var s1 := Now();
        var topic :| topic in rest;
        FanoutStillThere(overlay, s, s1, rest, topic);
        MaintainFanoutTopic(topic);
        OneMoreFanout(overlay, s, s1, Now(), rest, topic);
        rest := rest - {topic};
      }
      FanoutDone(overlay, s, Now());
    }

    /** The body of the loop over the fanout. */
    method MaintainFanoutTopic(topic: Topic)
      requires mcache.Valid() && topic in fanout
      modifies this`gossip, this`fanout
      ensures fanout.Keys == old(fanout).Keys && fanout == old(fanout)[topic := fanout[topic]]
      ensures FanoutStep(overlay, old(fanout)[topic], fanout[topic], Known(old(Now()), topic),
              Eligible(old(Now()), topic))
      ensures GossipMore(overlay, old(Now()), topic, fanout[topic], old(gossip), gossip)
    {
      hide Eligible, GossipMore, FanoutStep, Known, WellFormed;
      ghost var s := Now();
      RefillFanout(topic);
      ghost var s1 := Now();
      EmitGossip(topic, fanout[topic]);
      SameMore(overlay, s1, s, topic, fanout[topic], s.gossip, gossip);
    }

    /** The part of that body before gossip is emitted. */
    method RefillFanout(topic: Topic)
      requires topic in fanout
      modifies this`fanout
      ensures fanout.Keys == old(fanout).Keys && fanout == old(fanout)[topic := fanout[topic]]
      ensures FanoutStep(overlay, old(fanout)[topic], fanout[topic], Known(old(Now()), topic),
              Eligible(old(Now()), topic))
    {
      hide Eligible, Picked, FanoutStep, Known, Distinct, SetOf;
      ghost var s := Now();
      var kept := StillInTopic(topic, fanout[topic]);
      fanout := fanout[topic := kept];
      SameKnown(s, Now(), topic);
      if |kept| < overlay.d {
        var ineed := overlay.d - |kept|;
        var plst := GetPeers(topic, ineed, kept);
        fanout := fanout[topic := kept + SetOf(plst)];
        FanoutGrown(overlay, s.fanout[topic], SetOf(plst), Known(s, topic), Eligible(s, topic));
      } else {
        Enough(overlay, s.fanout[topic], Known(s, topic), Eligible(s, topic));
      }
    }

    /** The loop that drops the fanout peers that have left the topic. */
    method StillInTopic(topic: Topic, pids: set<PeerId>) returns (kept: set<PeerId>)
      ensures kept == pids * Known(Now(), topic)
    {
      kept := pids;
      var rest := pids;
      while rest != {}
        invariant rest <= pids && kept == (set q | q in pids && (q in rest || q in Known(Now(), topic)))
        decreases |rest|
      {
        var q :| q in rest;
        if !(topic in p.topics && q in p.topics[topic]) {
          kept := kept - {q};
        }
        rest := rest - {q};
      }
    }

    method SendGraftPrune(tograft: map<PeerId, seq<Topic>>, toprune: map<PeerId, seq<Topic>>)
      modifies this`gossip, this`control, p`peers
      ensures SentEach(old(Now()), Now(), GraftPruneRpcs(tograft, toprune))
    {
      hide SentEach, GraftRpcs, PruneRpcs, GraftPruneRpcs;
      ghost var s := Now();
      var left := SendGrafts(tograft, toprune);
      ghost var s1 := Now();
      SendPrunes(left);
      GraftsAndPrunes(tograft, toprune);
      SentBoth(s, s1, Now(), GraftRpcs(tograft, toprune), PruneRpcs(left));
    }

    /** The first loop of sendGraftPrune, taking the prunes of the peers it sends to along. */
    method SendGrafts(tograft: map<PeerId, seq<Topic>>, toprune: map<PeerId, seq<Topic>>)
      returns (left: map<PeerId, seq<Topic>>)
      modifies this`gossip, this`control, p`peers
      ensures left == toprune - tograft.Keys
      ensures SentEach(old(Now()), Now(), GraftRpcs(tograft, toprune))
    {
      hide SentEach, Coalesced, GraftRpcs, AnswerTo, Except, LeftOver;
      ghost var s := Now();
      left := toprune;
      NothingSent(s, GraftRpcs(tograft, toprune));
      NoneTaken(tograft, toprune);
      var rest := tograft.Keys;
      while rest != {}
        invariant rest <= tograft.Keys && LeftOver(left, tograft, toprune, rest)
        invariant SentEach(s, Now(), Except(GraftRpcs(tograft, toprune), rest))
        decreases |rest|
      {
        ghost var s1 := Now();
        var pid :| pid in rest;
        OneMoreTaken(left, tograft, toprune, rest, pid);
        left := SendGraftsTo(pid, tograft, left);
        GraftRpc(tograft, toprune, pid);
        OneMoreSent(s, s1, Now(), GraftRpcs(tograft, toprune), rest, pid);
        rest := rest - {pid};
      }
      AllTaken(left, tograft, toprune);
      AllSent(GraftRpcs(tograft, toprune));
    }

    /** The body of that loop. */
    method SendGraftsTo(pid: PeerId, tograft: map<PeerId, seq<Topic>>, toprune: map<PeerId, seq<Topic>>)
      returns (left: map<PeerId, seq<Topic>>)
      requires pid in tograft
      modifies this`gossip, this`control, p`peers
      ensures left == toprune - {pid}
      ensures SentEach(old(Now()), Now(), map[pid := AnswerTo(tograft, toprune, pid)])
    {
      hide SentEach, Coalesced;
      left := toprune;
      var graft := AddressesOf(tograft[pid]);
      var prune: seq<Topic> := [];
      NothingCoalesced();
      if pid in left {
        prune := AddressesOf(left[pid]);
        left := left - {pid};
      }
      SendRPC(pid, ControlRpc([], graft, prune));
    }

    /** The second loop of sendGraftPrune. */
    method SendPrunes(toprune: map<PeerId, seq<Topic>>)
      modifies this`gossip, this`control, p`peers
      ensures SentEach(old(Now()), Now(), PruneRpcs(toprune))
    {
      hide SentEach, Coalesced, PruneRpcs, Except;
      ghost var s := Now();
      NothingSent(s, PruneRpcs(toprune));
      var rest := toprune.Keys;
      while rest != {}
        invariant rest <= toprune.Keys && SentEach(s, Now(), Except(PruneRpcs(toprune), rest))
        decreases |rest|
      {
        ghost var s1 := Now();
        var pid :| pid in rest;
        var prune := AddressesOf(toprune[pid]);
        SendRPC(pid, ControlRpc([], [], prune));
        PruneRpc(toprune, pid);
        OneMoreSent(s, s1, Now(), PruneRpcs(toprune), rest, pid);
        rest := rest - {pid};
      }
      AllSent(PruneRpcs(toprune));
    }
  }
}
