/** What comes of an incoming RPC: who is in which mesh then, and what is answered; and that what a router
  * announces is asked for by whoever lacks it, and served.
  */
module AnswerOutcomes {

  import opened Capacity
  import opened Handling
  import opened MessageCache
  import opened Options
  import opened Router
  import opened RouterOutcomes
  import opened RouterRuns
  import opened RouterSafety

  /** The last topic of a GRAFT that there is no mesh for. */
  ghost predicate IsLastRefused(s: State, ctl: Control, t: Topic) {
    exists i :: 0 <= i < |ctl.graft| && ctl.graft[i] == t && t !in s.mesh
             && forall j | i < j < |ctl.graft| :: ctl.graft[j] in s.mesh
  }

  /** The messages are those asked for, the one list holds the ids that are lacking, if any, and a refusal names
    * the last topic refused. */
  ghost predicate IsAnswer(s: State, ctl: Control, r: Rpc) {
    && r.subscriptions == [] && r.control.Some?
    && (forall x :: x in r.publish <==> exists mid :: IsAskedOfUs(s, ctl, mid) && s.mcache.msgs[mid] == x)
    && (if exists mid :: IsLacking(s, ctl, mid)
        then |r.control.value.iwant| == 1
             && forall mid :: mid in r.control.value.iwant[0] <==> IsLacking(s, ctl, mid)
        else r.control.value.iwant == [])
    && forall t | IsLastRefused(s, ctl, t) :: t in r.control.value.prune
  }

  ghost predicate HasAnswer(s: State, ctl: Control) {
    || (exists mid :: IsLacking(s, ctl, mid)) || (exists mid :: IsAskedOfUs(s, ctl, mid))
    || (exists t :: t in ctl.graft && t !in s.mesh)
  }

  // ----- the parts of an answer -----

  lemma {:induction false} RefusedLast(mesh: PeerSets, ts: seq<Topic>, i: nat)
    requires i < |ts| && ts[i] !in mesh && forall j | i < j < |ts| :: ts[j] in mesh
    ensures Refused(mesh, ts) != [] && Refused(mesh, ts)[|Refused(mesh, ts)| - 1] == ts[i]
  {
    if i < |ts| - 1 {
      RefusedLast(mesh, ts[..|ts| - 1], i);
    }
  }

  lemma {:induction false} LastRefusedNamed(s: State, ctl: Control, t: Topic)
    requires IsLastRefused(s, ctl, t)
    ensures t in Coalesced(Refused(s.mesh, ctl.graft))
  {
    var i :| 0 <= i < |ctl.graft| && ctl.graft[i] == t && t !in s.mesh
             && forall j | i < j < |ctl.graft| :: ctl.graft[j] in s.mesh;
    RefusedLast(s.mesh, ctl.graft, i);
    var ts := Refused(s.mesh, ctl.graft);
    assert Coalesced(ts)[0] == t;
  }

  lemma {:induction false} ListMeans(s: State, ctl: Control, out: Rpc)
    requires Answers(s, ctl, out)
    ensures if exists mid :: IsLacking(s, ctl, mid)
            then |out.control.value.iwant| == 1
                 && forall mid :: mid in out.control.value.iwant[0] <==> IsLacking(s, ctl, mid)
            else out.control.value.iwant == []
  {
    hide IsLacking, MessagesOf, Coalesced;
    forall mid ensures mid in Wanted(s, ctl) <==> IsLacking(s, ctl, mid) {
      WantedMeans(s, ctl, mid);
    }
    hide Wanted;
  }

  lemma {:induction false} AnswersMean(s: State, ctl: Control, out: Rpc)
    requires Answers(s, ctl, out)
    ensures IsAnswer(s, ctl, out) && (SaysSomething(out) <==> HasAnswer(s, ctl))
  {
    hide MessagesOf, IsLastRefused, IsLacking, IsAskedOfUs, Served, Wanted, Refused, Coalesced;
    ListMeans(s, ctl, out);
    PublishMeans(s, ctl, out);
    forall t | IsLastRefused(s, ctl, t) ensures t in out.control.value.prune {
      LastRefusedNamed(s, ctl, t);
    }
    NoneRefused(s.mesh, ctl.graft);
  }

  lemma {:induction false} PublishMeans(s: State, ctl: Control, out: Rpc)
    requires Answers(s, ctl, out)
    ensures forall x :: x in out.publish <==> exists mid :: IsAskedOfUs(s, ctl, mid) && s.mcache.msgs[mid] == x
    ensures out.publish == [] <==> !exists mid :: IsAskedOfUs(s, ctl, mid)
  {
    AllMessagesMean(s, ctl, out.publish);
    MessagesMean(s, ctl, out.publish, Msg(Mid(""), PeerId(""), []));
  }

  lemma {:induction false} NoneRefused(mesh: PeerSets, ts: seq<Topic>)
    ensures Coalesced(Refused(mesh, ts)) == [] <==> !exists t :: t in ts && t !in mesh
  {
    var r := Refused(mesh, ts);
    hide Refused;
    if r != [] {
      assert r[0] in r;
    }
  }

  // ----- the answer, sent -----

  /** Grafts and prunes take the sender in and out of the meshes there are. No one else is moved or sent anything;
    * the sender is sent the one answer if there is something to answer, and its queue has room. */
  lemma {:induction false} HandleAnswers(s: State, s': State, from: PeerId, ctl: Control, t: Topic, q: PeerId)
    requires Handled(s, s', from, Some(ctl))
    ensures t in s'.mesh <==> t in s.mesh
    ensures t in s.mesh ==>
              (q in s'.mesh[t] <==>
               if q == from then t !in ctl.prune && (t in ctl.graft || q in s.mesh[t]) else q in s.mesh[t])
    ensures q != from ==> SameQueue(s, s', q) && Lookup(s'.control, q) == Lookup(s.control, q)
                          && Lookup(s'.gossip, q) == Lookup(s.gossip, q)
    ensures if HasAnswer(s, ctl) && HasRoom(s, from) then exists r :: Gains(s, s', from, r) && IsAnswer(s, ctl, r)
            else SameQueue(s, s', from)
  {
    hide Answers, SentEach, IsAnswer, HasAnswer, SaysSomething, Grafted, HasRoom, SameQueue, Gains;
    var s1 := s.(mesh := Grafted(s.mesh, from, ctl));
    var out :| Answers(s, ctl, out) && SentEach(s1, s', AnswerRpcs(from, out));
    SentOnlySends(s1, s', AnswerRpcs(from, out));
    GraftedMeans(s.mesh, from, ctl, t, q);
    AnswersMean(s, ctl, out);
    if q != from {
      SentToNone(s1, s', AnswerRpcs(from, out), q);
      SameQueueFrom(s, s1, s', q);
    }
    if !SaysSomething(out) {
      SentToNone(s1, s', AnswerRpcs(from, out), from);
      SameQueueFrom(s, s1, s', from);
    } else {
      AnswerSent(s, s1, s', from, ctl, out);
    }
  }

  lemma {:induction false} GraftedMeans(mesh: PeerSets, from: PeerId, ctl: Control, t: Topic, q: PeerId)
    ensures t in Grafted(mesh, from, ctl) <==> t in mesh
    ensures t in mesh ==>
              (q in Grafted(mesh, from, ctl)[t] <==>
               if q == from then t !in ctl.prune && (t in ctl.graft || q in mesh[t]) else q in mesh[t])
  {
  }

  lemma {:induction false} SameQueueFrom(s: State, s1: State, s': State, q: PeerId)
    requires s1.peers == s.peers && SameQueue(s1, s', q)
    ensures SameQueue(s, s', q)
  {
  }

  lemma {:induction false} AnswerSent(s: State, s1: State, s': State, from: PeerId, ctl: Control, out: Rpc)
    requires IsAnswer(s, ctl, out) && s1.peers == s.peers && SentEach(s1, s', map[from := out])
    ensures if HasRoom(s, from) then exists r :: Gains(s, s', from, r) && IsAnswer(s, ctl, r)
            else SameQueue(s, s', from)
  {
    hide SentEach, IsLastRefused, IsLacking, IsAskedOfUs;
    if from in s.peers {
      var r := SentToOne(s1, s', map[from := out], from);
      if HasRoom(s, from) {
        assert r.control.Some?;
        assert Gains(s, s', from, r) && IsAnswer(s, ctl, r);
      }
    } else {
      SentToStranger(s1, s', map[from := out], from);
    }
  }

  // ----- what is announced is asked for and served -----

  /** A router that has joined the topic, and lacks the id, asks for it. */
  lemma {:induction false} LackingIsAskedFor(
      s: State, s': State, from: PeerId, ctl: Control, ihave: IHave, mid: Mid) returns (r: Rpc)
    requires Handled(s, s', from, Some(ctl)) && HasRoom(s, from)
    requires ihave in ctl.ihave && mid in ihave.mids && ihave.topic in s.mesh && mid !in s.seen
    ensures Gains(s, s', from, r) && r.control.Some?
            && exists ids :: ids in r.control.value.iwant && mid in ids
  {
    hide Handled;
    assert IsLacking(s, ctl, mid);
    hide IsLacking;
    HandleAnswers(s, s', from, ctl, ihave.topic, from);
    r :| Gains(s, s', from, r) && IsAnswer(s, ctl, r);
    assert r.control.value.iwant[0] in r.control.value.iwant;
  }

  /** A router that has the message sends it. */
  lemma {:induction false} AskedIsServed(s: State, s': State, from: PeerId, ctl: Control, mid: Mid) returns (r: Rpc)
    requires Handled(s, s', from, Some(ctl)) && HasRoom(s, from)
    requires mid in s.mcache.msgs && exists ids :: ids in ctl.iwant && mid in ids
    ensures Gains(s, s', from, r) && s.mcache.msgs[mid] in r.publish
  {
    hide Handled;
    assert IsAskedOfUs(s, ctl, mid);
    hide IsAskedOfUs;
    HandleAnswers(s, s', from, ctl, Topic(""), from);
    r :| Gains(s, s', from, r) && IsAnswer(s, ctl, r);
  }

  /** The heartbeats among the events from `i` to `j`. */
  function Beats(events: seq<Event>, i: nat, j: nat): nat
    requires i <= j <= |events|
  {
    if i == j then 0 else Beats(events, i, j - 1) + if events[j - 1].Heartbeat? then 1 else 0
  }

  lemma {:induction false} RecentAges(c: Cache, c': Cache, n: int, mid: Mid)
    requires WellFormed(c) && Recent(c, n, mid) && n < |c.history| && c' == Shifted(c)
    ensures Recent(c', n + 1, mid) && |c'.history| == |c.history|
  {
    var i, k :| EntryAt(c, i, k) && i < n && MidAt(c, i, k) == mid;
    assert c'.history[i + 1] == c.history[i];
    assert EntryAt(c', i + 1, k) && MidAt(c', i + 1, k) == mid;
  }

  lemma {:induction false} RecentStays(c: Cache, m: Msg, n: int, mid: Mid)
    requires WellFormed(c) && Recent(c, n, mid)
    ensures Recent(PutEntry(c, m), n, mid) && |PutEntry(c, m).history| == |c.history|
  {
    var i, k :| EntryAt(c, i, k) && i < n && MidAt(c, i, k) == mid;
    assert EntryAt(PutEntry(c, m), i, k) && MidAt(PutEntry(c, m), i, k) == mid;
  }

  /** Only Publish and the heartbeat touch the cache. */
  lemma {:induction false} StepCache(o: Overlay, s: State, e: Event, s': State)
    requires Step(o, s, e, s') && WellFormed(s.mcache)
    ensures s'.mcache == match e
                         case Publish(_, m, _) => PutEntry(s.mcache, m)
                         case Heartbeat(_) => Shifted(s.mcache)
                         case _ => s.mcache
  {
    hide Published, Handled, HeartbeatWith, SubscriptionAdded, SubscriptionRemoved, PutEntry, Shifted;
    match e
    case Publish(from, m, now) => PublishCache(o, s, s', from, m, now);
    case Heartbeat(beat) => BeatCache(o, s, s', beat);
    case Incoming(from, ctl) => HandledCache(s, s', from, ctl);
    case Subscribe(t, sub, announced, joined) => AddedCache(o, s, s', t, sub, announced, joined);
    case Unsubscribe(t, sub, announced) => RemovedCache(s, s', t, sub, announced);
    case _ =>
  }

  lemma {:induction false} PublishCache(o: Overlay, s: State, s': State, from: PeerId, m: Msg, now: int)
    requires Published(o, s, s', from, m, now)
    ensures s'.mcache == PutEntry(s.mcache, m)
  {
    hide FanoutChosen, Targets, Send;
  }

  lemma {:induction false} BeatCache(o: Overlay, s: State, s': State, b: Beat)
    requires HeartbeatWith(o, s, s', b)
    ensures s'.mcache == Shifted(s.mcache)
  {
    hide SentEach, MeshMaintained, FanoutMaintained, FanoutExpired, FlushedAll;
  }

  lemma {:induction false} HandledCache(s: State, s': State, from: PeerId, ctl: Option<Control>)
    requires Handled(s, s', from, ctl)
    ensures s'.mcache == s.mcache
  {
    hide Answers, Send, Grafted;
  }

  lemma {:induction false} AddedCache(
      o: Overlay, s: State, s': State, t: Topic, sub: int, announced: State, joined: State)
    requires SubscriptionAdded(o, s, s', t, sub, announced, joined)
    ensures s'.mcache == s.mcache
  {
    hide Send, Picked, Eligible;
  }

  lemma {:induction false} RemovedCache(s: State, s': State, t: Topic, sub: int, announced: State)
    requires SubscriptionRemoved(s, s', t, sub, announced)
    ensures s'.mcache == s.mcache
  {
    hide SubscriptionRemoved, Left, HasRoom;
    if t in s.myTopics && s.myTopics[t] - {sub} == {} {
      LastRemoved(s, s', t, sub, announced);
      LeftKeepsRest(announced, s', t);
    } else {
      OtherRemoved(s, s', t, sub, announced);
    }
  }

  /** What gossip was pending about at `i` stays cached over as many heartbeats as the history is longer than the
    * gossip window. */
  lemma {:induction false} StaysRecent(
      o: Overlay, states: seq<State>, events: seq<Event>, i: nat, j: nat, mid: Mid)
    requires IsRun(o, states, events) && i <= j < |states|
    requires Recent(states[i].mcache, states[i].mcache.gossip + 1, mid)
    requires states[i].mcache.gossip + 1 + Beats(events, i, j) <= |states[i].mcache.history|
    ensures Recent(states[j].mcache, states[i].mcache.gossip + 1 + Beats(events, i, j), mid)
    ensures |states[j].mcache.history| == |states[i].mcache.history|
    decreases j
  {
    hide Step, Recent, Inv;
    if i < j {
      StaysRecent(o, states, events, i, j - 1, mid);
      RunKeepsInv(o, states, events, j - 1);
      var c, n := states[j - 1].mcache, states[i].mcache.gossip + 1 + Beats(events, i, j - 1);
      InvCache(states[j - 1]);
      StepCache(o, states[j - 1], events[j - 1], states[j]);
      if events[j - 1].Heartbeat? {
        RecentAges(c, states[j].mcache, n, mid);
      } else if events[j - 1].Publish? {
        RecentStays(c, events[j - 1].m, n, mid);
      }
    }
  }

  lemma {:induction false} InvCache(s: State)
    requires Inv(s)
    ensures WellFormed(s.mcache) && forall n, mid | Recent(s.mcache, n, mid) ::
              mid in s.mcache.msgs && s.mcache.msgs[mid].id == mid
    ensures GossipOk(s, s.mcache.gossip + 1)
  {
    hide CellsOk, SetsOk, GossipOk;
  }

  /** The whole exchange. What a router has pending as gossip for a peer, once heard there, is asked for if it is
    * lacking; and the request, heard within as many heartbeats as the history is longer than the gossip window, is
    * answered with the message. */
  lemma {:induction false} GossipDelivers(
      o: Overlay, states: seq<State>, events: seq<Event>, i: nat, j: nat, p: PeerId, k: nat, mid: Mid,
      heard: Control, them: State, them': State, us: PeerId)
    requires IsRun(o, states, events) && i <= j < |states|
    requires p in states[i].gossip && k < |states[i].gossip[p]| && mid in states[i].gossip[p][k].mids
    requires states[i].gossip[p][k] in heard.ihave && Handled(them, them', us, Some(heard)) && HasRoom(them, us)
    requires states[i].gossip[p][k].topic in them.mesh && mid !in them.seen
    requires states[i].mcache.gossip + 1 + Beats(events, i, j) <= |states[i].mcache.history| && HasRoom(states[j], p)
    ensures exists request :: Gains(them, them', us, request) && request.control.Some? &&
              forall s' | Handled(states[j], s', p, request.control) ::
                exists reply :: Gains(states[j], s', p, reply) && exists m | m in reply.publish :: m.id == mid
  {
    hide Handled, Inv, IsRun, Recent, HasRoom, Gains;
    var request := LackingIsAskedFor(them, them', us, heard, states[i].gossip[p][k], mid);
    RunKeepsInv(o, states, events, i);
    InvCache(states[i]);
    StaysRecent(o, states, events, i, j, mid);
    RunKeepsInv(o, states, events, j);
    InvCache(states[j]);
    forall s' | Handled(states[j], s', p, request.control)
      ensures exists reply :: Gains(states[j], s', p, reply) && exists m | m in reply.publish :: m.id == mid
    {
      var reply := AskedIsServed(states[j], s', p, request.control.value, mid);
      assert states[j].mcache.msgs[mid].id == mid;
    }
  }
}
