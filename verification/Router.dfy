/** The state of the gossipsub router with the parts of the event loop it works on, and what each of its
  * operations does to it. Random choice and map order are left open: an operation is a relation between
  * the state before and the state after.
  */
module Router {

  import opened Capacity
  import opened MessageCache
  import opened Options

  datatype Protocol = FloodSubID | GossipSubID

  datatype IHave = IHave(topic: Topic, mids: seq<Mid>)

  datatype Control = Control(ihave: seq<IHave>, iwant: seq<seq<Mid>>, graft: seq<Topic>, prune: seq<Topic>)

  datatype Rpc = Rpc(subscriptions: seq<(Topic, bool)>, publish: seq<Msg>, control: Option<Control>)

  /** GRAFT and PRUNE waiting for a retry. */
  datatype Pending = Pending(graft: seq<Topic>, prune: seq<Topic>)

  type PeerSets = map<Topic, set<PeerId>>

  /** The overlay parameters. */
  datatype Params = Params(d: nat, dlo: nat, dhi: nat, ttl: nat)

  type Overlay = o: Params | 0 < o.dlo <= o.d <= o.dhi witness Params(6, 4, 12, 60_000_000_000)

  datatype State = State(
    // the router
    protocols: map<PeerId, Protocol>, mesh: PeerSets, fanout: PeerSets, lastpub: map<Topic, int>,
    gossip: map<PeerId, seq<IHave>>, control: map<PeerId, Pending>, mcache: Cache,
    // the event loop
    peers: map<PeerId, seq<Rpc>>, topics: PeerSets, myTopics: map<Topic, set<int>>, seen: set<Mid>,
    // the ids handed to Publish so far
    published: set<Mid>)

  // ----- sending to one peer -----

  /** All that sending to a peer can change. */
  datatype Cell = Cell(queue: Option<seq<Rpc>>, gossip: Option<seq<IHave>>, control: Option<Pending>)

  function Lookup<K, V>(m: map<K, V>, k: K): Option<V> {
    if k in m then Some(m[k]) else None
  }

  function CellOf(s: State, p: PeerId): Cell {
    Cell(Lookup(s.peers, p), Lookup(s.gossip, p), Lookup(s.control, p))
  }

  predicate InMesh(mesh: PeerSets, t: Topic, p: PeerId) {
    t in mesh && p in mesh[t]
  }

  /** The topics of a pending GRAFT (`inside`) or PRUNE list that still agree with the mesh. */
  function Fresh(mesh: PeerSets, p: PeerId, ts: seq<Topic>, inside: bool): (r: seq<Topic>)
    ensures forall t :: t in r <==> t in ts && InMesh(mesh, t, p) == inside
  {
    if ts == [] then []
    else
      var t := ts[|ts| - 1];
      assert ts == ts[..|ts| - 1] + [t];
      Fresh(mesh, p, ts[..|ts| - 1], inside) + (if InMesh(mesh, t, p) == inside then [t] else [])
  }

  function ControlOf(r: Rpc): Control {
    if r.control.Some? then r.control.value else Control([], [], [], [])
  }

  /** piggybackControl */
  function Piggyback(mesh: PeerSets, p: PeerId, out: Rpc, pending: Pending): Rpc {
    var graft, prune := Fresh(mesh, p, pending.graft, true), Fresh(mesh, p, pending.prune, false);
    if graft == [] && prune == [] then out
    else
      var c := ControlOf(out);
      out.(control := Some(c.(graft := c.graft + graft, prune := c.prune + prune)))
  }

  /** What leaves for the peer: the RPC with its pending control and gossip. */
  function Loaded(mesh: PeerSets, p: PeerId, c: Cell, out: Rpc): Rpc {
    var out1 := if c.control.Some? then Piggyback(mesh, p, out, c.control.value) else out;
    if c.gossip.Some? then out1.(control := Some(ControlOf(out1).(ihave := c.gossip.value))) else out1
  }

  /** pushControl: only GRAFT and PRUNE are kept for a retry. */
  function Retry(out: Rpc): Option<Pending> {
    var c := ControlOf(out);
    if c.graft != [] || c.prune != [] then Some(Pending(c.graft, c.prune)) else None
  }

  /** sendRPC, for the peer it sends to. */
  function Send(mesh: PeerSets, p: PeerId, c: Cell, out: Rpc): Cell {
    var loaded := Loaded(mesh, p, c, out);
    if c.queue.None? then Cell(None, None, None)
    else if |c.queue.value| < PEER_QUEUE then Cell(Some(c.queue.value + [loaded]), None, None)
    else Cell(c.queue, None, Retry(loaded))
  }

  /** Each peer of `out` is sent its RPC once, and nothing else changes. */
  ghost predicate SentEach(s: State, s': State, out: map<PeerId, Rpc>) {
    && s' == s.(peers := s'.peers, gossip := s'.gossip, control := s'.control)
    && forall p :: CellOf(s', p) == if p in out then Send(s.mesh, p, CellOf(s, p), out[p]) else CellOf(s, p)
  }

  function MessageRpc(m: Msg): Rpc { Rpc([], [m], None) }

  function ControlRpc(ihave: seq<IHave>, graft: seq<Topic>, prune: seq<Topic>): Rpc {
    Rpc([], [], Some(Control(ihave, [], graft, prune)))
  }

  /** The same RPC for every peer of a set. */
  function ToAll(ps: set<PeerId>, out: Rpc): map<PeerId, Rpc> {
    map p | p in ps :: out
  }

  // ----- choosing peers -----

  /** The gossipsub peers known to be in a topic. */
  function Eligible(s: State, t: Topic): set<PeerId> {
    if t in s.topics then set p | p in s.topics[t] && p in s.protocols && s.protocols[p] == GossipSubID else {}
  }

  function Min(x: nat, y: nat): nat { if x < y then x else y }

  /** What getPeers may return from its candidates. */
  ghost predicate Picked(chosen: set<PeerId>, candidates: set<PeerId>, count: int) {
    chosen <= candidates && |chosen| == if count > 0 then Min(count, |candidates|) else |candidates|
  }

  // ----- the operations -----

  ghost predicate PeerRemoved(s: State, s': State, p: PeerId) {
    s' == s.(protocols := s.protocols - {p}, mesh := Without(s.mesh, p), fanout := Without(s.fanout, p),
             gossip := s.gossip - {p}, control := s.control - {p})
  }

  function Without(sets: PeerSets, p: PeerId): PeerSets {
    map t | t in sets :: sets[t] - {p}
  }

  ghost predicate Joined(o: Overlay, s: State, s': State, t: Topic) {
    if t in s.mesh then s' == s
    else
      exists peers ::
        && (if t in s.fanout then peers == s.fanout[t] else Picked(peers, Eligible(s, t), o.d))
        && JoinedWith(s, s', t, peers)
  }

  /** The mesh starts as `peers`, taken over from the fanout if there is one. */
  function MeshStarted(s: State, t: Topic, peers: set<PeerId>): State {
    s.(mesh := s.mesh[t := peers], fanout := s.fanout - {t},
       lastpub := if t in s.fanout then s.lastpub - {t} else s.lastpub)
  }

  ghost predicate JoinedWith(s: State, s': State, t: Topic, peers: set<PeerId>) {
    SentEach(MeshStarted(s, t, peers), s', ToAll(peers, ControlRpc([], [t], [])))
  }

  ghost predicate Left(s: State, s': State, t: Topic) {
    if t !in s.mesh then s' == s
    else SentEach(s.(mesh := s.mesh - {t}), s', ToAll(s.mesh[t], ControlRpc([], [], [t])))
  }

  /** The topics of a message that are published through their fanout: peers are in them, and we are not. */
  function FanoutTopics(s: State, topics: seq<Topic>): set<Topic> {
    set t | t in topics && t in s.topics && t !in s.mesh
  }

  predicate HasFanout(s: State, t: Topic) {
    t in s.fanout && s.fanout[t] != {}
  }

  /** What Publish does to the fanout of the topics published through it: where there is none, peers are
    * picked. */
  ghost predicate FanoutChosen(
      o: Overlay, s: State, topics: set<Topic>, now: int, fanout: PeerSets, lastpub: map<Topic, int>)
  {
    && lastpub.Keys == s.lastpub.Keys + topics
    && (forall t | t in lastpub :: lastpub[t] == if t in topics then now else s.lastpub[t])
    && fanout.Keys == s.fanout.Keys + (set t | t in topics && Eligible(s, t) != {})
    && (forall t | t in fanout ::
         if t in topics && !HasFanout(s, t) && Eligible(s, t) != {}
         then Picked(fanout[t], Eligible(s, t), o.d)
         else t in s.fanout && fanout[t] == s.fanout[t])
  }

  /** Whom Publish sends to, before leaving out the sender and the author. */
  function Targets(s: State, fanout: PeerSets, topics: seq<Topic>): set<PeerId> {
    set t, p | t in topics && t in s.topics && p in TopicTargets(s, fanout, t) :: p
  }

  function TopicTargets(s: State, fanout: PeerSets, t: Topic): set<PeerId>
    requires t in s.topics
  {
    (set p | p in s.topics[t] && p in s.protocols && s.protocols[p] == FloodSubID)
    + (if t in s.mesh then s.mesh[t] else if t in fanout then fanout[t] else {})
  }

  ghost predicate Published(o: Overlay, s: State, s': State, from: PeerId, m: Msg, now: int) {
    WellFormed(s.mcache) && exists fanout, lastpub ::
      && FanoutChosen(o, s, FanoutTopics(s, m.topics), now, fanout, lastpub)
      && SentEach(
           s.(mcache := PutEntry(s.mcache, m), published := s.published + {m.id}, fanout := fanout, lastpub := lastpub),
           s', ToAll(Targets(s, fanout, m.topics) - {from, m.author}, MessageRpc(m)))
  }

  // handling an incoming RPC

  /** handleIHave: the unseen ids announced for topics we have joined. */
  function Wanted(s: State, ctl: Control): set<Mid> {
    set i, mid | 0 <= i < |ctl.ihave| && ctl.ihave[i].topic in s.mesh && mid in ctl.ihave[i].mids
      && mid !in s.seen :: mid
  }

  /** handleIWant: the asked ids whose messages the cache still has. */
  function Served(c: Cache, ctl: Control): set<Mid> {
    set i, mid | 0 <= i < |ctl.iwant| && mid in ctl.iwant[i] && mid in c.msgs :: mid
  }

  /** The messages of a set of cached ids, one for each, in any order. */
  ghost predicate MessagesOf(msgs: seq<Msg>, c: Cache, ids: set<Mid>)
    requires ids <= c.msgs.Keys
  {
    && |msgs| == |ids|
    && (forall m | m in msgs :: exists mid | mid in ids :: c.msgs[mid] == m)
    && (forall mid | mid in ids :: c.msgs[mid] in msgs)
  }

  /** handleGraft and handlePrune: a peer grafts itself into a mesh we have, and prunes itself out. */
  function Grafted(mesh: PeerSets, p: PeerId, ctl: Control): PeerSets {
    map t | t in mesh :: (if t in ctl.graft then mesh[t] + {p} else mesh[t]) - (if t in ctl.prune then {p} else {})
  }

  /** The topics of GRAFTs for meshes we do not have, in order. */
  function Refused(mesh: PeerSets, ts: seq<Topic>): (r: seq<Topic>)
    ensures forall t :: t in r <==> t in ts && t !in mesh
  {
    if ts == [] then []
    else
      var t := ts[|ts| - 1];
      assert ts == ts[..|ts| - 1] + [t];
      Refused(mesh, ts[..|ts| - 1]) + (if t in mesh then [] else [t])
  }

  /** A list built in a loop from the address of the loop variable: every entry ends up naming the last
    * topic. */
  function Coalesced(ts: seq<Topic>): (r: seq<Topic>)
    ensures |r| == |ts| && forall t | t in r :: t in ts
  {
    if ts == [] then [] else seq(|ts|, _ => ts[|ts| - 1])
  }

  /** The answer to a control message. */
  ghost predicate Answers(s: State, ctl: Control, out: Rpc) {
    && out.subscriptions == []
    && MessagesOf(out.publish, s.mcache, Served(s.mcache, ctl))
    && out.control.Some?
    && out.control.value.ihave == [] && out.control.value.graft == []
    && out.control.value.prune == Coalesced(Refused(s.mesh, ctl.graft))
    && (if Wanted(s, ctl) == {} then out.control.value.iwant == []
        else |out.control.value.iwant| == 1
             && (forall mid :: mid in out.control.value.iwant[0] <==> mid in Wanted(s, ctl))
             && |out.control.value.iwant[0]| == |Wanted(s, ctl)|)
  }

  predicate SaysSomething(out: Rpc) {
    out.publish != [] || (out.control.Some? && (out.control.value.iwant != [] || out.control.value.prune != []))
  }

  /** An answer is only sent if it says something. */
  function AnswerRpcs(from: PeerId, out: Rpc): map<PeerId, Rpc> {
    if SaysSomething(out) then map[from := out] else map[]
  }

  ghost predicate Handled(s: State, s': State, from: PeerId, ctl: Option<Control>) {
    if ctl.None? then s' == s
    else
      exists out ::
        && Answers(s, ctl.value, out)
        && SentEach(s.(mesh := Grafted(s.mesh, from, ctl.value)), s', AnswerRpcs(from, out))
  }

  // the heartbeat

  /** The first half of flush, for one peer: pending gossip leaves, with pending control. */
  function FlushedGossip(mesh: PeerSets, p: PeerId, c: Cell): Cell {
    if c.gossip.Some? then Send(mesh, p, c.(gossip := None), ControlRpc(c.gossip.value, [], [])) else c
  }

  /** The second half: control left after that leaves on its own. */
  function FlushedControl(mesh: PeerSets, p: PeerId, c: Cell): Cell {
    if c.control.Some?
    then Send(mesh, p, c.(control := None), ControlRpc([], c.control.value.graft, c.control.value.prune))
    else c
  }

  function Flushed(mesh: PeerSets, p: PeerId, c: Cell): Cell {
    FlushedControl(mesh, p, FlushedGossip(mesh, p, c))
  }

  ghost predicate FlushedAll(s: State, s': State) {
    && s' == s.(peers := s'.peers, gossip := s'.gossip, control := s'.control)
    && forall p :: CellOf(s', p) == Flushed(s.mesh, p, CellOf(s, p))
  }

  /** The mesh of one topic over a heartbeat. */
  ghost predicate MeshStep(o: Overlay, before: set<PeerId>, after: set<PeerId>, eligible: set<PeerId>) {
    if |before| < o.dlo then before <= after && Picked(after - before, eligible - before, o.d - |before|)
    else if |before| > o.dhi then after <= before && |after| == o.d
    else after == before
  }

  /** The fanout of one topic over a heartbeat, `known` being the peers in the topic. */
  ghost predicate FanoutStep(
      o: Overlay, before: set<PeerId>, after: set<PeerId>, known: set<PeerId>, eligible: set<PeerId>)
  {
    var kept := before * known;
    if |kept| < o.d then kept <= after && Picked(after - kept, eligible - kept, o.d - |kept|) else after == kept
  }

  function Known(s: State, t: Topic): set<PeerId> {
    if t in s.topics then s.topics[t] else {}
  }

  /** The IHAVEs that announce a list of topics. */
  function IHaves(c: Cache, ts: seq<Topic>): (r: seq<IHave>)
    requires WellFormed(c)
    ensures |r| == |ts|
  {
    seq(|ts|, i requires 0 <= i < |ts| => IHave(ts[i], GossipIds(c, ts[i])))
  }

  /** Pending gossip with the listed topics announced after it. */
  function WithIHaves(
      c: Cache, gossip: map<PeerId, seq<IHave>>, lists: map<PeerId, seq<Topic>>): map<PeerId, seq<IHave>>
    requires WellFormed(c)
  {
    map p | p in gossip.Keys + lists.Keys :: (if p in gossip then gossip[p] else []) + IHaves(c, At(lists, p))
  }

  /** Whom emitGossip picks for a topic: no one if the cache advertises nothing, and otherwise D of the
    * eligible peers, or all. */
  ghost predicate GossipPicked(o: Overlay, s: State, t: Topic, chosen: set<PeerId>)
    requires WellFormed(s.mcache)
  {
    if GossipIds(s.mcache, t) == [] then chosen == {} else Picked(chosen, Eligible(s, t), o.d)
  }

  /** The chosen peers that are not in the mesh or fanout `sets`. */
  function Outside(chosen: PeerSets, sets: PeerSets): PeerSets {
    map t | t in chosen :: chosen[t] - (if t in sets then sets[t] else {})
  }

  /** For each topic of `sets`, exactly the chosen peers outside are sent one announcement. */
  ghost predicate GossipEmitted(
      o: Overlay, s: State, sets: PeerSets, chosen: PeerSets, lists: map<PeerId, seq<Topic>>,
      gossip: map<PeerId, seq<IHave>>)
  {
    && WellFormed(s.mcache) && chosen.Keys == sets.Keys
    && (forall t | t in sets :: GossipPicked(o, s, t, chosen[t]))
    && Moved(lists, map[], Outside(chosen, sets))
    && gossip == WithIHaves(s.mcache, s.gossip, lists)
  }

  /** What emitGossip for every topic of `sets`, in any order, makes of the pending gossip. */
  ghost predicate GossipGrew(o: Overlay, s: State, sets: PeerSets, gossip: map<PeerId, seq<IHave>>) {
    exists chosen, lists :: GossipEmitted(o, s, sets, chosen, lists, gossip)
  }

  function At(m: map<PeerId, seq<Topic>>, p: PeerId): seq<Topic> {
    if p in m then m[p] else []
  }

  /** The lists name, per peer and without repetition, the topics in which it moved from outside of
    * `before` into `after`. */
  ghost predicate Moved(lists: map<PeerId, seq<Topic>>, before: PeerSets, after: PeerSets) {
    && (forall p, t :: t in At(lists, p) <==> InMesh(after, t, p) && !InMesh(before, t, p))
    && (forall p, i, j | p in lists && 0 <= i < j < |lists[p]| :: lists[p][i] != lists[p][j])
    && (forall p | p in lists :: lists[p] != [])
  }

  ghost predicate MeshMaintained(
      o: Overlay, s: State, s': State, tograft: map<PeerId, seq<Topic>>, toprune: map<PeerId, seq<Topic>>) {
    && s' == s.(mesh := s'.mesh, gossip := s'.gossip)
    && s'.mesh.Keys == s.mesh.Keys
    && (forall t | t in s.mesh :: MeshStep(o, s.mesh[t], s'.mesh[t], Eligible(s, t)))
    && Moved(tograft, s.mesh, s'.mesh) && Moved(toprune, s'.mesh, s.mesh)
    && GossipGrew(o, s, s'.mesh, s'.gossip)
  }

  predicate IsStale(o: Overlay, s: State, t: Topic, now: int) {
    t in s.lastpub && s.lastpub[t] + o.ttl < now
  }

  /** Fanout whose topic was not published to for the time to live is dropped. */
  ghost predicate FanoutExpired(o: Overlay, s: State, s': State, now: int) {
    s' == s.(fanout := map t | t in s.fanout && !IsStale(o, s, t, now) :: s.fanout[t],
             lastpub := map t | t in s.lastpub && !IsStale(o, s, t, now) :: s.lastpub[t])
  }

  ghost predicate FanoutMaintained(o: Overlay, s: State, s': State) {
    && s' == s.(fanout := s'.fanout, gossip := s'.gossip)
    && s'.fanout.Keys == s.fanout.Keys
    && (forall t | t in s.fanout :: FanoutStep(o, s.fanout[t], s'.fanout[t], Known(s, t), Eligible(s, t)))
    && GossipGrew(o, s, s'.fanout, s'.gossip)
  }

  /** What sendGraftPrune sends. */
  function GraftPruneRpcs(tograft: map<PeerId, seq<Topic>>, toprune: map<PeerId, seq<Topic>>): map<PeerId, Rpc> {
    map p | p in tograft.Keys + toprune.Keys ::
      ControlRpc([], Coalesced(At(tograft, p)), Coalesced(At(toprune, p)))
  }

  /** The states between the phases of one heartbeat, and the lists it sends from. */
  datatype Beat = Beat(
    flushed: State, maintained: State, expired: State, refilled: State, sent: State,
    tograft: map<PeerId, seq<Topic>>, toprune: map<PeerId, seq<Topic>>, now: int)

  ghost predicate HeartbeatWith(o: Overlay, s: State, s': State, b: Beat) {
    && FlushedAll(s, b.flushed)
    && MeshMaintained(o, b.flushed, b.maintained, b.tograft, b.toprune)
    && FanoutExpired(o, b.maintained, b.expired, b.now)
    && FanoutMaintained(o, b.expired, b.refilled)
    && SentEach(b.refilled, b.sent, GraftPruneRpcs(b.tograft, b.toprune))
    && WellFormed(s.mcache) && b.sent.mcache == s.mcache && s' == b.sent.(mcache := Shifted(s.mcache))
  }

  // ----- the event loop around the router -----

  /** announce: every peer whose queue has room is told. */
  ghost predicate Announces(s: State, s': State, t: Topic, subscribe: bool) {
    && s'.peers.Keys == s.peers.Keys && s' == s.(peers := s'.peers)
    && forall p | p in s.peers ::
         s'.peers[p] == if |s.peers[p]| < PEER_QUEUE then s.peers[p] + [Rpc([(t, subscribe)], [], None)] else s.peers[p]
  }

  predicate HasSubs(s: State, t: Topic) {
    t in s.myTopics && s.myTopics[t] != {}
  }

  /** handleAddSubscription */
  ghost predicate SubscriptionAdded(
      o: Overlay, s: State, s': State, t: Topic, sub: int, announced: State, joined: State)
  {
    && (if HasSubs(s, t) then announced == s && joined == s
        else Announces(s, announced, t, true) && Joined(o, announced, joined, t))
    && s' == joined.(myTopics := joined.myTopics[t := (if t in s.myTopics then s.myTopics[t] else {}) + {sub}])
  }

  /** handleRemoveSubscription */
  ghost predicate SubscriptionRemoved(s: State, s': State, t: Topic, sub: int, announced: State) {
    if t !in s.myTopics then s' == s
    else if s.myTopics[t] - {sub} != {} then s' == s.(myTopics := s.myTopics[t := s.myTopics[t] - {sub}])
    else Announces(s.(myTopics := s.myTopics - {t}), announced, t, false) && Left(announced, s', t)
  }
}
