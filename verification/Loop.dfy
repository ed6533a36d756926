/** The event loop (pubsub.go) as a state machine over its atomic cases: the channels it owns, its
  * subscriptions, and what it announces to its peers.
  */
module Loop {

  import opened Capacity
  import opened MessageCache

  datatype SubId = SubId(id: int)

  /** Of an RPC only the subscription options matter here. */
  type Packet = seq<(Topic, bool)>

  /** A bounded channel. */
  datatype Channel = Channel(queue: seq<Packet>, open: bool)

  /** A sleeping announceRetry. */
  datatype Retry = Retry(peer: PeerId, topic: Topic, on: bool)

  datatype Sub = Sub(topic: Topic, open: bool)

  datatype State = State(
    peers: map<PeerId, Channel>, myTopics: map<Topic, set<SubId>>, subs: map<SubId, Sub>, blacklist: set<PeerId>,
    retries: multiset<Retry>,
    // which topics each connected peer believes us to be in
    remote: map<PeerId, set<Topic>>,
    // what its writer has taken from the channel and has not arrived there
    transit: map<PeerId, seq<Packet>>,
    panicked: bool)

  datatype Event =
    | NewPeer(p: PeerId, hello: Packet, view: set<Topic>)  // `view` is what the peer believes as it connects
    | StreamOpened(p: PeerId)
    | StreamFailed(p: PeerId)
    | PeerGone(p: PeerId)
    | WriterRespawned(p: PeerId, hello: Packet)            // peerDead, while still connected
    | Subscribe(sub: SubId, t: Topic)
    | Cancel(sub: SubId)
    | BlacklistPeer(p: PeerId)
    | BlacklistedElsewhere(p: PeerId)                      // by the application, on its own Blacklist
    | RetryDue(retry: Retry)
    | Traffic(p: PeerId)                                   // an RPC without subscription options
    | Dequeued(p: PeerId)                                  // the writer takes the oldest RPC, to send it
    | Arrived(p: PeerId)                                   // the oldest RPC it sent arrives
    | Shutdown

  /** getHelloPacket: each topic once, in any order. */
  ghost predicate IsHello(hello: Packet, topics: set<Topic>) {
    && |hello| == |topics|
    && (forall i | 0 <= i < |hello| :: hello[i].1 && hello[i].0 in topics)
    && (forall t | t in topics :: (t, true) in hello)
  }

  /** A select with a default: the packet is queued if there is room. */
  function Offered(c: Channel, packet: Packet): Channel {
    if |c.queue| < PEER_QUEUE then c.(queue := c.queue + [packet]) else c
  }

  function Closed(c: Channel): Channel {
    c.(open := false)
  }

  /** announce */
  function Announced(s: State, t: Topic, on: bool): State {
    s.(peers := map p | p in s.peers :: Offered(s.peers[p], [(t, on)]),
       retries := s.retries + multiset(set p | p in s.peers && |s.peers[p].queue| >= PEER_QUEUE :: Retry(p, t, on)))
  }

  function SubsOf(s: State, t: Topic): set<SubId> {
    if t in s.myTopics then s.myTopics[t] else {}
  }

  /** The peer is dropped without its channel being closed. */
  function Dropped(s: State, p: PeerId): State {
    s.(peers := s.peers - {p}, remote := s.remote - {p}, transit := s.transit - {p})
  }

  predicate AllOpen(s: State) {
    forall p | p in s.peers :: s.peers[p].open
  }

  predicate IsCurrent(s: State, r: Retry) {
    r.on <==> r.topic in s.myTopics
  }

  /** The case sends on a closed channel, or closes one. */
  predicate Panics(s: State, e: Event) {
    match e
    case StreamOpened(p) => p in s.peers && p in s.blacklist && !s.peers[p].open
    case PeerGone(p) => p in s.peers && !s.peers[p].open
    case WriterRespawned(p, _) => p in s.peers && !s.peers[p].open
    case BlacklistPeer(p) => p in s.peers && !s.peers[p].open
    case Subscribe(_, t) => SubsOf(s, t) == {} && !AllOpen(s)
    case Cancel(sub) =>
      sub in s.subs && s.subs[sub].topic in s.myTopics
      && (!s.subs[sub].open || (s.myTopics[s.subs[sub].topic] - {sub} == {} && !AllOpen(s)))
    case RetryDue(r) => IsCurrent(s, r) && r.peer in s.peers && !s.peers[r.peer].open
    case Traffic(p) => p in s.peers && !s.peers[p].open
    case Shutdown => !AllOpen(s)
    case _ => false
  }

  /** The case may happen. */
  ghost predicate Enabled(s: State, e: Event) {
    match e
    case NewPeer(p, hello, _) => IsHello(hello, s.myTopics.Keys)
    case WriterRespawned(p, hello) => p in s.peers && IsHello(hello, s.myTopics.Keys)
    case Subscribe(sub, _) => sub !in s.subs
    case Cancel(sub) => sub in s.subs
    case RetryDue(r) => r in s.retries
    case Traffic(p) => p in s.peers
    case Dequeued(p) => p in s.peers && p in s.transit && s.peers[p].queue != []
    case Arrived(p) => p in s.remote && p in s.transit && s.transit[p] != []
    case _ => true
  }

  // ----- what each case does, when it does not panic -----

  function Connected(s: State, p: PeerId, hello: Packet, view: set<Topic>): State {
    if p in s.peers || p in s.blacklist then s
    else
      s.(peers := s.peers[p := Channel([hello], true)], remote := s.remote[p := view], transit := s.transit[p := []])
  }

  /** A blacklisted peer's channel is closed, and left where it is. */
  function Streamed(s: State, p: PeerId): State {
    if p in s.peers && p in s.blacklist then s.(peers := s.peers[p := Closed(s.peers[p])]) else s
  }

  function Subscribed(s: State, sub: SubId, t: Topic): State {
    var s1 := if SubsOf(s, t) == {} then Announced(s, t, true) else s;
    s1.(myTopics := s.myTopics[t := SubsOf(s, t) + {sub}], subs := s.subs[sub := Sub(t, true)])
  }

  function Cancelled(s: State, sub: SubId): State
    requires sub in s.subs
  {
    var t := s.subs[sub].topic;
    if t !in s.myTopics then s
    else
      var left := s.myTopics[t] - {sub};
      var s1 := s.(subs := s.subs[sub := Sub(t, false)]);
      if left == {} then Announced(s1.(myTopics := s.myTopics - {t}), t, false)
      else s1.(myTopics := s.myTopics[t := left])
  }

  /** doAnnounceRetry, unless the retry is stale or its peer is gone. */
  function Retried(s: State, r: Retry): State {
    var s1 := s.(retries := s.retries - multiset{r});
    if !IsCurrent(s, r) || r.peer !in s.peers then s1
    else
      s1.(peers := s.peers[r.peer := Offered(s.peers[r.peer], [(r.topic, r.on)])],
          retries := if |s.peers[r.peer].queue| < PEER_QUEUE then s1.retries else s1.retries + multiset{r})
  }

  /** A new writer, with a new stream: what the old channel held, and what the old stream has not delivered,
    * is lost. */
  function Respawned(s: State, p: PeerId, hello: Packet): State {
    s.(peers := s.peers[p := Channel([hello], true)], transit := s.transit[p := []])
  }

  function Sending(s: State, p: PeerId): State
    requires p in s.peers && p in s.transit && s.peers[p].queue != []
  {
    s.(peers := s.peers[p := s.peers[p].(queue := s.peers[p].queue[1..])],
       transit := s.transit[p := s.transit[p] + [s.peers[p].queue[0]]])
  }

  function Heeded(s: State, p: PeerId): State
    requires p in s.remote && p in s.transit && s.transit[p] != []
  {
    s.(transit := s.transit[p := s.transit[p][1..]], remote := s.remote[p := Heard(s.remote[p], s.transit[p][0])])
  }

  function After(s: State, e: Event): State
    requires Enabled(s, e)
  {
    match e
    case NewPeer(p, hello, view) => Connected(s, p, hello, view)
    case StreamOpened(p) => Streamed(s, p)
    case StreamFailed(p) => Dropped(s, p)
    case PeerGone(p) => Dropped(s, p)
    case WriterRespawned(p, hello) => Respawned(s, p, hello)
    case Subscribe(sub, t) => Subscribed(s, sub, t)
    case Cancel(sub) => Cancelled(s, sub)
    case BlacklistPeer(p) => Dropped(s.(blacklist := s.blacklist + {p}), p)
    case BlacklistedElsewhere(p) => s.(blacklist := s.blacklist + {p})
    case RetryDue(r) => Retried(s, r)
    case Traffic(p) => s.(peers := s.peers[p := Offered(s.peers[p], [])])
    case Dequeued(p) => Sending(s, p)
    case Arrived(p) => Heeded(s, p)
    case Shutdown => s.(peers := map[], remote := map[], transit := map[])
  }

  ghost predicate Step(s: State, e: Event, s': State) {
    && !s.panicked && Enabled(s, e)
    && s' == if Panics(s, e) then s.(panicked := true) else After(s, e)
  }

  /** What a peer believes after a packet (handleIncomingRPC on its side). */
  function Heard(view: set<Topic>, packet: Packet): set<Topic> {
    if packet == [] then view
    else
      var (t, on) := packet[|packet| - 1];
      var before := Heard(view, packet[..|packet| - 1]);
      if on then before + {t} else before - {t}
  }

  function HeardAll(view: set<Topic>, queue: seq<Packet>): set<Topic> {
    if queue == [] then view else Heard(HeardAll(view, queue[..|queue| - 1]), queue[|queue| - 1])
  }

  const BEGINNING: State := State(map[], map[], map[], {}, multiset{}, map[], map[], false)

  ghost predicate IsRun(states: seq<State>, events: seq<Event>) {
    && |states| == |events| + 1 && states[0] == BEGINNING
    && forall i | 0 <= i < |events| :: Step(states[i], events[i], states[i + 1])
  }
}
