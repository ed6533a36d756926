/** One message flooding a network of floodsub routers: a finite static graph, in which everyone knows what
  * its neighbours subscribe to, validators accept, and no queue overflows.
  */
module FloodNet {

  import opened MessageCache
  import opened FloodSub
  import opened Listing

  /** `nodes` lists every node once. The message goes to `topics`; `author` is what it carries in its From
    * field, which need not be the node that first published it (WithMessageAuthor). */
  datatype Graph = Graph(
    nodes: seq<PeerId>, neighbours: map<PeerId, set<PeerId>>, subs: map<PeerId, set<Topic>>,
    origin: PeerId, author: PeerId, topics: seq<Topic>)

  ghost predicate IsNetwork(g: Graph) {
    && (forall i, j | 0 <= i < j < |g.nodes| :: g.nodes[i] != g.nodes[j])
    && g.neighbours.Keys == SetOf(g.nodes) && g.subs.Keys == SetOf(g.nodes)
    && (forall n | n in g.neighbours :: g.neighbours[n] <= SetOf(g.nodes))
    && g.origin in g.nodes
  }

  /** subscribedToMsg */
  predicate Subscribed(g: Graph, n: PeerId) {
    n in g.subs && exists t | t in g.topics :: t in g.subs[n]
  }

  /** The topics map of a node that has heard all its neighbours' announcements. */
  function View(g: Graph, n: PeerId): map<Topic, set<PeerId>>
    requires n in g.neighbours
  {
    map t | t in g.topics :: set m | m in g.neighbours[n] && m in g.subs && t in g.subs[m]
  }

  function Forwards(g: Graph, n: PeerId, from: PeerId): set<PeerId>
    requires n in g.neighbours
  {
    Recipients(g.neighbours[n], View(g, n), from, g.author, g.topics)
  }

  predicate Link(g: Graph, n: PeerId, m: PeerId) {
    n in g.neighbours && m in g.neighbours[n] && Subscribed(g, m)
  }

  /** The message may travel this way. */
  predicate Edge(g: Graph, n: PeerId, m: PeerId) {
    Link(g, n, m) && m != g.author
  }

  datatype Hop = Hop(from: PeerId, to: PeerId)

  /** `flight` are the copies sent and not yet handled, `checking` those that a node lets validate, `ready`
    * the nodes past markSeen, with where their copy came from. */
  datatype Net = Net(
    flight: multiset<Hop>, checking: multiset<Hop>, seen: set<PeerId>, ready: map<PeerId, PeerId>,
    published: seq<Hop>)

  datatype Event =
    | Handle(hop: Hop, validate: bool)   // handleIncomingRPC, or the origin's own Publish
    | Mark(hop: Hop)                     // a worker's markSeen
    | Release(n: PeerId)                 // publishMessage after validation

  /** publishMessage: the node forwards what it received from `from`. */
  function Publishing(g: Graph, s: Net, n: PeerId, from: PeerId): Net
    requires n in g.neighbours
  {
    s.(flight := s.flight + multiset(set m | m in Forwards(g, n, from) :: Hop(n, m)),
       published := s.published + [Hop(from, n)])
  }

  ghost predicate Next(g: Graph, s: Net, e: Event, s': Net)
    requires IsNetwork(g)
  {
    match e
    case Handle(hop, validate) =>
      && hop in s.flight && hop.to in g.neighbours
      && var s1 := s.(flight := s.flight - multiset{hop});
      && s' == if (hop.from != hop.to && !Subscribed(g, hop.to)) || hop.to in s.seen then s1
               else if validate then s1.(checking := s.checking + multiset{hop})
               else Publishing(g, s1.(seen := s.seen + {hop.to}), hop.to, hop.from)
    case Mark(hop) =>
      && hop in s.checking
      && var s1 := s.(checking := s.checking - multiset{hop});
      && s' == if hop.to in s.seen then s1
               else s1.(seen := s.seen + {hop.to}, ready := s.ready[hop.to := hop.from])
    case Release(n) =>
      && n in s.ready && n in g.neighbours
      && s' == Publishing(g, s.(ready := s.ready - {n}), n, s.ready[n])
  }

  /** The application publishes at the origin: a copy from the origin to itself. */
  function Begin(g: Graph): Net {
    Net(multiset{Hop(g.origin, g.origin)}, multiset{}, {}, map[], [])
  }

  ghost predicate IsRun(g: Graph, states: seq<Net>, events: seq<Event>)
    requires IsNetwork(g)
  {
    && |states| == |events| + 1 && states[0] == Begin(g)
    && forall i | 0 <= i < |events| :: Next(g, states[i], events[i], states[i + 1])
  }

  /** Nothing is in flight, in validation, or about to be published. */
  predicate Settled(s: Net) {
    s.flight == multiset{} && s.checking == multiset{} && s.ready == map[]
  }

  function PublishedAt(s: Net): set<PeerId> {
    set i | 0 <= i < |s.published| :: s.published[i].to
  }
}
