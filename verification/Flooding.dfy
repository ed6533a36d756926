/** Flooding terminates, and reaches exactly the nodes it can reach, each once. */
module Flooding {

  import opened MessageCache
  import opened FloodSub
  import opened FloodNet
  import opened Listing
  import Sizes

  /** Publish forwards along every edge but back to where the message came from. */
  lemma {:induction false} ForwardsAreEdges(g: Graph, n: PeerId, from: PeerId)
    requires IsNetwork(g) && n in g.neighbours
    ensures forall m :: m in Forwards(g, n, from) <==> Edge(g, n, m) && m != from
  {
    forall m ensures m in Forwards(g, n, from) <==> Edge(g, n, m) && m != from {
      if Edge(g, n, m) {
        var t :| t in g.topics && t in g.subs[m];
        assert m in View(g, n)[t];
      }
    }
  }

  // ----- termination -----

  function Degree(g: Graph, n: PeerId): nat {
    if n in g.neighbours then |g.neighbours[n]| else 0
  }

  function Weight(g: Graph, s: Net, n: PeerId): nat {
    if n in s.ready then 2 * Degree(g, n) + 1
    else if n in s.seen then 0
    else 2 * Degree(g, n) + 2
  }

  function Weights(g: Graph, s: Net, nodes: seq<PeerId>): nat {
    if nodes == [] then 0 else Weights(g, s, nodes[..|nodes| - 1]) + Weight(g, s, nodes[|nodes| - 1])
  }

  function Measure(g: Graph, s: Net): nat {
    Weights(g, s, g.nodes) + 2 * |s.flight| + |s.checking|
  }

  lemma {:induction false} SameWeights(g: Graph, s: Net, s': Net, nodes: seq<PeerId>)
    requires forall n | n in nodes :: Weight(g, s', n) == Weight(g, s, n)
    ensures Weights(g, s', nodes) == Weights(g, s, nodes)
  {
    hide Weight;
    if nodes != [] {
      SameWeights(g, s, s', nodes[..|nodes| - 1]);
    }
  }

  /** One node's weight changes. */
  lemma {:induction false} OneWeight(g: Graph, s: Net, s': Net, nodes: seq<PeerId>, k: nat)
    requires k < |nodes| && forall i, j | 0 <= i < j < |nodes| :: nodes[i] != nodes[j]
    requires forall n | n in nodes && n != nodes[k] :: Weight(g, s', n) == Weight(g, s, n)
    ensures Weights(g, s', nodes) - Weight(g, s', nodes[k]) == Weights(g, s, nodes) - Weight(g, s, nodes[k])
  {
    hide Weight;
    var init := nodes[..|nodes| - 1];
    if k == |nodes| - 1 {
      forall n | n in init ensures Weight(g, s', n) == Weight(g, s, n) {}
      SameWeights(g, s, s', init);
    } else {
      assert init[k] == nodes[k];
      OneWeight(g, s, s', init, k);
      assert nodes[|nodes| - 1] in nodes;
    }
  }

  lemma {:induction false} FewForwards(g: Graph, n: PeerId, from: PeerId)
    requires IsNetwork(g) && n in g.neighbours
    ensures |Forwards(g, n, from)| <= Degree(g, n)
    ensures |multiset(set m | m in Forwards(g, n, from) :: Hop(n, m))| == |Forwards(g, n, from)|
  {
    ForwardsAreEdges(g, n, from);
    Sizes.OfPart(Forwards(g, n, from), g.neighbours[n]);
    HopsOf(n, Forwards(g, n, from));
  }

  lemma {:induction false} HopsOf(n: PeerId, ms: set<PeerId>)
    ensures |multiset(set m | m in ms :: Hop(n, m))| == |ms|
  {
    if ms == {} {
      assert (set m | m in ms :: Hop(n, m)) == {};
    } else {
      var x :| x in ms;
      HopsOf(n, ms - {x});
      assert (set m | m in ms :: Hop(n, m)) == (set m | m in ms - {x} :: Hop(n, m)) + {Hop(n, x)};
    }
  }

  lemma {:induction false} Position(g: Graph, n: PeerId) returns (k: nat)
    requires IsNetwork(g) && n in g.neighbours
    ensures k < |g.nodes| && g.nodes[k] == n
  {
    assert n in SetOf(g.nodes);
    k :| 0 <= k < |g.nodes| && g.nodes[k] == n;
  }

  /** A node that publishes sends no more than its weight allows. */
  lemma {:induction false} PublishDecreases(g: Graph, s: Net, s1: Net, n: PeerId, from: PeerId)
    requires IsNetwork(g) && n in g.neighbours && n !in s1.ready && n in s1.seen && Weight(g, s, n) > 2 * Degree(g, n)
    requires forall m | m != n :: (m in s1.ready <==> m in s.ready) && (m in s1.seen <==> m in s.seen)
    requires |s1.flight| <= |s.flight| && |s1.checking| <= |s.checking|
    ensures Measure(g, Publishing(g, s1, n, from)) < Measure(g, s)
  {
    var s' := Publishing(g, s1, n, from);
    var k := Position(g, n);
    OneWeight(g, s, s', g.nodes, k);
    FewForwards(g, n, from);
    assert |s'.flight| == |s1.flight| + |multiset(set m | m in Forwards(g, n, from) :: Hop(n, m))|;
  }

  lemma {:induction false} HandleDecreases(g: Graph, s: Net, hop: Hop, validate: bool, s': Net)
    requires IsNetwork(g) && Next(g, s, Handle(hop, validate), s') && s.ready.Keys <= s.seen
    ensures Measure(g, s') < Measure(g, s)
  {
    hide Subscribed, Forwards, IsNetwork;
    var s1 := s.(flight := s.flight - multiset{hop});
    assert |s1.flight| == |s.flight| - 1;
    if (hop.from != hop.to && !Subscribed(g, hop.to)) || hop.to in s.seen || validate {
      SameWeights(g, s, s', g.nodes);
    } else {
      PublishDecreases(g, s, s1.(seen := s.seen + {hop.to}), hop.to, hop.from);
    }
  }

  lemma {:induction false} MarkDecreases(g: Graph, s: Net, hop: Hop, s': Net)
    requires IsNetwork(g) && Next(g, s, Mark(hop), s') && s.ready.Keys <= s.seen && hop.to in g.neighbours
    ensures Measure(g, s') < Measure(g, s)
  {
    assert |s'.checking| == |s.checking| - 1;
    if hop.to in s.seen {
      SameWeights(g, s, s', g.nodes);
    } else {
      var k := Position(g, hop.to);
      OneWeight(g, s, s', g.nodes, k);
    }
  }

  lemma {:induction false} StepDecreases(g: Graph, s: Net, e: Event, s': Net)
    requires IsNetwork(g) && Next(g, s, e, s') && s.ready.Keys <= s.seen
    requires forall hop | hop in s.checking :: hop.to in g.neighbours
    ensures Measure(g, s') < Measure(g, s)
  {
    hide Measure, IsNetwork;
    match e
    case Handle(hop, validate) => HandleDecreases(g, s, hop, validate, s');
    case Mark(hop) => MarkDecreases(g, s, hop, s');
    case Release(n) => PublishDecreases(g, s, s.(ready := s.ready - {n}), n, s.ready[n]);
  }

  // ----- what holds of every reachable state -----

  /** Where copies come from, and where they are. */
  ghost predicate Sound(g: Graph, s: Net) {
    && (forall hop | hop in s.flight || hop in s.checking ::
          hop == Hop(g.origin, g.origin) || (hop.from in PublishedAt(s) && Edge(g, hop.from, hop.to)))
    && (forall n | n in s.ready ::
          s.ready[n] == n == g.origin || (s.ready[n] in PublishedAt(s) && Edge(g, s.ready[n], n)))
    && (forall i | 0 <= i < |s.published| ::
          var hop := s.published[i];
          hop == Hop(g.origin, g.origin) || (hop.from in PublishedAt(s) && Edge(g, hop.from, hop.to)))
  }

  /** A node is seen exactly if it is about to publish or has published, and it does so once. */
  ghost predicate Once(s: Net) {
    && s.seen == s.ready.Keys + PublishedAt(s) && s.ready.Keys !! PublishedAt(s)
    && forall i, j | 0 <= i < j < |s.published| :: s.published[i].to != s.published[j].to
  }

  /** A copy is on its way to the node, or it has seen one. */
  predicate Told(s: Net, n: PeerId, m: PeerId) {
    Hop(n, m) in s.flight || Hop(n, m) in s.checking || m in s.seen
  }

  /** A node that published has told everyone it can, unless that is where its copy came from. */
  ghost predicate Complete(g: Graph, s: Net) {
    && Told(s, g.origin, g.origin)
    && forall i, m | 0 <= i < |s.published| && Edge(g, s.published[i].to, m) && m != s.published[i].from ::
         Told(s, s.published[i].to, m)
  }

  ghost predicate Inv(g: Graph, s: Net) {
    Sound(g, s) && Once(s) && Complete(g, s)
  }

  lemma {:induction false} PublishedSnoc(s: Net, s': Net, hop: Hop)
    requires s'.published == s.published + [hop]
    ensures PublishedAt(s') == PublishedAt(s) + {hop.to}
  {
    forall n ensures n in PublishedAt(s') <==> n in PublishedAt(s) + {hop.to} {
      if n in PublishedAt(s) {
        var i :| 0 <= i < |s.published| && s.published[i].to == n;
        assert s'.published[i].to == n;
      }
      if n == hop.to {
        assert s'.published[|s.published|].to == n;
      }
    }
  }

  /** The same copies, or fewer of those that no longer matter. */
  lemma {:induction false} MoveKeepsInv(g: Graph, s: Net, s': Net, hop: Hop)
    requires Inv(g, s) && s'.seen >= s.seen && s'.ready == s.ready && s'.published == s.published && s'.seen == s.seen
    requires forall h | h != hop :: (h in s'.flight <==> h in s.flight) && (h in s'.checking <==> h in s.checking)
    requires hop in s'.flight || hop in s'.checking ==> hop in s.flight || hop in s.checking
    requires hop.to in s.seen || hop in s'.flight || hop in s'.checking
    ensures Inv(g, s')
  {
    assert PublishedAt(s') == PublishedAt(s);
    forall n, m | Told(s, n, m) ensures Told(s', n, m) {
    }
  }

  lemma {:induction false} MarkKeepsInv(g: Graph, s: Net, s': Net, hop: Hop)
    requires Inv(g, s) && hop in s.checking && hop.to !in s.seen
    requires s' == s.(checking := s.checking - multiset{hop}, seen := s.seen + {hop.to},
                      ready := s.ready[hop.to := hop.from])
    ensures Inv(g, s')
  {
    hide Edge, PublishedAt, Sound, Once, Complete;
    MarkKeepsSound(g, s, s', hop);
    MarkKeepsOnce(s, s', hop);
    MarkKeepsComplete(g, s, s', hop);
  }

  lemma {:induction false} SamePublished(s: Net, s': Net)
    requires s'.published == s.published
    ensures PublishedAt(s') == PublishedAt(s)
  {
  }

  lemma {:induction false} MarkKeepsSound(g: Graph, s: Net, s': Net, hop: Hop)
    requires Sound(g, s) && hop in s.checking
    requires s' == s.(checking := s.checking - multiset{hop}, seen := s.seen + {hop.to},
                      ready := s.ready[hop.to := hop.from])
    ensures Sound(g, s')
  {
    SamePublished(s, s');
    hide Edge, PublishedAt;
  }

  lemma {:induction false} MarkKeepsOnce(s: Net, s': Net, hop: Hop)
    requires Once(s) && hop.to !in s.seen
    requires s' == s.(checking := s'.checking, seen := s.seen + {hop.to}, ready := s.ready[hop.to := hop.from])
    ensures Once(s')
  {
    SamePublished(s, s');
    hide PublishedAt;
  }

  lemma {:induction false} MarkKeepsComplete(g: Graph, s: Net, s': Net, hop: Hop)
    requires Complete(g, s) && hop in s.checking
    requires s' == s.(checking := s.checking - multiset{hop}, seen := s.seen + {hop.to}, ready := s'.ready)
    ensures Complete(g, s')
  {
    hide Edge;
    forall n, m | Told(s, n, m) ensures Told(s', n, m) {
    }
  }

  lemma {:induction false} PublishKeepsSound(g: Graph, s: Net, s1: Net, n: PeerId, from: PeerId)
    requires IsNetwork(g) && Sound(g, s) && n in g.neighbours
    requires s1.flight <= s.flight && s1.checking == s.checking && s1.published == s.published
    requires forall m | m in s1.ready :: m in s.ready && s1.ready[m] == s.ready[m]
    requires from == n == g.origin || (from in PublishedAt(s) && Edge(g, from, n))
    ensures Sound(g, Publishing(g, s1, n, from))
  {
    hide Edge, PublishedAt, Forwards;
    ForwardsAreEdges(g, n, from);
    PublishedSnoc(s, Publishing(g, s1, n, from), Hop(from, n));
  }

  lemma {:induction false} PublishKeepsOnce(g: Graph, s: Net, s1: Net, n: PeerId, from: PeerId)
    requires Once(s) && n in g.neighbours && n !in PublishedAt(s)
    requires s1.published == s.published && s1.ready == s.ready - {n} && s1.seen == s.seen + {n}
    ensures Once(Publishing(g, s1, n, from))
  {
    var s' := Publishing(g, s1, n, from);
    PublishedSnoc(s, s', Hop(from, n));
    forall i, j | 0 <= i < j < |s'.published| ensures s'.published[i].to != s'.published[j].to {
      assert s.published[i].to in PublishedAt(s);
    }
    hide PublishedAt, Forwards;
  }

  lemma {:induction false} PublishKeepsComplete(g: Graph, s: Net, s1: Net, n: PeerId, from: PeerId)
    requires IsNetwork(g) && Complete(g, s) && n in g.neighbours && n in s1.seen && s1.seen >= s.seen
    requires s1.checking == s.checking && s1.published == s.published
    requires forall hop | hop in s.flight && hop !in s1.flight :: hop.to in s1.seen
    ensures Complete(g, Publishing(g, s1, n, from))
  {
    hide Edge, Forwards;
    var s' := Publishing(g, s1, n, from);
    ForwardsAreEdges(g, n, from);
    forall x, y | Told(s, x, y) ensures Told(s', x, y) {
    }
    forall i, m | 0 <= i < |s'.published| && Edge(g, s'.published[i].to, m) && m != s'.published[i].from
      ensures Told(s', s'.published[i].to, m)
    {
      if i < |s.published| {
        assert Told(s, s.published[i].to, m);
      } else {
        assert Hop(n, m) in s'.flight;
      }
    }
  }

  lemma {:induction false} PublishKeepsInv(g: Graph, s: Net, s1: Net, n: PeerId, from: PeerId)
    requires IsNetwork(g) && Inv(g, s) && n in g.neighbours && n !in PublishedAt(s)
    requires s1.flight <= s.flight && s1.checking == s.checking && s1.published == s.published
    requires s1.ready == s.ready - {n} && s1.seen == s.seen + {n}
    requires forall hop | hop in s.flight && hop !in s1.flight :: hop.to == n
    requires from == n == g.origin || (from in PublishedAt(s) && Edge(g, from, n))
    ensures Inv(g, Publishing(g, s1, n, from))
  {
    hide Edge, PublishedAt, Forwards, Publishing, Sound, Once, Complete;
    PublishKeepsSound(g, s, s1, n, from);
    PublishKeepsOnce(g, s, s1, n, from);
    PublishKeepsComplete(g, s, s1, n, from);
  }

  lemma {:induction false} HandleKeepsInv(g: Graph, s: Net, hop: Hop, validate: bool, s': Net)
    requires IsNetwork(g) && Inv(g, s) && Next(g, s, Handle(hop, validate), s')
    ensures Inv(g, s')
  {
    hide Publishing, Forwards, PublishedAt, Complete, Subscribed, Edge;
    var s1 := s.(flight := s.flight - multiset{hop});
    if (hop.from != hop.to && !Subscribed(g, hop.to)) || hop.to in s.seen || validate {
      SubscribedTarget(g, s, hop);
      MoveKeepsInv(g, s, s', hop);
    } else {
      assert s.ready - {hop.to} == s.ready;
      PublishKeepsInv(g, s, s1.(seen := s.seen + {hop.to}), hop.to, hop.from);
    }
  }

  lemma {:induction false} SubscribedTarget(g: Graph, s: Net, hop: Hop)
    requires Sound(g, s) && hop in s.flight
    ensures hop.from != hop.to ==> Subscribed(g, hop.to)
  {
    hide PublishedAt, Subscribed;
  }

  lemma {:induction false} ReleaseKeepsInv(g: Graph, s: Net, n: PeerId, s': Net)
    requires IsNetwork(g) && Inv(g, s) && Next(g, s, Release(n), s')
    ensures Inv(g, s')
  {
    hide Publishing, Forwards, PublishedAt, Complete, Edge;
    assert s.seen + {n} == s.seen;
    PublishKeepsInv(g, s, s.(ready := s.ready - {n}), n, s.ready[n]);
  }

  lemma {:induction false} NextKeepsInv(g: Graph, s: Net, e: Event, s': Net)
    requires IsNetwork(g) && Inv(g, s) && Next(g, s, e, s')
    ensures Inv(g, s')
  {
    hide Publishing, PublishedAt, Complete, Sound, Once;
    match e
    case Handle(hop, validate) => HandleKeepsInv(g, s, hop, validate, s');
    case Mark(hop) =>
      if hop.to in s.seen {
        MoveKeepsInv(g, s, s', hop);
      } else {
        MarkKeepsInv(g, s, s', hop);
      }
    case Release(n) => ReleaseKeepsInv(g, s, n, s');
  }

  lemma {:induction false} BeginInv(g: Graph)
    ensures Inv(g, Begin(g))
  {
    assert PublishedAt(Begin(g)) == {};
  }

  lemma {:induction false} RunKeepsInv(g: Graph, states: seq<Net>, events: seq<Event>, i: nat)
    requires IsNetwork(g) && IsRun(g, states, events) && i < |states|
    ensures Inv(g, states[i])
  {
    hide Inv, Next, IsNetwork;
    if i == 0 {
      BeginInv(g);
    } else {
      RunKeepsInv(g, states, events, i - 1);
      NextKeepsInv(g, states[i - 1], events[i - 1], states[i]);
    }
  }

  lemma {:induction false} CopiesHaveTargets(g: Graph, s: Net)
    requires IsNetwork(g) && Inv(g, s)
    ensures s.ready.Keys <= s.seen && forall hop | hop in s.checking :: hop.to in g.neighbours
  {
    hide PublishedAt, Subscribed;
    assert g.origin in SetOf(g.nodes);
  }

  /** Every run is finite: it is no longer than the measure of its beginning. */
  lemma {:induction false} FloodingTerminates(g: Graph, states: seq<Net>, events: seq<Event>, i: nat)
    requires IsNetwork(g) && IsRun(g, states, events) && i < |states|
    ensures i <= Measure(g, Begin(g)) - Measure(g, states[i])
  {
    hide Inv, Next, IsNetwork, Measure;
    if i > 0 {
      FloodingTerminates(g, states, events, i - 1);
      RunKeepsInv(g, states, events, i - 1);
      CopiesHaveTargets(g, states[i - 1]);
      StepDecreases(g, states[i - 1], events[i - 1], states[i]);
    }
  }

  // ----- what a settled network has published -----

  /** A path from the origin along edges. */
  ghost predicate IsPath(g: Graph, path: seq<PeerId>) {
    && path != [] && path[0] == g.origin
    && forall i | 0 <= i < |path| - 1 :: Edge(g, path[i], path[i + 1])
  }

  ghost predicate Reachable(g: Graph, n: PeerId) {
    exists path :: IsPath(g, path) && path[|path| - 1] == n
  }

  lemma {:induction false} ReachableStep(g: Graph, n: PeerId, m: PeerId)
    requires Reachable(g, n) && Edge(g, n, m)
    ensures Reachable(g, m)
  {
    hide Edge;
    var path :| IsPath(g, path) && path[|path| - 1] == n;
    assert IsPath(g, path + [m]);
  }

  ghost predicate OnlyReachable(g: Graph, s: Net) {
    forall n | n in PublishedAt(s) :: Reachable(g, n)
  }

  lemma {:induction false} NextKeepsReachable(g: Graph, s: Net, e: Event, s': Net)
    requires IsNetwork(g) && Inv(g, s) && OnlyReachable(g, s) && Next(g, s, e, s')
    ensures OnlyReachable(g, s')
  {
    hide Edge, Forwards, Reachable, Complete, Once, IsNetwork, PublishedAt, Subscribed;
    if |s'.published| > |s.published| {
      var hop := s'.published[|s.published|];
      PublishedSnoc(s, s', hop);
      OriginReachable(g);
      if hop != Hop(g.origin, g.origin) {
        ReachableStep(g, hop.from, hop.to);
      }
    } else {
      SamePublished(s, s');
    }
  }

  lemma {:induction false} OriginReachable(g: Graph)
    ensures Reachable(g, g.origin)
  {
    assert IsPath(g, [g.origin]);
  }

  lemma {:induction false} RunKeepsReachable(g: Graph, states: seq<Net>, events: seq<Event>, i: nat)
    requires IsNetwork(g) && IsRun(g, states, events) && i < |states|
    ensures OnlyReachable(g, states[i])
  {
    hide Inv, Next, IsNetwork, Reachable;
    if i > 0 {
      RunKeepsReachable(g, states, events, i - 1);
      RunKeepsInv(g, states, events, i - 1);
      NextKeepsReachable(g, states[i - 1], events[i - 1], states[i]);
    }
  }

  /** Where a copy came from has published, in a settled network as in any other. */
  lemma {:induction false} PublishedClosed(g: Graph, s: Net, n: PeerId, m: PeerId)
    requires Inv(g, s) && Settled(s) && n in PublishedAt(s) && Edge(g, n, m)
    ensures m in PublishedAt(s)
  {
    hide Edge;
    var i :| 0 <= i < |s.published| && s.published[i].to == n;
    if m == s.published[i].from {
    } else {
      assert Told(s, n, m);
    }
  }

  lemma {:induction false} PathPublished(g: Graph, s: Net, path: seq<PeerId>)
    requires Inv(g, s) && Settled(s) && IsPath(g, path)
    ensures path[|path| - 1] in PublishedAt(s)
  {
    hide Edge;
    if |path| == 1 {
      assert Told(s, g.origin, g.origin);
    } else {
      var init := path[..|path| - 1];
      forall i | 0 <= i < |init| - 1 ensures Edge(g, init[i], init[i + 1]) {
        assert Edge(g, path[i], path[i + 1]);
      }
      PathPublished(g, s, init);
      PublishedClosed(g, s, init[|init| - 1], path[|path| - 1]);
    }
  }

  /** Once nothing is in flight, the nodes that have published are exactly the origin and those it reaches
    * through subscribed nodes other than the author, each once. */
  lemma {:induction false} FloodingIsComplete(g: Graph, states: seq<Net>, events: seq<Event>, i: nat)
    requires IsNetwork(g) && IsRun(g, states, events) && i < |states| && Settled(states[i])
    ensures forall n :: n in PublishedAt(states[i]) <==> Reachable(g, n)
    ensures forall a, b | 0 <= a < b < |states[i].published| :: states[i].published[a].to != states[i].published[b].to
  {
    hide Next, IsNetwork, PublishedAt, Edge;
    RunKeepsInv(g, states, events, i);
    RunKeepsReachable(g, states, events, i);
    forall n ensures n in PublishedAt(states[i]) <==> Reachable(g, n) {
      if Reachable(g, n) {
        var path :| IsPath(g, path) && path[|path| - 1] == n;
        PathPublished(g, states[i], path);
      }
    }
  }

  /** A state that is not settled can go on. */
  lemma {:induction false} UnsettledGoesOn(g: Graph, states: seq<Net>, events: seq<Event>, i: nat)
    requires IsNetwork(g) && IsRun(g, states, events) && i < |states|
    ensures Settled(states[i]) <==> !exists e, s' :: Next(g, states[i], e, s')
  {
    RunKeepsInv(g, states, events, i);
    var s := states[i];
    if !Settled(s) {
      CanGoOn(g, s);
    }
  }

  lemma {:induction false} CanHandle(g: Graph, s: Net, hop: Hop)
    requires IsNetwork(g) && hop in s.flight && hop.to in g.neighbours
    ensures exists e, s' :: Next(g, s, e, s')
  {
    hide IsNetwork, Subscribed;
    var s1 := s.(flight := s.flight - multiset{hop});
    var s' := if (hop.from != hop.to && !Subscribed(g, hop.to)) || hop.to in s.seen then s1
              else s1.(checking := s.checking + multiset{hop});
    assert Next(g, s, Handle(hop, true), s');
  }

  lemma {:induction false} CanMark(g: Graph, s: Net, hop: Hop)
    requires IsNetwork(g) && hop in s.checking
    ensures exists e, s' :: Next(g, s, e, s')
  {
    hide IsNetwork, Subscribed;
    var s1 := s.(checking := s.checking - multiset{hop});
    var s' := if hop.to in s.seen then s1
              else s1.(seen := s.seen + {hop.to}, ready := s.ready[hop.to := hop.from]);
    assert Next(g, s, Mark(hop), s');
  }

  lemma {:induction false} CanRelease(g: Graph, s: Net, n: PeerId)
    requires IsNetwork(g) && n in s.ready && n in g.neighbours
    ensures exists e, s' :: Next(g, s, e, s')
  {
    hide IsNetwork, Publishing;
    assert Next(g, s, Release(n), Publishing(g, s.(ready := s.ready - {n}), n, s.ready[n]));
  }

  lemma {:induction false} CanGoOn(g: Graph, s: Net)
    requires IsNetwork(g) && Inv(g, s) && !Settled(s)
    ensures exists e, s' :: Next(g, s, e, s')
  {
    hide IsNetwork, Next, Inv;
    CopiesHaveTargets(g, s);
    if s.flight != multiset{} {
      var hop :| hop in s.flight;
      FlightTargets(g, s, hop);
      CanHandle(g, s, hop);
    } else if s.checking != multiset{} {
      var hop :| hop in s.checking;
      CanMark(g, s, hop);
    } else {
      assert s.ready.Keys != {};
      var n :| n in s.ready;
      ReadyTargets(g, s, n);
      CanRelease(g, s, n);
    }
  }

  lemma {:induction false} FlightTargets(g: Graph, s: Net, hop: Hop)
    requires IsNetwork(g) && Inv(g, s) && hop in s.flight
    ensures hop.to in g.neighbours
  {
    hide PublishedAt, Subscribed;
    assert g.origin in SetOf(g.nodes);
  }

  lemma {:induction false} ReadyTargets(g: Graph, s: Net, n: PeerId)
    requires IsNetwork(g) && Inv(g, s) && n in s.ready
    ensures n in g.neighbours
  {
    hide PublishedAt, Subscribed;
    assert g.origin in SetOf(g.nodes);
  }

  // ----- the usual case: the author is the origin -----

  /** Through subscribed nodes, whoever the author is. */
  ghost predicate IsPlainPath(g: Graph, path: seq<PeerId>) {
    && path != [] && path[0] == g.origin
    && forall i | 0 <= i < |path| - 1 :: Link(g, path[i], path[i + 1])
  }

  /** Not sending to the author costs nothing if the author is the origin. */
  lemma {:induction false} AuthorAtOrigin(g: Graph, path: seq<PeerId>)
    requires g.author == g.origin && IsPlainPath(g, path)
    ensures Reachable(g, path[|path| - 1])
    decreases |path|
  {
    hide Link, Reachable;
    var n := |path| - 1;
    if path[n] == g.origin {
      OriginReachable(g);
    } else {
      assert n > 0;
      var init := path[..n];
      forall i | 0 <= i < |init| - 1 ensures Link(g, init[i], init[i + 1]) {
        assert Link(g, path[i], path[i + 1]);
      }
      AuthorAtOrigin(g, init);
      assert Link(g, path[n - 1], path[n - 1 + 1]);
      ReachableStep(g, path[n - 1], path[n]);
    }
  }

  /** But an author elsewhere is not sent its message, nor anyone behind it. */
  lemma {:induction false} AuthorElsewhere(g: Graph, path: seq<PeerId>)
    requires g.author != g.origin && IsPath(g, path)
    ensures g.author !in path
  {
    forall i | 0 <= i < |path| ensures path[i] != g.author {
      if i > 0 {
        assert Edge(g, path[i - 1], path[i - 1 + 1]);
      }
    }
  }

  // ----- what skipping the author costs -----

  ghost predicate PlainReachable(g: Graph, n: PeerId) {
    exists path :: IsPlainPath(g, path) && path[|path| - 1] == n
  }

  lemma {:induction false} ReachableIsPlain(g: Graph, n: PeerId)
    requires Reachable(g, n)
    ensures PlainReachable(g, n)
  {
    hide Link;
    var path :| IsPath(g, path) && path[|path| - 1] == n;
    forall i | 0 <= i < |path| - 1 ensures Link(g, path[i], path[i + 1]) {
      assert Edge(g, path[i], path[i + 1]);
    }
    assert IsPlainPath(g, path);
  }

  /** If no path leads to the author, every path is one the message may take. */
  lemma {:induction false} AuthorOutOfReach(g: Graph, path: seq<PeerId>)
    requires !PlainReachable(g, g.author) && IsPlainPath(g, path)
    ensures IsPath(g, path)
  {
    hide Link;
    forall i | 0 <= i < |path| - 1 ensures Edge(g, path[i], path[i + 1]) {
      var prefix := path[..i + 2];
      forall k | 0 <= k < |prefix| - 1 ensures Link(g, prefix[k], prefix[k + 1]) {
        assert Link(g, path[k], path[k + 1]);
      }
      assert IsPlainPath(g, prefix) && prefix[|prefix| - 1] == path[i + 1];
      assert Link(g, path[i], path[i + 1]);
    }
  }

  lemma {:induction false} AuthorWithinReach(g: Graph)
    requires g.author != g.origin
    ensures !Reachable(g, g.author)
  {
    if Reachable(g, g.author) {
      var path :| IsPath(g, path) && path[|path| - 1] == g.author;
      AuthorElsewhere(g, path);
    }
  }

  /** Every node is reached that could be, exactly if the author is the origin or out of reach itself. */
  lemma {:induction false} SkippingCostsNothingIff(g: Graph)
    ensures (forall n :: Reachable(g, n) <==> PlainReachable(g, n)) <==>
            g.author == g.origin || !PlainReachable(g, g.author)
  {
    hide Reachable, PlainReachable;
    forall n | Reachable(g, n) ensures PlainReachable(g, n) {
      ReachableIsPlain(g, n);
    }
    if g.author == g.origin || !PlainReachable(g, g.author) {
      forall n | PlainReachable(g, n) ensures Reachable(g, n) {
        PlainIsReachable(g, n);
      }
    } else {
      AuthorWithinReach(g);
    }
  }

  lemma {:induction false} PlainIsReachable(g: Graph, n: PeerId)
    requires PlainReachable(g, n) && (g.author == g.origin || !PlainReachable(g, g.author))
    ensures Reachable(g, n)
  {
    hide Link, Edge;
    var path :| IsPlainPath(g, path) && path[|path| - 1] == n;
    if g.author == g.origin {
      AuthorAtOrigin(g, path);
    } else {
      AuthorOutOfReach(g, path);
    }
  }

  /** A settled network has published exactly at the origin and the nodes reachable from it through
    * subscribed nodes, if and only if the author is the origin or not among those nodes. */
  lemma {:induction false} FloodingReachesAllIff(g: Graph, states: seq<Net>, events: seq<Event>, i: nat)
    requires IsNetwork(g) && IsRun(g, states, events) && i < |states| && Settled(states[i])
    ensures (forall n :: n in PublishedAt(states[i]) <==> PlainReachable(g, n)) <==>
            g.author == g.origin || !PlainReachable(g, g.author)
  {
    hide IsNetwork, IsRun, PublishedAt, Reachable, PlainReachable;
    FloodingIsComplete(g, states, events, i);
    SkippingCostsNothingIff(g);
  }

  /** Three nodes in a line, all subscribed; the first publishes in the name of the second. */
  function Line(a: PeerId, b: PeerId, c: PeerId, t: Topic): Graph {
    Graph([a, b, c], map[a := {b}, b := {a, c}, c := {b}], map[a := {t}, b := {t}, c := {t}], a, b, [t])
  }

  /** In every run the message stays where it is: neither the author nor the node behind it gets it. */
  lemma {:induction false} NodesBehindTheAuthorAreMissed(
      a: PeerId, b: PeerId, c: PeerId, t: Topic, states: seq<Net>, events: seq<Event>, i: nat)
    requires a != b && b != c && a != c
    ensures var g := Line(a, b, c, t);
            && IsNetwork(g) && PlainReachable(g, b) && PlainReachable(g, c)
            && (IsRun(g, states, events) && i < |states| && Settled(states[i]) ==> PublishedAt(states[i]) == {a})
  {
    var g := Line(a, b, c, t);
    LineIsNetwork(a, b, c, t);
    LinePaths(a, b, c, t);
    if IsRun(g, states, events) && i < |states| && Settled(states[i]) {
      FloodingIsComplete(g, states, events, i);
      OriginReachable(g);
      forall n ensures n in PublishedAt(states[i]) <==> n in {a} {
        if Reachable(g, n) {
          OnlyTheOrigin(a, b, c, t, n);
        }
      }
    }
  }

  lemma {:induction false} LineIsNetwork(a: PeerId, b: PeerId, c: PeerId, t: Topic)
    requires a != b && b != c && a != c
    ensures IsNetwork(Line(a, b, c, t))
  {
    assert SetOf([a, b, c]) == {a, b, c};
  }

  lemma {:induction false} LinePaths(a: PeerId, b: PeerId, c: PeerId, t: Topic)
    requires a != b && b != c && a != c
    ensures PlainReachable(Line(a, b, c, t), b) && PlainReachable(Line(a, b, c, t), c)
  {
    var g := Line(a, b, c, t);
    assert t in g.topics;
    assert Link(g, a, b) && Link(g, b, c);
    assert IsPlainPath(g, [a, b]) && IsPlainPath(g, [a, b, c]);
  }

  lemma {:induction false} OnlyTheOrigin(a: PeerId, b: PeerId, c: PeerId, t: Topic, n: PeerId)
    requires a != b && b != c && a != c && Reachable(Line(a, b, c, t), n)
    ensures n == a
  {
    var g := Line(a, b, c, t);
    var path :| IsPath(g, path) && path[|path| - 1] == n;
    FirstStep(g, path);
    assert forall m :: !Edge(g, a, m);
  }

  lemma {:induction false} FirstStep(g: Graph, path: seq<PeerId>)
    requires IsPath(g, path)
    ensures |path| > 1 ==> exists m :: Edge(g, g.origin, m)
  {
    hide Edge;
    if |path| > 1 {
      assert Edge(g, path[0], path[0 + 1]);
    }
  }
}
