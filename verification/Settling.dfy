/** With nothing new to announce, deliveries and retries come to an end, and then every peer knows the truth. */
module Settling {

  import opened Announcements
  import opened Capacity
  import opened ChannelSafety
  import opened Loop
  import opened MessageCache

  /** The writer, the network, and the retries. */
  predicate IsDelivery(e: Event) {
    e.Dequeued? || e.Arrived? || e.RetryDue?
  }

  /** A retry that finds the queue full again. */
  predicate IsFutile(s: State, e: Event) {
    e.RetryDue? && IsCurrent(s, e.retry) && e.retry.peer in s.peers && |s.peers[e.retry.peer].queue| >= PEER_QUEUE
  }

  /** Nothing is queued, in transit, or to be retried. */
  ghost predicate Settled(s: State) {
    s.retries == multiset{} && forall p | p in s.peers :: Ahead(s, p) == []
  }

  /** What holds in every state of a well-used run. */
  ghost predicate Regular(s: State) {
    Safe(s) && s.remote.Keys == s.peers.Keys && s.transit.Keys == s.peers.Keys
  }

  // ----- the measure -----

  function Load(s: State, p: PeerId): nat {
    |InTransit(s, p)| + if p in s.peers then 2 * |s.peers[p].queue| else 0
  }

  ghost function Loads(s: State, ps: set<PeerId>): nat {
    if ps == {} then 0
    else
      var p :| p in ps;
      Load(s, p) + Loads(s, ps - {p})
  }

  ghost function Measure(s: State): nat {
    3 * |s.retries| + Loads(s, s.peers.Keys)
  }

  lemma {:induction false} AnyFirst(s: State, ps: set<PeerId>, p: PeerId)
    requires p in ps
    ensures Loads(s, ps) == Load(s, p) + Loads(s, ps - {p})
  {
    hide Load;
    var q :| q in ps && Loads(s, ps) == Load(s, q) + Loads(s, ps - {q});
    if q != p {
      AnyFirst(s, ps - {q}, p);
      AnyFirst(s, ps - {p}, q);
      assert ps - {q} - {p} == ps - {p} - {q};
    }
  }

  lemma {:induction false} SameLoads(s: State, s': State, ps: set<PeerId>)
    requires forall p | p in ps :: Load(s', p) == Load(s, p)
    ensures Loads(s', ps) == Loads(s, ps)
  {
    hide Load;
    if ps != {} {
      var p :| p in ps;
      AnyFirst(s, ps, p);
      AnyFirst(s', ps, p);
      SameLoads(s, s', ps - {p});
    }
  }

  /** One peer's load changes. */
  lemma {:induction false} OneLoad(s: State, s': State, p: PeerId)
    requires p in s.peers && s'.peers.Keys == s.peers.Keys
    requires forall q | q in s.peers && q != p :: Load(s', q) == Load(s, q)
    ensures Loads(s', s'.peers.Keys) - Load(s', p) == Loads(s, s.peers.Keys) - Load(s, p)
  {
    hide Load;
    AnyFirst(s, s.peers.Keys, p);
    AnyFirst(s', s.peers.Keys, p);
    SameLoads(s, s', s.peers.Keys - {p});
  }

  lemma {:induction false} SendingDecreases(s: State, p: PeerId)
    requires p in s.peers && p in s.transit && s.peers[p].queue != []
    ensures Measure(Sending(s, p)) < Measure(s)
  {
    hide Loads;
    OneLoad(s, Sending(s, p), p);
  }

  lemma {:induction false} ArrivalDecreases(s: State, p: PeerId)
    requires p in s.peers && p in s.remote && p in s.transit && s.transit[p] != []
    ensures Measure(Heeded(s, p)) < Measure(s)
  {
    hide Loads, Heard;
    OneLoad(s, Heeded(s, p), p);
  }

  lemma {:induction false} OneRetry(retries: multiset<Retry>, r: Retry)
    requires r in retries
    ensures |retries - multiset{r}| == |retries| - 1
    ensures retries - multiset{r} + multiset{r} == retries
  {
  }

  lemma {:induction false} FutileRetry(s: State, r: Retry)
    requires r in s.retries && IsFutile(s, RetryDue(r))
    ensures Retried(s, r) == s
  {
    OneRetry(s.retries, r);
    assert s.peers[r.peer := s.peers[r.peer]] == s.peers;
  }

  lemma {:induction false} RetryTells(s: State, r: Retry)
    requires r in s.retries && r.peer in s.peers && |s.peers[r.peer].queue| < PEER_QUEUE && IsCurrent(s, r)
    ensures Measure(Retried(s, r)) < Measure(s)
  {
    OneRetry(s.retries, r);
    hide Loads;
    OneLoad(s, Retried(s, r), r.peer);
  }

  lemma {:induction false} RetryDropped(s: State, r: Retry)
    requires r in s.retries && !(IsCurrent(s, r) && r.peer in s.peers)
    ensures Measure(Retried(s, r)) < Measure(s)
  {
    OneRetry(s.retries, r);
    hide Loads;
    SameLoads(s, Retried(s, r), s.peers.Keys);
  }

  lemma {:induction false} RetryDecreases(s: State, r: Retry)
    requires r in s.retries
    ensures if IsFutile(s, RetryDue(r)) then Retried(s, r) == s else Measure(Retried(s, r)) < Measure(s)
  {
    hide Measure, Retried, IsCurrent;
    if IsFutile(s, RetryDue(r)) {
      FutileRetry(s, r);
    } else if IsCurrent(s, r) && r.peer in s.peers {
      RetryTells(s, r);
    } else {
      RetryDropped(s, r);
    }
  }

  lemma {:induction false} RetriedKeepsTables(s: State, r: Retry)
    ensures var s' := Retried(s, r);
            s'.peers.Keys == s.peers.Keys && s' == s.(peers := s'.peers, retries := s'.retries)
  {
  }

  lemma {:induction false} DeliveryKeepsTables(s: State, e: Event)
    requires s.remote.Keys == s.peers.Keys && s.transit.Keys == s.peers.Keys && IsDelivery(e) && Enabled(s, e)
    ensures var s' := After(s, e);
            && s'.peers.Keys == s.peers.Keys && s'.remote.Keys == s.peers.Keys && s'.transit.Keys == s.peers.Keys
            && s'.myTopics == s.myTopics
  {
    hide Heard, Retried, IsHello;
    if e.RetryDue? {
      RetriedKeepsTables(s, e.retry);
    }
  }

  lemma {:induction false} DeliveryShrinks(s: State, e: Event)
    requires s.remote.Keys == s.peers.Keys && IsDelivery(e) && Enabled(s, e)
    ensures if IsFutile(s, e) then After(s, e) == s else Measure(After(s, e)) < Measure(s)
  {
    hide Measure, Sending, Heeded, Retried, IsHello;
    match e
    case Dequeued(p) => SendingDecreases(s, p);
    case Arrived(p) => ArrivalDecreases(s, p);
    case RetryDue(r) => RetryDecreases(s, r);
  }

  /** Every delivery makes progress, but for a futile retry, which changes nothing. */
  lemma {:induction false} DeliveryDecreases(s: State, e: Event, s': State)
    requires Regular(s) && Step(s, e, s') && IsDelivery(e)
    ensures if IsFutile(s, e) then s' == s else Measure(s') < Measure(s)
    ensures Regular(s') && s'.peers.Keys == s.peers.Keys && s'.myTopics == s.myTopics
  {
    hide Safe, Measure, IsFutile, Panics, Enabled, After;
    PanicsOnlyOnRecancel(s, e);
    SafeUnlessMisused(s, e, s');
    DeliveryKeepsTables(s, e);
    DeliveryShrinks(s, e);
  }

  // ----- runs of deliveries -----

  /** The steps from `i` to `j` that are not futile. */
  ghost function Useful(states: seq<State>, events: seq<Event>, i: nat, j: nat): nat
    requires i <= j <= |events| < |states|
    decreases j - i
  {
    if i == j then 0
    else Useful(states, events, i, j - 1) + if IsFutile(states[j - 1], events[j - 1]) then 0 else 1
  }

  /** However deliveries and retries interleave, only so many steps change anything. */
  lemma {:induction false} DeliveriesEnd(states: seq<State>, events: seq<Event>, i: nat, j: nat)
    requires IsRun(states, events) && i <= j <= |events| && Regular(states[i])
    requires forall k | i <= k < j :: IsDelivery(events[k])
    ensures Regular(states[j]) && Useful(states, events, i, j) + Measure(states[j]) <= Measure(states[i])
    decreases j - i
  {
    hide Step, Regular, Measure, IsFutile, IsDelivery;
    if i < j {
      DeliveriesEnd(states, events, i, j - 1);
      DeliveryDecreases(states[j - 1], events[j - 1], states[j]);
    }
  }

  /** And there is always one to take, until nothing is left. */
  lemma {:induction false} UnsettledGoesOn(s: State)
    requires Regular(s)
    ensures Settled(s) <==> !exists e, s' :: IsDelivery(e) && !IsFutile(s, e) && Step(s, e, s')
  {
    if Settled(s) {
      forall e, s' | IsDelivery(e) && Step(s, e, s') ensures false {
        SettledIsQuiet(s, e);
      }
    } else {
      var e := NextDelivery(s);
      assert Step(s, e, After(s, e));
    }
  }

  lemma {:induction false} SettledIsQuiet(s: State, e: Event)
    requires Regular(s) && Settled(s) && IsDelivery(e)
    ensures !Enabled(s, e)
  {
    if !e.RetryDue? && e.p in s.peers {
      assert Ahead(s, e.p) == [];
    }
  }

  lemma {:induction false} NextDelivery(s: State) returns (e: Event)
    requires Regular(s) && !Settled(s)
    ensures IsDelivery(e) && !IsFutile(s, e) && Enabled(s, e) && Step(s, e, After(s, e))
  {
    if p :| p in s.peers && s.peers[p].queue != [] {
      e := Dequeued(p);
    } else if p :| p in s.peers && InTransit(s, p) != [] {
      e := Arrived(p);
    } else {
      forall p | p in s.peers ensures Ahead(s, p) == [] {}
      var r :| r in s.retries;
      e := RetryDue(r);
    }
    PanicsOnlyOnRecancel(s, e);
  }

  // ----- with what was proved of announcements -----

  lemma {:induction false} ReachedRegular(states: seq<State>, events: seq<Event>, i: nat)
    requires IsRun(states, events) && WellUsed(events) && WithinSessions(states, events) && i < |states|
    ensures Regular(states[i])
  {
    hide IsRun, WellUsed, WithinSessions, Safe, BeginsBadly, WillKnow;
    ChannelsNeverMisused(states, events, i);
    SessionsConverge(states, events, i);
  }

  lemma {:induction false} SessionsSnoc(states: seq<State>, events: seq<Event>, e: Event, s: State)
    requires |states| == |events| + 1 && WithinSessions(states, events) && WellUsed(events) && IsDelivery(e)
    ensures WithinSessions(states + [s], events + [e]) && WellUsed(events + [e])
  {
    hide Clean, Ahead;
    var states', events' := states + [s], events + [e];
    forall k | 0 <= k < |events'|
      ensures events'[k].NewPeer? ==> events'[k].view == {}
      ensures events'[k].WriterRespawned? && events'[k].p in states'[k].peers ==>
                Clean(states'[k], events'[k].p, Ahead(states'[k], events'[k].p))
    {
      if k < |events| {
        assert events'[k] == events[k] && states'[k] == states[k];
      }
    }
  }

  /** Within sessions, wherever a run has got to: deliveries alone, no more of them than the measure says, lead
    * to a state in which every connected peer knows exactly the topics we are in. */
  lemma {:induction false} DeliveriesSettle(states: seq<State>, events: seq<Event>)
    returns (states': seq<State>, events': seq<Event>)
    requires IsRun(states, events) && WellUsed(events) && WithinSessions(states, events)
    ensures IsRun(states', events') && states <= states' && events <= events'
    ensures forall k | |events| <= k < |events'| :: IsDelivery(events'[k])
    ensures |events'| - |events| <= Measure(states[|events|])
    ensures var s, s' := states[|events|], states'[|events'|];
            && s'.peers.Keys == s.peers.Keys && s'.myTopics == s.myTopics && Settled(s')
            && forall p | p in s'.peers :: p in s'.remote && s'.remote[p] == s.myTopics.Keys
    decreases Measure(states[|events|])
  {
    hide Step, Regular, Measure, IsFutile, IsDelivery, WellUsed, WithinSessions, After, Enabled;
    var s := states[|events|];
    ReachedRegular(states, events, |events|);
    if Settled(s) {
      states', events' := states, events;
      forall p | p in s.peers ensures p in s.remote && s.remote[p] == s.myTopics.Keys {
        SettledSessionsKnow(states, events, |events|, p);
      }
    } else {
      var e := NextDelivery(s);
      DeliveryDecreases(s, e, After(s, e));
      RunSnoc(states, events, e, After(s, e));
      SessionsSnoc(states, events, e, After(s, e));
      states', events' := DeliveriesSettle(states + [After(s, e)], events + [e]);
      forall k | |events| <= k < |events'| ensures IsDelivery(events'[k]) {
        if k == |events| {
          assert events'[k] == (events + [e])[k];
        }
      }
    }
  }
}
