/** Runs of one subscription: its topic changes and its consumer takes events, in any order. */
module PeerEventRuns {

  import opened MessageCache
  import opened PeerEvents

  /** `delivered` is what the consumer has been handed so far. */
  datatype State = State(members: set<PeerId>, log: Log, delivered: seq<PeerEvent>)

  datatype Step =
    | Changed(evt: PeerEvent)  // sendNotification
    | Pulled(p: PeerId)        // NextPeerEvent

  ghost predicate Next(s: State, e: Step, s': State) {
    match e
    case Changed(evt) =>
      IsNews(s.members, evt) && s' == State(After(s.members, evt), Added(s.log, evt), s.delivered)
    case Pulled(p) =>
      p in s.log && s' == State(s.members, s.log - {p}, s.delivered + [PeerEvent(s.log[p], p)])
  }

  /** handleAddSubscription fills the log with a Join for every member. */
  predicate Begins(s: State) {
    s.log == (map p | p in s.members :: PeerJoin) && s.delivered == []
  }

  ghost predicate IsRun(states: seq<State>, steps: seq<Step>) {
    && |states| == |steps| + 1 && Begins(states[0])
    && forall i | 0 <= i < |steps| :: Next(states[i], steps[i], states[i + 1])
  }

  /** The log holds one event for each peer about which the consumer is wrong, and nothing else; every
    * event it was handed was news to it. */
  ghost predicate Tracks(s: State) {
    s.log == Pending(View(s.delivered), s.members) && AllNews(s.delivered)
  }

  lemma {:induction false} NextKeepsTracks(s: State, e: Step, s': State)
    requires Tracks(s) && Next(s, e, s')
    ensures Tracks(s')
  {
    hide AllNews, View, Pending, Added, After, IsNews;
    match e
    case Changed(evt) => AddedIsPending(View(s.delivered), s.members, evt);
    case Pulled(p) =>
      PulledIsPending(View(s.delivered), s.members, p);
      ViewSnoc(s.delivered, PeerEvent(s.log[p], p));
  }

  lemma {:induction false} PeerEventsTrackMembership(states: seq<State>, steps: seq<Step>, i: nat)
    requires IsRun(states, steps) && i < |states|
    ensures Tracks(states[i])
  {
    hide Next;
    if i == 0 {
      hide Tracks;
      BeginsTracking(states[0]);
    } else {
      PeerEventsTrackMembership(states, steps, i - 1);
      NextKeepsTracks(states[i - 1], steps[i - 1], states[i]);
    }
  }

  lemma {:induction false} BeginsTracking(s: State)
    requires Begins(s)
    ensures Tracks(s)
  {
    assert View([]) == {};
    assert s.log == Pending({}, s.members);
  }

  /** What one entry, or none, says about a peer. */
  lemma {:induction false} EntryMeans(states: seq<State>, steps: seq<Step>, i: nat, p: PeerId)
    requires IsRun(states, steps) && i < |states|
    ensures var s := states[i];
            && (p in s.log && s.log[p] == PeerJoin <==> p in s.members && p !in View(s.delivered))
            && (p in s.log && s.log[p] == PeerLeave <==> p !in s.members && p in View(s.delivered))
            && (p !in s.log <==> (p in s.members <==> p in View(s.delivered)))
  {
    hide Next, View;
    PeerEventsTrackMembership(states, steps, i);
  }

  /** For each peer the delivered events alternate, and the first is a Join. */
  lemma {:induction false} DeliveredEventsAlternate(states: seq<State>, steps: seq<Step>, i: nat, p: PeerId, j: nat)
    requires IsRun(states, steps) && i < |states|
    requires j < |states[i].delivered| && states[i].delivered[j].peer == p
    ensures var d := states[i].delivered;
            && (Silent(d, p, 0, j) ==> d[j].kind == PeerJoin)
            && (forall k | 0 <= k < j && d[k].peer == p && Silent(d, p, k + 1, j) :: d[j].kind != d[k].kind)
  {
    hide Next, View, Silent;
    PeerEventsTrackMembership(states, steps, i);
    NewsAlternates(states[i].delivered, p, j);
  }

  /** If the topic stays as it is, taking as many events as the log holds empties it, and then the consumer
    * knows the membership of the topic. */
  lemma {:induction false} DrainingYieldsMembership(states: seq<State>, steps: seq<Step>, i: nat, j: nat)
    requires IsRun(states, steps) && i <= j < |states| && forall k | i <= k < j :: steps[k].Pulled?
    ensures |states[j].log.Keys| == |states[i].log.Keys| - (j - i) && states[j].members == states[i].members
    ensures j - i == |states[i].log.Keys| ==> View(states[j].delivered) == states[i].members
    decreases j - i
  {
    hide Next, View, Pending, AllNews;
    PeerEventsTrackMembership(states, steps, j);
    if i < j {
      DrainingYieldsMembership(states, steps, i, j - 1);
      assert Next(states[j - 1], steps[j - 1], states[j]);
      PullShortens(states[j - 1], steps[j - 1], states[j]);
    }
    EmptyLogMeansKnown(states[j]);
  }

  lemma {:induction false} PullShortens(s: State, e: Step, s': State)
    requires Next(s, e, s') && e.Pulled?
    ensures |s'.log.Keys| == |s.log.Keys| - 1 && s'.members == s.members
  {
    assert s'.log.Keys == s.log.Keys - {e.p};
  }

  lemma {:induction false} EmptyLogMeansKnown(s: State)
    requires Tracks(s)
    ensures |s.log.Keys| == 0 ==> View(s.delivered) == s.members
  {
    hide View, Pending;
    NothingPending(View(s.delivered), s.members);
    if |s.log.Keys| == 0 {
      assert s.log.Keys == {};
    }
  }
}
