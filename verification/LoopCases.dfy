/** The cases of the event loop that keep it safe, one by one. */
module LoopCases {

  import opened Capacity
  import opened MessageCache
  import opened Loop
  import opened ChannelSafety

  /** A case that is not a misuse is taken without panic and leaves a safe state. */
  lemma {:induction false} Taken(s: State, e: Event, s': State)
    requires Safe(s) && Enabled(s, e) && !IsMisuse(s, e) && s' == After(s, e)
    ensures Step(s, e, s') && Safe(s')
  {
    hide Safe, After, Enabled;
    PanicsOnlyOnRecancel(s, e);
    NotPanicked(s);
    SafeUnlessMisused(s, e, s');
  }

  lemma {:induction false} NotPanicked(s: State)
    requires Safe(s)
    ensures !s.panicked
  {
  }

  lemma {:induction false} ChannelsOpen(s: State)
    requires Safe(s)
    ensures AllOpen(s)
  {
  }

  lemma {:induction false} TakenNewPeer(s: State, p: PeerId, hello: Packet, view: set<Topic>, s': State)
    requires Safe(s) && IsHello(hello, s.myTopics.Keys)
    requires s' == if p in s.peers || p in s.blacklist then s
                   else s.(peers := s.peers[p := Channel([hello], true)], remote := s.remote[p := view],
                           transit := s.transit[p := []])
    ensures Step(s, NewPeer(p, hello, view), s') && Safe(s')
  {
    hide Safe, IsHello;
    Taken(s, NewPeer(p, hello, view), s');
  }

  lemma {:induction false} TakenStream(s: State, p: PeerId)
    requires Safe(s) && !(p in s.peers && p in s.blacklist)
    ensures Step(s, StreamOpened(p), s)
  {
    hide Safe;
    Taken(s, StreamOpened(p), s);
  }

  /** The stream of a connected and blacklisted peer is no panic yet, but the state is no longer safe. */
  lemma {:induction false} TakenBlacklistedStream(s: State, p: PeerId, s': State)
    requires Safe(s) && p in s.peers && p in s.blacklist
    requires s' == s.(peers := s.peers[p := Closed(s.peers[p])])
    ensures Step(s, StreamOpened(p), s') && !Safe(s')
  {
    hide Safe;
    NotPanicked(s);
    PanicsOnlyOnRecancel(s, StreamOpened(p));
    SafeUnlessMisused(s, StreamOpened(p), s');
  }

  lemma {:induction false} TakenDrop(s: State, p: PeerId, s': State)
    requires Safe(s) && s' == Dropped(s, p)
    ensures Step(s, StreamFailed(p), s') && Step(s, PeerGone(p), s') && Safe(s')
  {
    hide Safe, Dropped;
    Taken(s, StreamFailed(p), s');
    Taken(s, PeerGone(p), s');
  }

  lemma {:induction false} TakenRespawn(s: State, p: PeerId, hello: Packet, s': State)
    requires Safe(s) && IsHello(hello, s.myTopics.Keys) && p in s.peers
    requires s' == Respawned(s, p, hello)
    ensures Step(s, WriterRespawned(p, hello), s') && Safe(s')
  {
    hide Safe, IsHello;
    Taken(s, WriterRespawned(p, hello), s');
  }

  lemma {:induction false} TakenBlacklist(s: State, p: PeerId, s': State)
    requires Safe(s) && s' == Dropped(s.(blacklist := s.blacklist + {p}), p)
    ensures Step(s, BlacklistPeer(p), s') && Safe(s')
  {
    hide Safe, Dropped;
    Taken(s, BlacklistPeer(p), s');
  }

  lemma {:induction false} TakenSubscribe(s: State, sub: SubId, t: Topic, s': State)
    requires Safe(s) && sub !in s.subs && s' == Subscribed(s, sub, t)
    ensures Step(s, Subscribe(sub, t), s') && Safe(s')
  {
    hide Safe, Subscribed;
    Taken(s, Subscribe(sub, t), s');
  }

  lemma {:induction false} TakenCancel(s: State, sub: SubId, s': State)
    requires Safe(s) && sub in s.subs && !Recancelled(s, sub) && s' == Cancelled(s, sub)
    ensures Step(s, Cancel(sub), s') && Safe(s')
  {
    hide Safe, Cancelled;
    Taken(s, Cancel(sub), s');
  }

  lemma {:induction false} TakenRecancel(s: State, sub: SubId)
    requires Safe(s) && Recancelled(s, sub)
    ensures Step(s, Cancel(sub), s.(panicked := true))
  {
    hide Safe, Cancelled;
    NotPanicked(s);
    PanicsOnlyOnRecancel(s, Cancel(sub));
  }

  lemma {:induction false} TakenStaleRetry(s: State, r: Retry, s': State)
    requires Safe(s) && r in s.retries && (!IsCurrent(s, r) || r.peer !in s.peers)
    requires s' == s.(retries := s.retries - multiset{r})
    ensures Step(s, RetryDue(r), s') && Safe(s')
  {
    hide Safe;
    Taken(s, RetryDue(r), s');
  }

  lemma {:induction false} TakenRetry(s: State, r: Retry, s': State)
    requires Safe(s) && r in s.retries && IsCurrent(s, r) && r.peer in s.peers
    requires s' == s.(peers := s.peers[r.peer := Offered(s.peers[r.peer], [(r.topic, r.on)])],
                      retries := s.retries - multiset{r}
                                 + if |s.peers[r.peer].queue| < PEER_QUEUE then multiset{} else multiset{r})
    ensures Step(s, RetryDue(r), s') && Safe(s')
  {
    hide Safe, Offered;
    Taken(s, RetryDue(r), s');
  }

  lemma {:induction false} TakenShutdown(s: State, s': State)
    requires Safe(s) && s' == s.(peers := map[], remote := map[], transit := map[])
    ensures Step(s, Shutdown, s') && Safe(s')
  {
    hide Safe;
    Taken(s, Shutdown, s');
  }
}
