/** No channel is misused: nothing is sent on a closed channel and none is closed twice. */
module ChannelSafety {

  import opened MessageCache
  import opened Loop

  /** A subscription's channel is open as long as it is listed under its topic. */
  predicate SubsSafe(s: State) {
    && (forall t, sub | t in s.myTopics && sub in s.myTopics[t] :: sub in s.subs && s.subs[sub] == Sub(t, true))
    && (forall sub | sub in s.subs && s.subs[sub].open :: sub in SubsOf(s, s.subs[sub].topic))
    && (forall t | t in s.myTopics :: s.myTopics[t] != {})
  }

  /** Every peer's channel is open, and every subscription's that is listed. */
  predicate Safe(s: State) {
    !s.panicked && AllOpen(s) && SubsSafe(s)
  }

  /** A subscription that was cancelled before, while its topic has others. */
  predicate Recancelled(s: State, sub: SubId) {
    sub in s.subs && !s.subs[sub].open && s.subs[sub].topic in s.myTopics
  }

  /** In a safe state only one case can panic: a second Cancel of a subscription to a topic that has
    * others. */
  lemma {:induction false} PanicsOnlyOnRecancel(s: State, e: Event)
    requires Safe(s)
    ensures Panics(s, e) <==> e.Cancel? && Recancelled(s, e.sub)
  {
  }

  /** Cancelling twice in a row panics exactly if the topic has another subscription. */
  lemma {:induction false} CancelTwice(s: State, sub: SubId)
    requires Safe(s) && sub in s.subs && s.subs[sub].open
    ensures Panics(After(s, Cancel(sub)), Cancel(sub)) <==> SubsOf(s, s.subs[sub].topic) != {sub}
  {
    hide Announced;
    var t := s.subs[sub].topic;
    assert sub in s.myTopics[t];
    if s.myTopics[t] - {sub} == {} {
      AnnouncedOnlySends(s.(subs := s.subs[sub := Sub(t, false)], myTopics := s.myTopics - {t}), t, false);
      assert s.myTopics[t] == {sub};
    }
  }

  lemma {:induction false} AnnouncedOnlySends(s: State, t: Topic, on: bool)
    ensures var s' := Announced(s, t, on);
            && s' == s.(peers := s'.peers, retries := s'.retries) && s'.peers.Keys == s.peers.Keys
            && (AllOpen(s) ==> AllOpen(s'))
  {
  }

  /** The two ways out of safety: a second Cancel of a live topic's subscription, and the stream of a peer
    * that is both connected and blacklisted. */
  predicate IsMisuse(s: State, e: Event) {
    || (e.Cancel? && Recancelled(s, e.sub))
    || (e.StreamOpened? && e.p in s.peers && e.p in s.blacklist)
  }

  /** A case keeps the state safe exactly if it is neither. */
  lemma {:induction false} SafeUnlessMisused(s: State, e: Event, s': State)
    requires Safe(s) && Step(s, e, s')
    ensures Safe(s') <==> !IsMisuse(s, e)
  {
    hide After, Panics, SubsSafe, Enabled, Safe;
    PanicsOnlyOnRecancel(s, e);
    if e.Cancel? {
      if !Recancelled(s, e.sub) {
        CancelledExists(s, e);
        CancelKeepsSafe(s, e.sub);
      } else {
        PanickedIsUnsafe(s);
      }
    } else if e.Subscribe? {
      SubscribedIsNew(s, e);
      SubscribeKeepsSafe(s, e.sub, e.t);
    } else if e.StreamOpened? {
      StreamKeepsSafe(s, e.p);
    } else {
      OthersKeepSafe(s, e);
    }
  }

  /** Either misuse leads to a panic, at once or with the end of the peer. */
  lemma {:induction false} MisuseLeadsToPanic(s: State, e: Event)
    requires Safe(s) && IsMisuse(s, e)
    ensures if e.Cancel? then Panics(s, e) else !Panics(s, e) && Panics(After(s, e), PeerGone(e.p))
  {
  }

  lemma {:induction false} PanickedIsUnsafe(s: State)
    ensures !Safe(s.(panicked := true))
  {
  }

  lemma {:induction false} CancelledExists(s: State, e: Event)
    requires Enabled(s, e) && e.Cancel?
    ensures e.sub in s.subs
  {
  }

  lemma {:induction false} SubscribedIsNew(s: State, e: Event)
    requires Enabled(s, e) && e.Subscribe?
    ensures e.sub !in s.subs
  {
  }

  lemma {:induction false} SameSubs(s: State, s': State)
    requires SubsSafe(s) && s'.subs == s.subs && s'.myTopics == s.myTopics
    ensures SubsSafe(s')
  {
  }

  lemma {:induction false} StreamKeepsSafe(s: State, p: PeerId)
    requires Safe(s)
    ensures Safe(After(s, StreamOpened(p))) <==> !(p in s.peers && p in s.blacklist)
  {
    hide SubsSafe;
    SameSubs(s, After(s, StreamOpened(p)));
    if p in s.peers && p in s.blacklist {
      assert !After(s, StreamOpened(p)).peers[p].open;
    }
  }

  /** All but the channels and what the peers believe. */
  ghost predicate SameTables(s: State, s': State) {
    s'.subs == s.subs && s'.myTopics == s.myTopics && s'.panicked == s.panicked
  }

  /** The channels stay open, and the tables of subscriptions as they are. */
  ghost predicate Harmless(s: State, s': State) {
    SameTables(s, s') && (AllOpen(s) ==> AllOpen(s'))
  }

  lemma {:induction false} HarmlessIsSafe(s: State, s': State)
    requires Safe(s) && Harmless(s, s')
    ensures Safe(s')
  {
  }

  lemma {:induction false} ConnectedHarmless(s: State, p: PeerId, hello: Packet, view: set<Topic>)
    ensures Harmless(s, Connected(s, p, hello, view))
  {
  }

  lemma {:induction false} DroppedHarmless(s: State, p: PeerId)
    ensures Harmless(s, Dropped(s, p)) && Harmless(s, Dropped(s.(blacklist := s.blacklist + {p}), p))
  {
  }

  lemma {:induction false} RetriedHarmless(s: State, r: Retry)
    ensures Harmless(s, Retried(s, r))
  {
  }

  lemma {:induction false} HeededHarmless(s: State, p: PeerId)
    requires p in s.remote && p in s.transit && s.transit[p] != []
    ensures Harmless(s, Heeded(s, p))
  {
    hide Heard;
  }

  lemma {:induction false} SendingHarmless(s: State, p: PeerId)
    requires p in s.peers && p in s.transit && s.peers[p].queue != []
    ensures Harmless(s, Sending(s, p))
  {
  }

  lemma {:induction false} OthersKeepSafe(s: State, e: Event)
    requires Safe(s) && Enabled(s, e) && !e.Cancel? && !e.Subscribe? && !e.StreamOpened?
    ensures Safe(After(s, e))
  {
    hide Safe, SubsSafe, IsHello, Connected, Streamed, Sending, Heeded, Retried, Dropped, Subscribed, Cancelled;
    match e {
      case NewPeer(p, hello, view) => ConnectedHarmless(s, p, hello, view);
      case StreamFailed(p) => DroppedHarmless(s, p);
      case PeerGone(p) => DroppedHarmless(s, p);
      case BlacklistPeer(p) => DroppedHarmless(s, p);
      case RetryDue(r) => RetriedHarmless(s, r);
      case Dequeued(p) => SendingHarmless(s, p);
      case Arrived(p) => HeededHarmless(s, p);
      case _ =>
    }
    HarmlessIsSafe(s, After(s, e));
  }

  lemma {:induction false} CancelKeepsSafe(s: State, sub: SubId)
    requires Safe(s) && sub in s.subs && !Recancelled(s, sub)
    ensures Safe(After(s, Cancel(sub)))
  {
    hide Announced, SubsSafe, AllOpen;
    CancelKeepsSubs(s, sub);
    var t := s.subs[sub].topic;
    AnnouncedOnlySends(s.(subs := s.subs[sub := Sub(t, false)], myTopics := s.myTopics - {t}), t, false);
    SameOpen(s, s.(subs := s.subs[sub := Sub(t, false)], myTopics := s.myTopics - {t}));
    SameOpen(s, s.(subs := s.subs[sub := Sub(t, false)], myTopics := s.myTopics[t := SubsOf(s, t) - {sub}]));
  }

  lemma {:induction false} SameOpen(s: State, s': State)
    requires s'.peers == s.peers
    ensures AllOpen(s') <==> AllOpen(s)
  {
  }

  lemma {:induction false} CancelKeepsSubs(s: State, sub: SubId)
    requires SubsSafe(s) && sub in s.subs && !Recancelled(s, sub)
    ensures SubsSafe(Cancelled(s, sub))
  {
    hide Announced;
    var t := s.subs[sub].topic;
    AnnouncedOnlySends(s.(subs := s.subs[sub := Sub(t, false)], myTopics := s.myTopics - {t}), t, false);
    if t in s.myTopics {
      Unlisting(s, sub);
      hide SubsSafe;
      var s1 := s.(subs := s.subs[sub := Sub(t, false)]);
      var left := s.myTopics[t] - {sub};
      SameSubs(s1.(myTopics := if left == {} then s.myTopics - {t} else s.myTopics[t := left]), Cancelled(s, sub));
    }
  }

  lemma {:induction false} Unlisting(s: State, sub: SubId)
    requires SubsSafe(s) && sub in s.subs && s.subs[sub].topic in s.myTopics
    ensures var t, left := s.subs[sub].topic, s.myTopics[s.subs[sub].topic] - {sub};
            SubsSafe(s.(subs := s.subs[sub := Sub(t, false)],
                        myTopics := if left == {} then s.myTopics - {t} else s.myTopics[t := left]))
  {
  }

  lemma {:induction false} SubscribeKeepsSafe(s: State, sub: SubId, t: Topic)
    requires Safe(s) && sub !in s.subs
    ensures Safe(After(s, Subscribe(sub, t)))
  {
    hide Announced, SubsSafe, AllOpen;
    SubscribeKeepsSubs(s, sub, t);
    AnnouncedOnlySends(s, t, true);
    SameOpen(s, Subscribed(s, sub, t).(peers := s.peers));
    SameOpen(Announced(s, t, true), Subscribed(s, sub, t).(peers := Announced(s, t, true).peers));
  }

  lemma {:induction false} SubscribeKeepsSubs(s: State, sub: SubId, t: Topic)
    requires SubsSafe(s) && sub !in s.subs
    ensures SubsSafe(Subscribed(s, sub, t))
  {
    hide Announced;
    AnnouncedOnlySends(s, t, true);
  }

  /** Blacklisting only through BlacklistPeer, and each subscription cancelled at most once. */
  ghost predicate WellUsed(events: seq<Event>) {
    && (forall i | 0 <= i < |events| :: !events[i].BlacklistedElsewhere?)
    && (forall i, j | 0 <= i < j < |events| && events[i].Cancel? && events[j].Cancel? :: events[i].sub != events[j].sub)
  }

  /** A closed subscription was cancelled. */
  ghost predicate ClosedByCancel(s: State, events: seq<Event>) {
    forall sub | sub in s.subs && !s.subs[sub].open :: Cancel(sub) in events
  }

  lemma {:induction false} StepClosesByCancel(s: State, e: Event, s': State, events: seq<Event>)
    requires Step(s, e, s') && ClosedByCancel(s, events)
    ensures ClosedByCancel(s', events + [e])
  {
    hide Announced, Heard, IsHello;
    if e.Cancel? && e.sub in s.subs {
      AnnouncedOnlySends(
        s.(subs := s.subs[e.sub := Sub(s.subs[e.sub].topic, false)], myTopics := s.myTopics - {s.subs[e.sub].topic}),
        s.subs[e.sub].topic, false);
    }
    if e.Subscribe? {
      AnnouncedOnlySends(s, e.t, true);
    }
  }

  predicate Unlisted(s: State) {
    forall p | p in s.peers :: p !in s.blacklist
  }

  /** No connected peer gets blacklisted but behind the event loop's back. */
  lemma {:induction false} StepKeepsUnlisted(s: State, e: Event, s': State)
    requires Step(s, e, s') && Unlisted(s) && !e.BlacklistedElsewhere?
    ensures Unlisted(s')
  {
    hide Announced, Heard, IsHello, Panics;
    if Panics(s, e) {
    } else if e.Subscribe? {
      AnnouncedOnlySends(s, e.t, true);
    } else if e.Cancel? {
      var t := s.subs[e.sub].topic;
      AnnouncedOnlySends(s.(subs := s.subs[e.sub := Sub(t, false)], myTopics := s.myTopics - {t}), t, false);
    }
  }

  /** In every run that is well used: no panic, no blacklisted peer among the connected ones, every peer's
    * channel open, and every subscription's channel open exactly while it is listed. */
  lemma {:induction false} ChannelsNeverMisused(states: seq<State>, events: seq<Event>, i: nat)
    requires IsRun(states, events) && WellUsed(events) && i < |states|
    ensures Safe(states[i]) && Unlisted(states[i]) && ClosedByCancel(states[i], events[..i])
  {
    hide Step, Safe;
    if i == 0 {
      SafeAtFirst(events);
    } else {
      ChannelsNeverMisused(states, events, i - 1);
      SafeUnlessMisused(states[i - 1], events[i - 1], states[i]);
      StepKeepsUnlisted(states[i - 1], events[i - 1], states[i]);
      StepClosesByCancel(states[i - 1], events[i - 1], states[i], events[..i - 1]);
      assert events[..i - 1] + [events[i - 1]] == events[..i];
    }
  }

  lemma {:induction false} SafeAtFirst(events: seq<Event>)
    ensures Safe(BEGINNING) && Unlisted(BEGINNING) && ClosedByCancel(BEGINNING, events[..0])
  {
  }

  /** So the branch that closes the channel of a blacklisted peer as its stream opens is never taken. */
  lemma {:induction false} NoStreamOfABlacklistedPeer(states: seq<State>, events: seq<Event>, i: nat, p: PeerId)
    requires IsRun(states, events) && WellUsed(events) && i < |states| && p in states[i].peers
    ensures p !in states[i].blacklist
  {
    hide Step;
    ChannelsNeverMisused(states, events, i);
  }

  /** When the application blacklists a connected peer itself, opening the stream closes the channel, and
    * the end of the peer closes it again. */
  lemma {:induction false} BlacklistedElsewhereClosesTwice(p: PeerId)
    ensures var s1 := After(BEGINNING, NewPeer(p, [], {}));
            var s2 := After(s1, BlacklistedElsewhere(p));
            var s3 := After(s2, StreamOpened(p));
            !Panics(s2, StreamOpened(p)) && Panics(s3, PeerGone(p))
  {
    var s1 := After(BEGINNING, NewPeer(p, [], {}));
    assert s1.peers[p] == Channel([[]], true);
  }
}
