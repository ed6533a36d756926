/** Subscription (subscription.go) with its log and its one-slot signal channel, and the part of the event
  * loop that feeds it (pubsub.go).
  */
module Notifications {

  import opened MessageCache
  import opened PeerEvents
  import PeerEventRuns
  import Wakeups

  class Subscription {
    const topic: Topic
    var evtLog: Log
    /** The one-slot channel evtLogCh holds a signal. */
    var signalled: bool
    /** The events handed to the consumer so far. */
    ghost var delivered: seq<PeerEvent>

    constructor (topic: Topic)
      ensures this.topic == topic && evtLog == map[] && !signalled && delivered == []
    {
      this.topic, evtLog, signalled := topic, map[], false;
      delivered := [];
    }

    /** The log holds exactly what the consumer has still to be told, and never told it anything twice. */
    ghost predicate Agrees(members: set<PeerId>)
      reads this
    {
      evtLog == Pending(View(delivered), members) && AllNews(delivered)
    }

    /** Log and signal, as the callers of NextPeerEvent share them. */
    ghost function Shared(checking: set<Wakeups.Caller>, waiting: set<Wakeups.Caller>): Wakeups.State
      reads this
    {
      Wakeups.State(evtLog, signalled, checking, waiting)
    }

    /** addToEventLog, called with the lock held. */
    method AddToEventLog(evt: PeerEvent)
      modifies this`evtLog, this`signalled
      ensures forall checking, waiting ::
                Wakeups.Next(old(Shared(checking, waiting)), Wakeups.Notified(evt), Shared(checking, waiting))
      ensures evtLog == Added(old(evtLog), evt)
      ensures signalled == (old(signalled) || evt.peer !in old(evtLog))
    {
      if evt.peer !in evtLog {
        evtLog := evtLog[evt.peer := evt.kind];
        signalled := true;
      } else if evtLog[evt.peer] != evt.kind {
        evtLog := evtLog - {evt.peer};
      }
    }

    /** The loop of handleAddSubscription over the members of the topic: no signal is sent. */
    method FillLog(tmap: set<PeerId>)
      requires evtLog == map[]
      modifies this`evtLog
      ensures evtLog == Pending({}, tmap)
    {
      var rest := tmap;
      while rest != {}
        invariant rest <= tmap && evtLog == map p | p in tmap && p !in rest :: PeerJoin
        decreases |rest|
      {
        var p :| p in rest;
        evtLog := evtLog[p := PeerJoin];
        rest := rest - {p};
      }
    }

    /** One round of NextPeerEvent under its lock: an event is taken if there is one, and a signal is left
      * for the other callers if there are more. */
    method Poll(ghost members: set<PeerId>) returns (evt: PeerEvent, ok: bool)
      requires Agrees(members)
      modifies this
      ensures Agrees(members)
      ensures ok <==> old(evtLog) != map[]
      ensures ok ==> evt.peer in old(evtLog) && evt.kind == old(evtLog)[evt.peer]
                     && evtLog == old(evtLog) - {evt.peer} && delivered == old(delivered) + [evt]
                     && signalled == (old(signalled) || evtLog != map[])
      ensures !ok ==> unchanged(this) && View(delivered) == members
      // a step of the callers' protocol, whoever else is calling, and of the runs of a subscription
      ensures forall c, checking, waiting | c in checking ::
                Wakeups.Next(old(Shared(checking, waiting)),
                             if ok then Wakeups.Took(c, evt.peer) else Wakeups.FoundNone(c),
                             Shared(checking - {c}, if ok then waiting else waiting + {c}))
      ensures ok ==> PeerEventRuns.Next(PeerEventRuns.State(members, old(evtLog), old(delivered)),
                                        PeerEventRuns.Pulled(evt.peer), PeerEventRuns.State(members, evtLog, delivered))
    {
      evt, ok := PullFromEventLog();
      if ok {
        PulledIsPending(View(old(delivered)), members, evt.peer);
        ViewSnoc(old(delivered), evt);
        delivered := delivered + [evt];
        if |evtLog| > 0 {
          signalled := true;
        }
      } else {
        NothingPending(View(delivered), members);
      }
    }

    method PullFromEventLog() returns (evt: PeerEvent, ok: bool)
      modifies this`evtLog
      ensures ok <==> old(evtLog) != map[]
      ensures ok ==> evt.peer in old(evtLog) && evt.kind == old(evtLog)[evt.peer] && evtLog == old(evtLog) - {evt.peer}
      ensures !ok ==> evtLog == old(evtLog)
    {
      if evtLog.Keys == {} {
        return PeerEvent(PeerJoin, PeerId("")), false;
      }
      var k :| k in evtLog.Keys;
      evt := PeerEvent(evtLog[k], k);
      evtLog := evtLog - {k};
      ok := true;
    }
  }

  function MembersOf(topics: map<Topic, set<PeerId>>, t: Topic): set<PeerId> {
    if t in topics then topics[t] else {}
  }

  /** The topics after one subscription option of an incoming RPC. */
  function Learned(topics: map<Topic, set<PeerId>>, from: PeerId, subopt: (Topic, bool)): map<Topic, set<PeerId>> {
    var (t, on) := subopt;
    if on then topics[t := MembersOf(topics, t) + {from}]
    else if t in topics then topics[t := topics[t] - {from}]
    else topics
  }

  function LearnedAll(
      topics: map<Topic, set<PeerId>>, from: PeerId, subopts: seq<(Topic, bool)>): map<Topic, set<PeerId>>
  {
    if subopts == [] then topics
    else Learned(LearnedAll(topics, from, subopts[..|subopts| - 1]), from, subopts[|subopts| - 1])
  }

  predicate IsMember(topics: map<Topic, set<PeerId>>, t: Topic, p: PeerId) {
    t in topics && p in topics[t]
  }

  /** The last option about a topic. */
  ghost predicate SaysLast(subopts: seq<(Topic, bool)>, t: Topic, on: bool) {
    exists i :: 0 <= i < |subopts| && subopts[i] == (t, on) && forall j | i < j < |subopts| :: subopts[j].0 != t
  }

  predicate SaysNothing(subopts: seq<(Topic, bool)>, t: Topic) {
    forall i | 0 <= i < |subopts| :: subopts[i].0 != t
  }

  /** The sender is in a topic exactly if its last option about the topic says so, or there is none and it was in it
    * before; no one else moves. */
  ghost predicate Follows(
      before: map<Topic, set<PeerId>>, after: map<Topic, set<PeerId>>, from: PeerId, subopts: seq<(Topic, bool)>)
  {
    && (forall t :: IsMember(after, t, from) <==>
                    SaysLast(subopts, t, true) || (SaysNothing(subopts, t) && IsMember(before, t, from)))
    && (forall t, p | p != from :: IsMember(after, t, p) <==> IsMember(before, t, p))
  }

  lemma {:induction false} LearnedFollows(topics: map<Topic, set<PeerId>>, from: PeerId, subopts: seq<(Topic, bool)>)
    ensures Follows(topics, LearnedAll(topics, from, subopts), from, subopts)
  {
    if subopts != [] {
      var n := |subopts| - 1;
      LearnedFollows(topics, from, subopts[..n]);
      var before := LearnedAll(topics, from, subopts[..n]);
      forall t
        ensures SaysLast(subopts, t, true) || (SaysNothing(subopts, t) && IsMember(topics, t, from)) <==>
                if subopts[n].0 == t then subopts[n].1 else IsMember(before, t, from)
      {
        LastSaid(subopts, t);
      }
      hide Follows, SaysLast, SaysNothing, LearnedAll;
      var after := LearnedAll(topics, from, subopts);
      assert after == Learned(before, from, subopts[n]) by {
        LearnedSnoc(topics, from, subopts);
      }
      forall t ensures IsMember(after, t, from) <==>
                       SaysLast(subopts, t, true) || (SaysNothing(subopts, t) && IsMember(topics, t, from)) {
      }
      OthersStay(topics, before, from, subopts[..n]);
      FollowsFrom(topics, after, from, subopts);
    }
  }

  lemma {:induction false} LearnedSnoc(topics: map<Topic, set<PeerId>>, from: PeerId, subopts: seq<(Topic, bool)>)
    requires subopts != []
    ensures LearnedAll(topics, from, subopts) ==
            Learned(LearnedAll(topics, from, subopts[..|subopts| - 1]), from, subopts[|subopts| - 1])
  {
  }

  lemma {:induction false} OthersStay(
      before: map<Topic, set<PeerId>>, after: map<Topic, set<PeerId>>, from: PeerId, subopts: seq<(Topic, bool)>)
    requires Follows(before, after, from, subopts)
    ensures forall t, p | p != from :: IsMember(after, t, p) <==> IsMember(before, t, p)
  {
  }

  lemma {:induction false} FollowsFrom(
      before: map<Topic, set<PeerId>>, after: map<Topic, set<PeerId>>, from: PeerId, subopts: seq<(Topic, bool)>)
    requires forall t :: IsMember(after, t, from) <==>
                         SaysLast(subopts, t, true) || (SaysNothing(subopts, t) && IsMember(before, t, from))
    requires forall t, p | p != from :: IsMember(after, t, p) <==> IsMember(before, t, p)
    ensures Follows(before, after, from, subopts)
  {
  }

  /** What the last option adds to those before it. */
  lemma {:induction false} LastSaid(subopts: seq<(Topic, bool)>, t: Topic)
    requires subopts != []
    ensures var n := |subopts| - 1;
            && (SaysLast(subopts, t, true) <==>
                if subopts[n].0 == t then subopts[n].1 else SaysLast(subopts[..n], t, true))
            && (SaysNothing(subopts, t) <==> subopts[n].0 != t && SaysNothing(subopts[..n], t))
  {
    var n := |subopts| - 1;
    if subopts[n].0 == t {
      assert subopts[n] == (t, subopts[n].1);
    } else {
      EarlierSaid(subopts, t);
    }
  }

  lemma {:induction false} EarlierSaid(subopts: seq<(Topic, bool)>, t: Topic)
    requires subopts != [] && subopts[|subopts| - 1].0 != t
    ensures SaysLast(subopts, t, true) <==> SaysLast(subopts[..|subopts| - 1], t, true)
  {
    var n := |subopts| - 1;
    if SaysLast(subopts[..n], t, true) {
      var i :| 0 <= i < n && subopts[..n][i] == (t, true) && forall j | i < j < n :: subopts[..n][j].0 != t;
      forall j | i < j <= n ensures subopts[j].0 != t {
        assert j < n ==> subopts[..n][j] == subopts[j];
      }
      assert subopts[i] == (t, true);
    }
    if SaysLast(subopts, t, true) {
      var i :| 0 <= i <= n && subopts[i] == (t, true) && forall j | i < j <= n :: subopts[j].0 != t;
      assert i < n && subopts[..n][i] == (t, true);
    }
  }

  /** No signal is lost, and a log that becomes non-empty leaves one. */
  predicate Woken(log: Log, signalled: bool, log': Log, signalled': bool) {
    (signalled ==> signalled') && (log' != map[] ==> signalled' || log != map[])
  }

  /** The part of PubSub that knows who is in which topic, and who is to be told. */
  class PubSub {
    var topics: map<Topic, set<PeerId>>
    var myTopics: map<Topic, set<Subscription>>

    constructor ()
      ensures Valid() && topics == map[] && myTopics == map[]
    {
      topics, myTopics := map[], map[];
    }

    ghost function Subs(): set<Subscription>
      reads this
    {
      set t, s | t in myTopics && s in myTopics[t] :: s
    }

    /** The log of every live subscription agrees with the membership of its topic. */
    ghost predicate Valid()
      reads this, Subs()
    {
      forall t, s {:trigger s in myTopics[t]} | t in myTopics && s in myTopics[t] ::
        s.topic == t && s.Agrees(MembersOf(topics, t))
    }

    lemma {:induction false} SubsByTopic()
      requires Valid()
      ensures forall s: Subscription :: s in Subs() <==> s.topic in myTopics && s in myTopics[s.topic]
    {
    }

    /** The loops of handleIncomingRPC and notifyLeave that notify the subscriptions of a topic. */
    method NotifyAll(subs: set<Subscription>, evt: PeerEvent)
      modifies subs
      ensures forall s | s in subs :: s.evtLog == Added(old(s.evtLog), evt) && s.delivered == old(s.delivered)
      ensures forall s | s in subs :: s.signalled == (old(s.signalled) || evt.peer !in old(s.evtLog))
    {
      var rest := subs;
      while rest != {}
        invariant rest <= subs
        invariant forall s | s in subs :: s.delivered == old(s.delivered)
        invariant forall s | s in subs :: s.evtLog == if s in rest then old(s.evtLog) else Added(old(s.evtLog), evt)
        invariant forall s | s in subs ::
                    s.signalled == (old(s.signalled) || (s !in rest && evt.peer !in old(s.evtLog)))
        decreases |rest|
      {
        var s: Subscription :| s in rest;
        s.AddToEventLog(evt);
        rest := rest - {s};
      }
    }

    /** A peer joins or leaves a topic it was not, or was, a member of. */
    method Change(t: Topic, evt: PeerEvent)
      requires Valid() && IsNews(MembersOf(topics, t), evt)
      modifies this`topics, Subs()
      ensures Valid() && myTopics == old(myTopics) && topics == old(topics)[t := After(MembersOf(old(topics), t), evt)]
      ensures forall s | s in Subs() :: s.delivered == old(s.delivered)
      ensures forall s | s in Subs() :: Woken(old(s.evtLog), old(s.signalled), s.evtLog, s.signalled)
    {
      ghost var before, mine := topics, myTopics;
      assert forall u, s: Subscription | u in mine && s in mine[u] :: s.topic == u && s.Agrees(MembersOf(before, u));
      topics := topics[t := if evt.kind == PeerJoin then (if t in topics then topics[t] else {}) + {evt.peer}
                            else (if t in topics then topics[t] else {}) - {evt.peer}];
      if t in myTopics {
        NotifyAll(myTopics[t], evt);
      }
      forall u, s: Subscription {:trigger s in myTopics[u]} | u in myTopics && s in myTopics[u]
        ensures s.topic == u && s.Agrees(MembersOf(topics, u)) {
        assert u in mine && s in mine[u] && s.topic == u;
        assert u != t && t in mine ==> s !in mine[t];
        assert s.delivered == old(s.delivered);
        assert old(s.evtLog) == Pending(View(old(s.delivered)), MembersOf(before, u));
        if u == t {
          AddedIsPending(View(s.delivered), MembersOf(before, t), evt);
        }
      }
    }

    method HandleSubscriptions(from: PeerId, subopts: seq<(Topic, bool)>)
      requires Valid()
      modifies this`topics, Subs()
      ensures Valid() && myTopics == old(myTopics) && topics == LearnedAll(old(topics), from, subopts)
      ensures Follows(old(topics), topics, from, subopts)
      ensures forall s | s in Subs() :: s.delivered == old(s.delivered)
      ensures forall s | s in Subs() :: Woken(old(s.evtLog), old(s.signalled), s.evtLog, s.signalled)
    {
      for i := 0 to |subopts|
        invariant Valid() && myTopics == old(myTopics) && topics == LearnedAll(old(topics), from, subopts[..i])
        invariant forall s | s in Subs() :: s.delivered == old(s.delivered)
        invariant forall s | s in Subs() :: Woken(old(s.evtLog), old(s.signalled), s.evtLog, s.signalled)
      {
        var (t, on) := subopts[i];
        assert subopts[..i + 1][..i] == subopts[..i];
        if on {
          if t !in topics || from !in topics[t] {
            Change(t, PeerEvent(PeerJoin, from));
          } else {
            assert topics == topics[t := topics[t] + {from}] by {
              assert topics[t] + {from} == topics[t];
            }
          }
        } else if t in topics {
          if from in topics[t] {
            Change(t, PeerEvent(PeerLeave, from));
          } else {
            assert topics[t] - {from} == topics[t];
          }
        }
      }
      assert subopts[..|subopts|] == subopts;
      LearnedFollows(old(topics), from, subopts);
    }

    /** What peerDead and blacklistPeer do to the topics of a peer that is gone. */
    method ForgetPeer(pid: PeerId)
      requires Valid()
      modifies this`topics, Subs()
      ensures Valid() && myTopics == old(myTopics)
      ensures topics == map t | t in old(topics) :: old(topics)[t] - {pid}
      ensures forall s | s in Subs() :: s.delivered == old(s.delivered)
      ensures forall s | s in Subs() :: Woken(old(s.evtLog), old(s.signalled), s.evtLog, s.signalled)
    {
      var rest := topics.Keys;
      while rest != {}
        invariant rest <= topics.Keys == old(topics).Keys
        invariant Valid() && myTopics == old(myTopics)
        invariant forall t | t in topics :: topics[t] == if t in rest then old(topics)[t] else old(topics)[t] - {pid}
        invariant forall s | s in Subs() :: s.delivered == old(s.delivered)
        invariant forall s | s in Subs() :: Woken(old(s.evtLog), old(s.signalled), s.evtLog, s.signalled)
        decreases |rest|
      {
        var t :| t in rest;
        if pid in topics[t] {
          Change(t, PeerEvent(PeerLeave, pid));
        } else {
          assert topics[t] - {pid} == topics[t];
        }
        rest := rest - {t};
      }
    }

    /** handleAddSubscription, for the log: it starts with a Join for every member. */
    method AddSubscription(sub: Subscription)
      requires Valid() && sub !in Subs() && sub.evtLog == map[] && sub.delivered == []
      modifies this`myTopics, sub`evtLog
      ensures Valid() && Subs() == old(Subs()) + {sub}
      ensures sub.evtLog == Pending({}, MembersOf(topics, sub.topic))
    {
      SubsByTopic();
      ghost var mine := myTopics;
      assert forall u, s: Subscription | u in mine && s in mine[u] :: s.topic == u && s.Agrees(MembersOf(topics, u));
      forall u, s: Subscription | u in mine && s in mine[u] ensures s != sub {
        assert s in Subs();
      }
      var t := sub.topic;
      if t !in myTopics {
        myTopics := myTopics[t := {}];
      }
      sub.FillLog(if t in topics then topics[t] else {});
      myTopics := myTopics[t := myTopics[t] + {sub}];
      forall u, s: Subscription {:trigger s in myTopics[u]} | u in myTopics && s in myTopics[u]
        ensures s.topic == u && s.Agrees(MembersOf(topics, u)) {
        if s != sub {
          assert u in mine && s in mine[u];
        }
      }
      SubsByTopic();
    }

    /** A consumer takes its next event, as the event loop sees it. */
    method Consume(sub: Subscription) returns (evt: PeerEvent, ok: bool)
      requires Valid() && sub in Subs()
      modifies sub
      ensures Valid() && (ok <==> old(sub.evtLog) != map[])
      ensures sub.delivered == old(sub.delivered) + if ok then [evt] else []
      ensures sub.signalled == (old(sub.signalled) || (ok && sub.evtLog != map[]))
    {
      SubsByTopic();
      ghost var mine := myTopics;
      assert forall u, s: Subscription | u in mine && s in mine[u] :: s.topic == u && s.Agrees(MembersOf(topics, u));
      evt, ok := sub.Poll(MembersOf(topics, sub.topic));
      forall u, s: Subscription | u in mine && s in mine[u] ensures s.topic == u && s.Agrees(MembersOf(topics, u)) {
        assert s != sub ==> s.evtLog == old(s.evtLog) && s.delivered == old(s.delivered);
      }
    }

    method RemoveSubscription(sub: Subscription)
      requires Valid()
      modifies this`myTopics
      ensures Valid() && topics == old(topics) && Subs() == old(Subs()) - {sub}
    {
      SubsByTopic();
      var t := sub.topic;
      if t !in myTopics {
        return;
      }
      var subs := myTopics[t] - {sub};
      ghost var mine := myTopics;
      assert forall u, s: Subscription | u in mine && s in mine[u] :: s.topic == u && s.Agrees(MembersOf(topics, u));
      myTopics := if subs == {} then myTopics - {t} else myTopics[t := subs];
      forall u, s: Subscription {:trigger s in myTopics[u]} | u in myTopics && s in myTopics[u]
        ensures s.topic == u && s.Agrees(MembersOf(topics, u)) {
        assert u in mine && s in mine[u];
      }
      SubsByTopic();
    }
  }
}
