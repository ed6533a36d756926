/** The peer-event log of a subscription (subscription.go): a coalescing log, and what it must say. */
module PeerEvents {

  import opened MessageCache

  datatype EventType = PeerJoin | PeerLeave

  datatype PeerEvent = PeerEvent(kind: EventType, peer: PeerId)

  type Log = map<PeerId, EventType>

  /** addToEventLog: an event opposite to the pending one cancels it. */
  function Added(log: Log, evt: PeerEvent): Log {
    if evt.peer !in log then log[evt.peer := evt.kind]
    else if log[evt.peer] != evt.kind then log - {evt.peer}
    else log
  }

  /** A set of peers after an event: the members of a topic, or those a consumer believes in. */
  function After(peers: set<PeerId>, evt: PeerEvent): set<PeerId> {
    if evt.kind == PeerJoin then peers + {evt.peer} else peers - {evt.peer}
  }

  /** The event brings news to someone who believes in `peers`. */
  predicate IsNews(peers: set<PeerId>, evt: PeerEvent) {
    evt.kind == PeerJoin <==> evt.peer !in peers
  }

  /** What remains to be told to a consumer that believes in `told`: one event for each peer about which
    * it is wrong. */
  function Pending(told: set<PeerId>, members: set<PeerId>): Log {
    map p | p in (members - told) + (told - members) :: if p in members then PeerJoin else PeerLeave
  }

  /** The peers a consumer believes in after the events delivered to it. */
  function View(delivered: seq<PeerEvent>): set<PeerId> {
    if delivered == [] then {} else After(View(delivered[..|delivered| - 1]), delivered[|delivered| - 1])
  }

  /** Every delivered event was news. */
  ghost predicate AllNews(delivered: seq<PeerEvent>) {
    forall i | 0 <= i < |delivered| :: IsNews(View(delivered[..i]), delivered[i])
  }

  lemma {:induction false} AddedIsPending(told: set<PeerId>, members: set<PeerId>, evt: PeerEvent)
    requires IsNews(members, evt)
    ensures Added(Pending(told, members), evt) == Pending(told, After(members, evt))
  {
  }

  lemma {:induction false} PulledIsPending(told: set<PeerId>, members: set<PeerId>, p: PeerId)
    requires p in Pending(told, members)
    ensures var evt := PeerEvent(Pending(told, members)[p], p);
            IsNews(told, evt) && Pending(told, members) - {p} == Pending(After(told, evt), members)
  {
  }

  lemma {:induction false} NothingPending(told: set<PeerId>, members: set<PeerId>)
    ensures Pending(told, members) == map[] <==> told == members
  {
    if Pending(told, members) == map[] {
      forall p ensures p in told <==> p in members {
        assert p !in Pending(told, members);
      }
    }
  }

  lemma {:induction false} ViewSnoc(delivered: seq<PeerEvent>, evt: PeerEvent)
    ensures View(delivered + [evt]) == After(View(delivered), evt)
    ensures AllNews(delivered) && IsNews(View(delivered), evt) ==> AllNews(delivered + [evt])
  {
    var d := delivered + [evt];
    assert d[..|d| - 1] == delivered;
    if AllNews(delivered) && IsNews(View(delivered), evt) {
      forall i | 0 <= i < |d| ensures IsNews(View(d[..i]), d[i]) {
        assert d[..i] == delivered[..i];
      }
    }
  }

  /** Between `i` and `j` nothing was delivered about the peer. */
  predicate Silent(delivered: seq<PeerEvent>, p: PeerId, i: nat, j: nat)
    requires i <= j <= |delivered|
  {
    forall k | i <= k < j :: delivered[k].peer != p
  }

  lemma {:induction false} SilenceKeepsView(delivered: seq<PeerEvent>, p: PeerId, i: nat, j: nat)
    requires i <= j <= |delivered| && Silent(delivered, p, i, j)
    ensures p in View(delivered[..j]) <==> p in View(delivered[..i])
  {
    if i < j {
      SilenceKeepsView(delivered, p, i, j - 1);
      assert delivered[..j] == delivered[..j - 1] + [delivered[j - 1]];
      ViewSnoc(delivered[..j - 1], delivered[j - 1]);
    }
  }

  /** Delivered events alternate for each peer, starting with a Join. */
  lemma {:induction false} NewsAlternates(delivered: seq<PeerEvent>, p: PeerId, j: nat)
    requires AllNews(delivered) && j < |delivered| && delivered[j].peer == p
    ensures Silent(delivered, p, 0, j) ==> delivered[j].kind == PeerJoin
    ensures forall i | 0 <= i < j && delivered[i].peer == p && Silent(delivered, p, i + 1, j) ::
              delivered[j].kind != delivered[i].kind
  {
    if Silent(delivered, p, 0, j) {
      SilenceKeepsView(delivered, p, 0, j);
      assert IsNews(View(delivered[..j]), delivered[j]);
    }
    forall i | 0 <= i < j && delivered[i].peer == p && Silent(delivered, p, i + 1, j)
      ensures delivered[j].kind != delivered[i].kind
    {
      SilenceKeepsView(delivered, p, i + 1, j);
      assert delivered[..i + 1] == delivered[..i] + [delivered[i]];
      ViewSnoc(delivered[..i], delivered[i]);
      assert IsNews(View(delivered[..j]), delivered[j]);
    }
  }
}
