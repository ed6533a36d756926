/** The cases of processLoop (pubsub.go) over channels that can be misused: a send on a closed channel or a
  * second close would panic, so `Offer`, `Close` and `CloseSub` demand an open one. Each case is proved
  * never to do either, and to do what the module Loop says of it.
  */
module EventLoop {

  import opened Capacity
  import opened MessageCache
  import opened Loop
  import opened ChannelSafety
  import opened LoopCases

  /** A reference to a channel: two peers with equal references would share one. */
  datatype ChanRef = ChanRef(id: nat)

  type Peers = map<PeerId, ChanRef>
  type Channels = map<ChanRef, Channel>

  /** The channels of the peers. */
  function ChannelsFor(peers: Peers, channels: Channels): map<PeerId, Channel> {
    map p | p in peers && peers[p] in channels :: channels[peers[p]]
  }

  ghost predicate Injective(peers: Peers, channels: Channels) {
    && (forall p | p in peers :: peers[p] in channels)
    && (forall p, q | p in peers && q in peers && p != q :: peers[p] != peers[q])
  }

  lemma {:induction false} SamePeers(peers: Peers, channels: Channels)
    requires Injective(peers, channels)
    ensures ChannelsFor(peers, channels).Keys == peers.Keys
    ensures forall p | p in peers :: ChannelsFor(peers, channels)[p] == channels[peers[p]]
  {
  }

  /** What the peers see when one channel changes. */
  lemma {:induction false} OneChannel(
      peers: Peers, channels: Channels, pid: PeerId, c: Channel)
    requires Injective(peers, channels) && pid in peers
    ensures ChannelsFor(peers, channels[peers[pid] := c]) == ChannelsFor(peers, channels)[pid := c]
    ensures Injective(peers, channels[peers[pid] := c])
  {
  }

  /** What they see when one peer gets a new channel. */
  lemma {:induction false} NewChannel(
      peers: Peers, channels: Channels, pid: PeerId, ch: ChanRef, c: Channel)
    requires Injective(peers, channels) && ch !in channels
    ensures ChannelsFor(peers[pid := ch], channels[ch := c]) == ChannelsFor(peers, channels)[pid := c]
    ensures Injective(peers[pid := ch], channels[ch := c])
  {
  }

  /** What they see when one peer is dropped. */
  lemma {:induction false} OneFewer(peers: Peers, channels: Channels, pid: PeerId)
    requires Injective(peers, channels)
    ensures ChannelsFor(peers - {pid}, channels) == ChannelsFor(peers, channels) - {pid}
    ensures Injective(peers - {pid}, channels)
  {
  }

  lemma {:induction false} SetTwice(m: map<PeerId, Channel>, p: PeerId, c: Channel, c': Channel)
    ensures m[p := c][p := c'] == m[p := c']
  {
  }

  lemma {:induction false} SetAgain(m: map<PeerId, set<Topic>>, p: PeerId)
    requires p in m
    ensures m[p := m[p]] == m
  {
  }

  lemma {:induction false} OneSubscribed(s: State, id: SubId, t: Topic, s1: State, s': State)
    requires s1 == if t !in s.myTopics || s.myTopics[t] == {} then Announced(s, t, true) else s
    requires s' == s1.(myTopics := s'.myTopics, subs := s.subs[id := Sub(t, true)])
    requires s'.myTopics == (if t !in s.myTopics then s.myTopics[t := {}] else s.myTopics)[t := SubsOf(s, t) + {id}]
    ensures Subscribed(s, id, t) == s'
  {
    hide Announced;
    assert s'.myTopics == s.myTopics[t := SubsOf(s, t) + {id}];
  }

  lemma {:induction false} NotListed(s: State, id: SubId)
    requires id in s.subs && s.subs[id].topic !in s.myTopics
    ensures Cancelled(s, id) == s
  {
  }

  lemma {:induction false} LastCancelled(s: State, id: SubId, s1: State)
    requires id in s.subs && s.subs[id].topic in s.myTopics && s.myTopics[s.subs[id].topic] - {id} == {}
    requires s1 == s.(subs := s.subs[id := Sub(s.subs[id].topic, false)], myTopics := s.myTopics - {s.subs[id].topic})
    ensures Cancelled(s, id) == Announced(s1, s.subs[id].topic, false)
  {
    hide Announced;
  }

  lemma {:induction false} OneCancelled(s: State, id: SubId, s1: State)
    requires id in s.subs && s.subs[id].topic in s.myTopics && s.myTopics[s.subs[id].topic] - {id} != {}
    requires var t := s.subs[id].topic;
             s1 == s.(subs := s.subs[id := Sub(t, false)], myTopics := s.myTopics[t := s.myTopics[t] - {id}])
    ensures Cancelled(s, id) == s1
  {
    hide Announced;
  }

  lemma {:induction false} NotAmong(s: State, p: PeerId)
    requires p !in s.peers && p !in s.remote && p !in s.transit
    ensures Dropped(s, p) == s
  {
  }

  /** No one but `pid` got or lost a channel, or anything on it. */
  ghost predicate OthersSame(peers: Peers, channels: Channels, peers': Peers, channels': Channels, pid: PeerId) {
    forall q | q != pid ::
      && (q in peers' <==> q in peers)
      && (q in peers ==> peers'[q] == peers[q]
                         && (peers[q] in channels ==>
                               peers[q] in channels' && channels'[peers[q]] == channels[peers[q]]))
  }

  /** The channel that the peer had is closed now. */
  predicate IsClosed(peers: Peers, channels': Channels, pid: PeerId) {
    pid in peers && peers[pid] in channels' && !channels'[peers[pid]].open
  }

  /** The peer has a channel that was not there before. */
  predicate IsNew(channels: Channels, peers': Peers, channels': Channels, pid: PeerId, packet: Packet) {
    pid in peers' && peers'[pid] !in channels && peers'[pid] in channels'
    && channels'[peers'[pid]] == Channel([packet], true)
  }

  /** The peer's channel has one packet more, if there was room. */
  predicate IsTold(peers: Peers, channels: Channels, channels': Channels, p: PeerId, packet: Packet) {
    && p in peers && peers[p] in channels && peers[p] in channels'
    && var c := channels[peers[p]];
       channels'[peers[p]] == if |c.queue| < 32 then Channel(c.queue + [packet], c.open) else c
  }

  /** As many more of this retry as there are peers that had to be told and had no room: one, or none. */
  function Restarts(peers: Peers, channels: Channels, q: Retry, t: Topic, on: bool): nat {
    if q.topic == t && q.on == on && q.peer in peers && peers[q.peer] in channels
       && |channels[peers[q.peer]].queue| >= 32
    then 1 else 0
  }

  /** Every peer with room was told, once, and for every other a retry was started. */
  ghost predicate ToldAll(
      peers: Peers, channels: Channels, retries: multiset<Retry>, channels': Channels, retries': multiset<Retry>,
      t: Topic, on: bool)
  {
    && (forall p | p in peers :: IsTold(peers, channels, channels', p, [(t, on)]))
    && (forall q: Retry :: retries'[q] == retries[q] + Restarts(peers, channels, q, t, on))
  }

  lemma {:induction false} AnnouncedTellsAll(
      peers: Peers, channels: Channels, channels': Channels, s: State, s': State, t: Topic, on: bool)
    requires Injective(peers, channels) && Injective(peers, channels')
    requires s.peers == ChannelsFor(peers, channels) && s'.peers == ChannelsFor(peers, channels')
    requires s' == Announced(s, t, on)
    ensures ToldAll(peers, channels, s.retries, channels', s'.retries, t, on)
  {
    hide Injective, ChannelsFor, Announced, IsTold, Restarts;
    forall p | p in peers ensures IsTold(peers, channels, channels', p, [(t, on)]) {
      AnnouncedTells(peers, channels, channels', s, t, on, p);
    }
    forall q: Retry ensures s'.retries[q] == s.retries[q] + Restarts(peers, channels, q, t, on) {
      AnnouncedRestarts(peers, channels, s, q, t, on);
    }
  }

  lemma {:induction false} AnnouncedTells(
      peers: Peers, channels: Channels, channels': Channels, s: State, t: Topic, on: bool, p: PeerId)
    requires Injective(peers, channels) && Injective(peers, channels') && p in peers
    requires s.peers == ChannelsFor(peers, channels) && Announced(s, t, on).peers == ChannelsFor(peers, channels')
    ensures IsTold(peers, channels, channels', p, [(t, on)])
  {
    SamePeers(peers, channels);
    SamePeers(peers, channels');
    AnnouncedChannels(s, t, on);
    hide Announced, ChannelsFor, Injective;
  }

  lemma {:induction false} AnnouncedRestarts(
      peers: Peers, channels: Channels, s: State, q: Retry, t: Topic, on: bool)
    requires Injective(peers, channels) && s.peers == ChannelsFor(peers, channels)
    ensures Announced(s, t, on).retries[q] == s.retries[q] + Restarts(peers, channels, q, t, on)
  {
    SamePeers(peers, channels);
    AnnouncedRetries(s, q, t, on);
    hide Announced, ChannelsFor;
    assert q.peer in peers ==> peers[q.peer] in channels;
  }

  function Restarted(s: State, q: Retry, t: Topic, on: bool): nat {
    if q.topic == t && q.on == on && q.peer in s.peers && |s.peers[q.peer].queue| >= 32 then 1 else 0
  }

  lemma {:induction false} AnnouncedChannels(s: State, t: Topic, on: bool)
    ensures forall p | p in s.peers :: var c := s.peers[p];
              p in Announced(s, t, on).peers
              && Announced(s, t, on).peers[p] == if |c.queue| < 32 then Channel(c.queue + [[(t, on)]], c.open) else c
  {
  }

  lemma {:induction false} AnnouncedRetries(s: State, q: Retry, t: Topic, on: bool)
    ensures Announced(s, t, on).retries[q] == s.retries[q] + Restarted(s, q, t, on)
  {
    var full := set p | p in s.peers && |s.peers[p].queue| >= PEER_QUEUE :: Retry(p, t, on);
    assert Announced(s, t, on).retries == s.retries + multiset(full);
    assert q in full <==> Restarted(s, q, t, on) == 1;
  }

  lemma {:induction false} OneChanged(peers: Peers, channels: Channels, pid: PeerId, c: Channel)
    requires Injective(peers, channels) && pid in peers
    ensures OthersSame(peers, channels, peers, channels[peers[pid] := c], pid)
    ensures !c.open ==> IsClosed(peers, channels[peers[pid] := c], pid)
  {
  }

  lemma {:induction false} OneAdded(peers: Peers, channels: Channels, pid: PeerId, ch: ChanRef, packet: Packet)
    requires ch !in channels
    ensures OthersSame(peers, channels, peers[pid := ch], channels[ch := Channel([packet], true)], pid)
    ensures IsNew(channels, peers[pid := ch], channels[ch := Channel([packet], true)], pid, packet)
  {
  }

  lemma {:induction false} OneDropped(peers: Peers, channels: Channels, pid: PeerId)
    ensures OthersSame(peers, channels, peers - {pid}, channels, pid)
  {
  }

  lemma {:induction false} SameTwice(
      peers: Peers, channels: Channels, peers1: Peers, channels1: Channels, peers': Peers, channels': Channels,
      pid: PeerId)
    requires OthersSame(peers, channels, peers1, channels1, pid)
    requires OthersSame(peers1, channels1, peers', channels', pid)
    ensures OthersSame(peers, channels, peers', channels', pid)
  {
  }

  class PubSub {
    /** Every channel ever made for a peer. */
    var channels: Channels
    var made: nat
    var peers: Peers
    var myTopics: map<Topic, set<SubId>>
    var blacklist: set<PeerId>
    /** The subscriptions and their message channels. */
    var subs: map<SubId, Sub>
    ghost var retries: multiset<Retry>
    ghost var remote: map<PeerId, set<Topic>>
    ghost var transit: map<PeerId, seq<Packet>>

    /** No two peers share a channel. */
    ghost predicate Unshared()
      reads this
    {
      && (forall c | c in channels :: c.id < made)
      && Injective(peers, channels)
      && remote.Keys == peers.Keys && transit.Keys == peers.Keys
    }

    ghost function Now(): State
      reads this
    {
      State(ChannelsFor(peers, channels), myTopics, subs, blacklist, retries, remote, transit, false)
    }

    ghost predicate Valid()
      reads this
    {
      Unshared() && Safe(Now())
    }

    constructor ()
      ensures Valid() && Now() == BEGINNING
    {
      channels, made, peers, myTopics, blacklist, subs := map[], 0, map[], map[], {}, map[];
      retries, remote, transit := multiset{}, map[], map[];
    }

    // ----- channels -----

    /** A new channel that holds its first packet. */
    method Make(packet: Packet) returns (ch: ChanRef)
      requires forall c | c in channels :: c.id < made
      modifies this`channels, this`made
      ensures ch == ChanRef(old(made)) && made == old(made) + 1 && ch !in old(channels)
      ensures channels == old(channels)[ch := Channel([packet], true)]
    {
      ch := ChanRef(made);
      channels := channels[ch := Channel([packet], true)];
      made := made + 1;
    }

    /** A send in a select with a default. */
    method Offer(ch: ChanRef, packet: Packet) returns (sent: bool)
      requires ch in channels && channels[ch].open
      modifies this`channels
      ensures sent <==> |old(channels)[ch].queue| < PEER_QUEUE
      ensures channels == old(channels)[ch := Offered(old(channels)[ch], packet)]
    {
      var c := channels[ch];
      sent := |c.queue| < PEER_QUEUE;
      if sent {
        channels := channels[ch := c.(queue := c.queue + [packet])];
      } else {
        assert channels == channels[ch := c];
      }
    }

    method Close(ch: ChanRef)
      requires ch in channels && channels[ch].open
      modifies this`channels
      ensures channels == old(channels)[ch := Closed(old(channels)[ch])]
    {
      channels := channels[ch := channels[ch].(open := false)];
    }

    method OfferTo(pid: PeerId, packet: Packet) returns (sent: bool)
      requires Unshared() && pid in peers && ChannelsFor(peers, channels)[pid].open
      modifies this`channels
      ensures Unshared() && pid in old(Now()).peers
      ensures Now().peers == old(Now()).peers[pid := Offered(old(Now()).peers[pid], packet)]
      ensures sent <==> |old(Now()).peers[pid].queue| < PEER_QUEUE
    {
      hide Offered;
      SamePeers(peers, channels);
      OneChannel(peers, channels, pid, Offered(channels[peers[pid]], packet));
      sent := Offer(peers[pid], packet);
    }

    method ClosePeer(pid: PeerId)
      requires Unshared() && pid in peers && ChannelsFor(peers, channels)[pid].open
      modifies this`channels
      ensures Unshared() && pid in old(Now()).peers
      ensures Now().peers == old(Now()).peers[pid := Closed(old(Now()).peers[pid])]
      ensures channels.Keys == old(channels).Keys && IsClosed(peers, channels, pid)
      ensures OthersSame(peers, old(channels), peers, channels, pid)
    {
      hide OthersSame, IsClosed;
      OneChanged(peers, channels, pid, Closed(channels[peers[pid]]));
      SamePeers(peers, channels);
      OneChannel(peers, channels, pid, Closed(channels[peers[pid]]));
      Close(peers[pid]);
    }

    /** A peer gets a new channel. */
    method SetPeer(pid: PeerId, packet: Packet, ghost view: set<Topic>)
      requires Unshared()
      modifies this`peers, this`remote, this`transit, this`channels, this`made
      ensures Unshared() && Now().peers == old(Now()).peers[pid := Channel([packet], true)]
      ensures remote == old(remote)[pid := view] && transit == old(transit)[pid := []]
      ensures IsNew(old(channels), peers, channels, pid, packet)
      ensures OthersSame(old(peers), old(channels), peers, channels, pid)
      ensures forall c | c in old(channels) :: c in channels && channels[c] == old(channels)[c]
    {
      hide OthersSame, IsNew, Injective, ChannelsFor;
      OneAdded(peers, channels, pid, ChanRef(made), packet);
      NewChannel(peers, channels, pid, ChanRef(made), Channel([packet], true));
      var messages := Make(packet);
      peers := peers[pid := messages];
      remote := remote[pid := view];
      transit := transit[pid := []];
    }

    method DeletePeer(pid: PeerId)
      requires Unshared()
      modifies this`peers, this`remote, this`transit
      ensures Unshared() && peers == old(peers) - {pid}
      ensures Now().peers == old(Now()).peers - {pid} && remote == old(remote) - {pid}
      ensures transit == old(transit) - {pid}
      ensures OthersSame(old(peers), channels, peers, channels, pid)
    {
      hide ChannelsFor, Injective, OthersSame;
      OneDropped(peers, channels, pid);
      OneFewer(peers, channels, pid);
      peers := peers - {pid};
      remote := remote - {pid};
      transit := transit - {pid};
    }

    method Disconnect(pid: PeerId)
      requires Unshared() && pid in peers && channels[peers[pid]].open
      modifies this`peers, this`remote, this`transit, this`channels
      ensures Unshared() && Now().peers == old(Now()).peers - {pid}
      ensures remote == old(remote) - {pid} && transit == old(transit) - {pid}
      ensures pid !in peers && IsClosed(old(peers), channels, pid)
      ensures OthersSame(old(peers), old(channels), peers, channels, pid)
    {
      hide ChannelsFor, Injective, Closed, OthersSame;
      ghost var peers0, channels0 := peers, channels;
      ghost var before := ChannelsFor(peers, channels);
      SamePeers(peers, channels);
      ClosePeer(pid);
      ghost var channels1 := channels;
      DeletePeer(pid);
      SameTwice(peers0, channels0, peers0, channels1, peers, channels, pid);
      assert before[pid := Closed(before[pid])] - {pid} == before - {pid};
    }

    method CloseSub(id: SubId)
      requires id in subs && subs[id].open
      modifies this`subs
      ensures subs == old(subs)[id := Sub(old(subs)[id].topic, false)]
    {
      subs := subs[id := subs[id].(open := false)];
    }

    // ----- the cases -----

    /** getHelloPacket */
    method GetHelloPacket() returns (hello: Packet)
      ensures IsHello(hello, myTopics.Keys)
    {
      hello := [];
      var rest := myTopics.Keys;
      while rest != {}
        invariant rest <= myTopics.Keys && |hello| == |myTopics.Keys| - |rest|
        invariant forall i | 0 <= i < |hello| :: hello[i].1 && hello[i].0 in myTopics
        invariant forall t | t in myTopics && t !in rest :: (t, true) in hello
        decreases |rest|
      {
        var t :| t in rest;
        hello := hello + [(t, true)];
        rest := rest - {t};
      }
    }

    method NewPeer(pid: PeerId, ghost view: set<Topic>) returns (ghost hello: Packet)
      requires Valid()
      modifies this`peers, this`remote, this`transit, this`channels, this`made
      ensures Valid() && Step(old(Now()), Event.NewPeer(pid, hello, view), Now())
      ensures if pid in old(peers) || pid in blacklist then peers == old(peers) && channels == old(channels)
              else IsHello(hello, myTopics.Keys) && IsNew(old(channels), peers, channels, pid, hello)
                   && OthersSame(old(peers), old(channels), peers, channels, pid)
    {
      hide IsHello, Safe, Step, OthersSame, IsNew;
      ghost var s := Now();
      var packet := GetHelloPacket();
      hello := packet;
      if pid in peers {
        TakenNewPeer(s, pid, hello, view, Now());
        return;
      }
      if pid in blacklist {
        TakenNewPeer(s, pid, hello, view, Now());
        return;
      }
      SetPeer(pid, packet, view);
      TakenNewPeer(s, pid, hello, view, Now());
    }

    /** The branch for a blacklisted peer closes its channel, and leaves it among the peers. */
    method NewPeerStream(pid: PeerId)
      requires Valid()
      modifies this`channels
      ensures Unshared() && Step(old(Now()), StreamOpened(pid), Now())
      ensures Valid() <==> !(pid in old(Now()).peers && pid in blacklist)
      ensures if pid in peers && pid in blacklist
              then IsClosed(peers, channels, pid) && OthersSame(peers, old(channels), peers, channels, pid)
              else channels == old(channels)
    {
      hide Safe, Step, ChannelsFor, Injective, Closed, OthersSame, IsClosed;
      ghost var s := Now();
      SamePeers(peers, channels);
      if pid !in peers {
        TakenStream(s, pid);
        return;
      }
      if pid in blacklist {
        ChannelsOpen(s);
        ClosePeer(pid);
        TakenBlacklistedStream(s, pid, Now());
        return;
      }
      // the router's AddPeer
      TakenStream(s, pid);
    }

    method NewPeerError(pid: PeerId)
      requires Valid()
      modifies this`peers, this`remote, this`transit
      ensures Valid() && Step(old(Now()), StreamFailed(pid), Now())
      ensures pid !in peers && OthersSame(old(peers), channels, peers, channels, pid)
    {
      hide Safe, Step, OthersSame;
      ghost var s := Now();
      DeletePeer(pid);
      TakenDrop(s, pid, Now());
    }

    method PeerDead(pid: PeerId, connected: bool) returns (ghost hello: Packet)
      requires Valid()
      modifies this`peers, this`remote, this`transit, this`channels, this`made
      ensures Valid()
      ensures var e := if connected && pid in old(peers) then WriterRespawned(pid, hello) else PeerGone(pid);
              Step(old(Now()), e, Now())
      ensures if pid !in old(peers) then peers == old(peers) && channels == old(channels)
              else IsClosed(old(peers), channels, pid) && OthersSame(old(peers), old(channels), peers, channels, pid)
      ensures pid in old(peers) ==>
                if connected then IsHello(hello, myTopics.Keys) && IsNew(old(channels), peers, channels, pid, hello)
                else pid !in peers
    {
      hide IsHello, Safe, Step, ChannelsFor, Injective, OthersSame, IsClosed, IsNew;
      ghost var s := Now();
      SamePeers(peers, channels);
      hello := [];
      if pid !in peers {
        NotAmong(s, pid);
        TakenDrop(s, pid, Now());
        return;
      }
      ChannelsOpen(s);
      if connected {
        hello := Respawn(pid);
        TakenRespawn(s, pid, hello, Now());
      } else {
        Disconnect(pid);
        TakenDrop(s, pid, Now());
      }
    }

    /** The channel is closed, and replaced by a new one. */
    method Respawn(pid: PeerId) returns (ghost hello: Packet)
      requires Unshared() && pid in peers && channels[peers[pid]].open
      modifies this`peers, this`remote, this`transit, this`channels, this`made
      ensures Unshared() && IsHello(hello, myTopics.Keys) && remote == old(remote)
      ensures Now().peers == old(Now()).peers[pid := Channel([hello], true)]
      ensures transit == old(transit)[pid := []]
      ensures IsClosed(old(peers), channels, pid) && IsNew(old(channels), peers, channels, pid, hello)
      ensures OthersSame(old(peers), old(channels), peers, channels, pid)
    {
      hide IsHello, ChannelsFor, Injective, Closed, OthersSame;
      ghost var peers0, channels0 := peers, channels;
      ghost var before := Now().peers;
      SamePeers(peers, channels);
      SetAgain(remote, pid);
      ClosePeer(pid);
      var packet := GetHelloPacket();
      hello := packet;
      SetTwice(before, pid, Closed(before[pid]), Channel([packet], true));
      ghost var channels1 := channels;
      SetPeer(pid, packet, remote[pid]);
      SameTwice(peers0, channels0, peers0, channels1, peers, channels, pid);
    }

    method BlacklistPeer(pid: PeerId)
      requires Valid()
      modifies this`peers, this`remote, this`transit, this`blacklist, this`channels
      ensures Valid() && Step(old(Now()), Event.BlacklistPeer(pid), Now())
      ensures blacklist == old(blacklist) + {pid} && pid !in peers
      ensures if pid in old(peers)
              then IsClosed(old(peers), channels, pid) && OthersSame(old(peers), old(channels), peers, channels, pid)
              else peers == old(peers) && channels == old(channels)
    {
      hide Safe, Step, ChannelsFor, Injective, OthersSame, IsClosed;
      ghost var s := Now();
      ChannelsOpen(s);
      SamePeers(peers, channels);
      blacklist := blacklist + {pid};
      if pid in peers {
        Disconnect(pid);
      } else {
        NotAmong(s, pid);
      }
      TakenBlacklist(s, pid, Now());
    }

    /** announce */
    method Announce(topic: Topic, on: bool)
      requires Unshared() && AllOpen(Now())
      modifies this`retries, this`channels
      ensures Unshared() && Now() == Announced(old(Now()), topic, on)
      ensures ToldAll(peers, old(channels), old(retries), channels, retries, topic, on)
    {
      hide Announced, RetriesOf, Offered, AnnouncedExcept, ChannelsFor, Injective;
      ghost var s, channels0 := Now(), channels;
      var rest := peers.Keys;
      SamePeers(peers, channels);
      NoneAnnounced(s, topic, on);
      while rest != {}
        invariant rest <= peers.Keys && Unshared() && AnnouncedExcept(s, Now(), rest, topic, on)
        decreases |rest|
      {
        ghost var before := Now();
        var pid :| pid in rest;
        OneMoreAnnounced(s, before, rest, pid, topic, on);
        SamePeers(peers, channels);
        Tell(pid, topic, on);
        rest := rest - {pid};
      }
      AllAnnounced(s, Now(), topic, on);
      hide ToldAll;
      AnnouncedTellsAll(peers, channels0, channels, s, Now(), topic, on);
    }

    /** The body of announce's loop: one peer is told, or a retry is started. */
    method Tell(pid: PeerId, topic: Topic, on: bool)
      requires Unshared() && pid in peers && channels[peers[pid]].open
      modifies this`retries, this`channels
      ensures Unshared() && pid in old(Now()).peers && Now() == AnnouncedTo(old(Now()), pid, topic, on)
    {
      hide ChannelsFor, Injective, Offered;
      SamePeers(peers, channels);
      var sent := OfferTo(pid, [(topic, on)]);
      if !sent {
        retries := retries + multiset{Retry(pid, topic, on)};
      }
    }

    method AddSub(id: SubId, topic: Topic)
      requires Valid() && id !in subs
      modifies this`myTopics, this`subs, this`retries, this`channels
      ensures Valid() && Step(old(Now()), Subscribe(id, topic), Now())
      ensures subs == old(subs)[id := Sub(topic, true)]
      ensures myTopics == old(myTopics)[topic := SubsOf(old(Now()), topic) + {id}]
      ensures if topic in old(myTopics) && old(myTopics)[topic] != {}
              then channels == old(channels) && retries == old(retries)
              else ToldAll(peers, old(channels), old(retries), channels, retries, topic, true)
    {
      hide ToldAll, Safe, Step, Announced, ChannelsFor, Injective, Subscribed;
      ghost var s := Now();
      ChannelsOpen(s);
      if topic !in myTopics || myTopics[topic] == {} {
        Announce(topic, true);
      }
      ghost var s1 := Now();
      if topic !in myTopics {
        myTopics := myTopics[topic := {}];
      }
      myTopics := myTopics[topic := myTopics[topic] + {id}];
      subs := subs[id := Sub(topic, true)];
      OneSubscribed(s, id, topic, s1, Now());
      TakenSubscribe(s, id, topic, Now());
    }

    /** handleRemoveSubscription; closing the channel a second time panics. */
    method CancelSub(id: SubId) returns (panic: bool)
      requires Valid() && id in subs
      modifies this`myTopics, this`subs, this`retries, this`channels
      ensures panic <==> old(Recancelled(Now(), id))
      ensures !panic ==> Valid() && Step(old(Now()), Cancel(id), Now())
      ensures panic ==> Now() == old(Now()) && Step(Now(), Cancel(id), Now().(panicked := true))
      ensures !panic && subs[id].topic in old(myTopics) ==> !subs[id].open
      ensures var t := subs[id].topic;
              if !panic && t in old(myTopics) && old(myTopics)[t] - {id} == {}
              then t !in myTopics && ToldAll(peers, old(channels), old(retries), channels, retries, t, false)
              else channels == old(channels) && retries == old(retries)
    {
      hide ToldAll, Safe, Step, Announced, Cancelled;
      ghost var s := Now();
      ChannelsOpen(s);
      var topic := subs[id].topic;
      if topic !in myTopics {
        NotListed(s, id);
        TakenCancel(s, id, s);
        return false;
      }
      if !subs[id].open {
        TakenRecancel(s, id);
        return true;
      }
      panic := false;
      CloseSub(id);
      var left := myTopics[topic] - {id};
      myTopics := myTopics[topic := left];
      if left == {} {
        myTopics := myTopics - {topic};
        assert myTopics == s.myTopics - {topic};
        ghost var s1 := Now();
        Announce(topic, false);
        LastCancelled(s, id, s1);
      } else {
        OneCancelled(s, id, Now());
      }
      TakenCancel(s, id, Now());
    }

    /** The retry that announceRetry hands to the event loop. */
    method Retried(retry: Retry)
      requires Valid() && retry in retries
      modifies this`retries, this`channels
      ensures Valid() && Step(old(Now()), RetryDue(retry), Now())
    {
      hide Safe, Step, Offered;
      ghost var s := Now();
      ChannelsOpen(s);
      retries := retries - multiset{retry};
      if (retry.topic in myTopics && retry.on) || (retry.topic !in myTopics && !retry.on) {
        DoAnnounceRetry(retry.peer, retry.topic, retry.on);
        if retry.peer in s.peers {
          TakenRetry(s, retry, Now());
        } else {
          TakenStaleRetry(s, retry, Now());
        }
      } else {
        TakenStaleRetry(s, retry, Now());
      }
    }

    method DoAnnounceRetry(pid: PeerId, topic: Topic, on: bool)
      requires Unshared() && AllOpen(Now())
      modifies this`retries, this`channels
      ensures Unshared()
      ensures if pid in old(Now()).peers then Now() == AnnouncedTo(old(Now()), pid, topic, on) else Now() == old(Now())
    {
      hide AnnouncedTo;
      SamePeers(peers, channels);
      if pid !in peers {
        return;
      }
      Tell(pid, topic, on);
    }

    /** What processLoop does as it ends. */
    method Shutdown()
      requires Valid()
      modifies this`peers, this`remote, this`transit, this`channels
      ensures Valid() && Step(old(Now()), Event.Shutdown, Now())
      ensures forall p | p in old(peers) :: old(peers)[p] in channels && !channels[old(peers)[p]].open
    {
      hide Safe, Step;
      ghost var s := Now();
      ChannelsOpen(s);
      CloseAll();
      peers := map[];
      remote := map[];
      transit := map[];
      assert ChannelsFor(peers, channels) == map[];
      TakenShutdown(s, Now());
    }

    method CloseAll()
      requires Unshared() && AllOpen(Now())
      modifies this`channels
      ensures Unshared() && forall p | p in peers :: peers[p] in channels && !channels[peers[p]].open
    {
      hide Injective, OpenExactly, ChannelsFor, Closed;
      var rest := peers.Keys;
      AllStillOpen(peers, channels);
      while rest != {}
        invariant rest <= peers.Keys && Unshared() && OpenExactly(peers, channels, rest)
        decreases |rest|
      {
        var pid :| pid in rest;
        OneClosed(peers, channels, rest, pid);
        Close(peers[pid]);
        rest := rest - {pid};
      }
      NoneStillOpen(peers, channels);
    }
  }

  ghost predicate OpenExactly(peers: Peers, channels: Channels, rest: set<PeerId>) {
    Injective(peers, channels) && forall p | p in peers :: channels[peers[p]].open == (p in rest)
  }

  lemma {:induction false} AllStillOpen(peers: Peers, channels: Channels)
    requires Injective(peers, channels)
    requires forall p | p in ChannelsFor(peers, channels) :: ChannelsFor(peers, channels)[p].open
    ensures OpenExactly(peers, channels, peers.Keys)
  {
    SamePeers(peers, channels);
  }

  lemma {:induction false} NoneStillOpen(peers: Peers, channels: Channels)
    requires OpenExactly(peers, channels, {})
    ensures forall p | p in peers :: peers[p] in channels && !channels[peers[p]].open
  {
  }

  lemma {:induction false} OneClosed(
      peers: Peers, channels: Channels, rest: set<PeerId>, pid: PeerId)
    requires OpenExactly(peers, channels, rest) && pid in rest && pid in peers
    ensures peers[pid] in channels && channels[peers[pid]].open
    ensures Injective(peers, channels[peers[pid] := Closed(channels[peers[pid]])])
    ensures OpenExactly(peers, channels[peers[pid] := Closed(channels[peers[pid]])], rest - {pid})
  {
  }

  /** One peer is told, or will be. */
  function AnnouncedTo(s: State, p: PeerId, topic: Topic, on: bool): State
    requires p in s.peers
  {
    s.(peers := s.peers[p := Offered(s.peers[p], [(topic, on)])],
       retries := if |s.peers[p].queue| < PEER_QUEUE then s.retries else s.retries + multiset{Retry(p, topic, on)})
  }

  function RetriesOf(s: State, rest: set<PeerId>, topic: Topic, on: bool): set<Retry> {
    set p | p in s.peers && p !in rest && |s.peers[p].queue| >= PEER_QUEUE :: Retry(p, topic, on)
  }

  /** All peers but those of `rest` have been told, or will be. */
  ghost predicate AnnouncedExcept(s: State, s': State, rest: set<PeerId>, topic: Topic, on: bool) {
    && s' == s.(peers := s'.peers, retries := s.retries + multiset(RetriesOf(s, rest, topic, on)))
    && s'.peers.Keys == s.peers.Keys
    && forall p | p in s.peers :: s'.peers[p] == if p in rest then s.peers[p] else Offered(s.peers[p], [(topic, on)])
  }

  lemma {:induction false} NoneAnnounced(s: State, topic: Topic, on: bool)
    ensures AnnouncedExcept(s, s, s.peers.Keys, topic, on)
  {
    assert RetriesOf(s, s.peers.Keys, topic, on) == {};
  }

  lemma {:induction false} OneMoreAnnounced(s: State, s': State, rest: set<PeerId>, p: PeerId, topic: Topic, on: bool)
    requires AnnouncedExcept(s, s', rest, topic, on) && p in rest && p in s.peers
    ensures p in s'.peers && s'.peers[p] == s.peers[p]
    ensures AnnouncedExcept(s, AnnouncedTo(s', p, topic, on), rest - {p}, topic, on)
  {
    hide Offered, RetriesOf;
    OneMoreRetry(s, rest, p, topic, on);
  }

  lemma {:induction false} OneMoreRetry(s: State, rest: set<PeerId>, p: PeerId, topic: Topic, on: bool)
    requires p in rest && p in s.peers
    ensures multiset(RetriesOf(s, rest - {p}, topic, on)) ==
            multiset(RetriesOf(s, rest, topic, on))
            + if |s.peers[p].queue| < PEER_QUEUE then multiset{} else multiset{Retry(p, topic, on)}
  {
    var before, after := RetriesOf(s, rest, topic, on), RetriesOf(s, rest - {p}, topic, on);
    assert Retry(p, topic, on) !in before;
    if |s.peers[p].queue| < PEER_QUEUE {
      assert after == before;
    } else {
      assert after == before + {Retry(p, topic, on)};
    }
  }

  lemma {:induction false} AllAnnounced(s: State, s': State, topic: Topic, on: bool)
    requires AnnouncedExcept(s, s', {}, topic, on)
    ensures s' == Announced(s, topic, on)
  {
    assert RetriesOf(s, {}, topic, on) ==
           set p | p in s.peers && |s.peers[p].queue| >= PEER_QUEUE :: Retry(p, topic, on);
    assert Announced(s, topic, on).peers == s'.peers;
  }
}
