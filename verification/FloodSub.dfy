/** FloodSubRouter.Publish (floodsub.go) and what it means in a network of such routers. */
module FloodSub {

  import opened Capacity
  import opened MessageCache

  /** Whom Publish sends to: the connected peers known to be in a topic of the message, without the peer it
    * came from and its author. */
  function Recipients(
      peers: set<PeerId>, topics: map<Topic, set<PeerId>>, from: PeerId, author: PeerId, ts: seq<Topic>): set<PeerId>
  {
    (set t, p | t in ts && t in topics && p in topics[t] && p in peers :: p) - {from, author}
  }

  class FloodSubRouter {
    var peers: map<PeerId, seq<Msg>>
    var topics: map<Topic, set<PeerId>>

    constructor ()
      ensures peers == map[] && topics == map[]
    {
      peers, topics := map[], map[];
    }

    method Publish(from: PeerId, msg: Msg)
      modifies this`peers
      ensures peers.Keys == old(peers).Keys
      ensures forall p | p in peers :: peers[p] ==
                if p in Recipients(old(peers).Keys, topics, from, msg.author, msg.topics)
                  && |old(peers)[p]| < PEER_QUEUE
                then old(peers)[p] + [msg] else old(peers)[p]
      // in terms of the tables
      ensures forall p | p in peers :: peers[p] ==
                if p != from && p != msg.author && (exists t :: t in msg.topics && t in topics && p in topics[t])
                  && |old(peers)[p]| < 32
                then old(peers)[p] + [msg] else old(peers)[p]
    {
      var tosend := PeersInTopics(msg.topics);
      ghost var sending := tosend;
      while tosend != {}
        invariant tosend <= sending && peers.Keys == old(peers).Keys
        invariant forall p | p in peers :: peers[p] ==
                    if p in sending && p !in tosend && p != from && p != msg.author && |old(peers)[p]| < PEER_QUEUE
                    then old(peers)[p] + [msg] else old(peers)[p]
        decreases |tosend|
      {
        var pid :| pid in tosend;
        if pid != from && pid != msg.author && pid in peers && |peers[pid]| < PEER_QUEUE {
          peers := peers[pid := peers[pid] + [msg]];
        }
        tosend := tosend - {pid};
      }
    }

    /** The loop that fills the map of receivers. */
    method PeersInTopics(ts: seq<Topic>) returns (tosend: set<PeerId>)
      ensures tosend == set t, p | t in ts && t in topics && p in topics[t] :: p
    {
      tosend := {};
      for i := 0 to |ts|
        invariant tosend == set t, p | t in ts[..i] && t in topics && p in topics[t] :: p
      {
        assert ts[..i + 1] == ts[..i] + [ts[i]];
        if ts[i] in topics {
          tosend := tosend + topics[ts[i]];
        }
      }
      assert ts[..|ts|] == ts;
    }
  }
}
