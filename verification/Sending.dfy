/** Putting sends together. */
module Sending {

  import opened Capacity
  import opened MessageCache
  import opened Options
  import opened Router

  lemma {:induction false} SentNone(s: State, out: map<PeerId, Rpc>)
    requires out == map[]
    ensures SentEach(s, s, out)
  {
  }

  /** One more peer is sent its RPC. */
  lemma {:induction false} SentOneMore(s: State, s1: State, s2: State, out: map<PeerId, Rpc>, p: PeerId, rpc: Rpc)
    requires SentEach(s, s1, out) && p !in out && SentEach(s1, s2, map[p := rpc])
    ensures SentEach(s, s2, out[p := rpc])
  {
    hide Send;
    forall q
      ensures CellOf(s2, q) == if q in out[p := rpc] then Send(s.mesh, q, CellOf(s, q), out[p := rpc][q])
              else CellOf(s, q)
    {
      assert CellOf(s1, q) == if q in out then Send(s.mesh, q, CellOf(s, q), out[q]) else CellOf(s, q);
    }
  }

  /** The two halves of sendRPC. */
  lemma {:induction false} LoadedThenSent(s: State, s1: State, s2: State, p: PeerId, rpc: Rpc)
    requires s1 == s.(control := s.control - {p}, gossip := s.gossip - {p})
    requires var out := Loaded(s.mesh, p, CellOf(s, p), rpc);
             s2 == s1.(peers := if p in s.peers && |s.peers[p]| < PEER_QUEUE then s.peers[p := s.peers[p] + [out]]
               else s.peers,
                       control := if p in s.peers && |s.peers[p]| >= PEER_QUEUE && Retry(out).Some?
                                  then s1.control[p := Retry(out).value] else s1.control)
    ensures SentEach(s, s2, map[p := rpc])
  {
    hide Loaded, Retry;
    forall q
      ensures CellOf(s2, q) == if q == p then Send(s.mesh, q, CellOf(s, q), rpc) else CellOf(s, q)
    {
    }
  }

  lemma {:induction false} NoneFresh(mesh: PeerSets, p: PeerId, ts: seq<Topic>, inside: bool)
    ensures Fresh(mesh, p, ts[..0], inside) == []
  {
  }

  /** The body of a loop of piggybackControl. */
  lemma {:induction false} OneMoreFresh(mesh: PeerSets, p: PeerId, ts: seq<Topic>, i: nat, inside: bool)
    requires i < |ts|
    ensures Fresh(mesh, p, ts[..i + 1], inside) ==
            Fresh(mesh, p, ts[..i], inside) + if InMesh(mesh, ts[i], p) == inside then [ts[i]] else []
  {
    assert ts[..i + 1][..i] == ts[..i];
  }
}
