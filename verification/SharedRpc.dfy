/** sendRPC over RPCs as objects (gossipsub.go, comm.go): Publish puts one RPC on many queues, so what is
  * piggybacked for one peer must go into a copy.
  */
module SharedRpc {

  import opened Capacity
  import opened MessageCache
  import opened Options
  import opened Router

  class ControlMessage {
    var ihave: seq<IHave>
    var iwant: seq<seq<Mid>>
    var graft: seq<Topic>
    var prune: seq<Topic>

    constructor (c: Control)
      ensures Value() == c
    {
      ihave, iwant, graft, prune := c.ihave, c.iwant, c.graft, c.prune;
    }

    ghost function Value(): Control
      reads this
    {
      Control(ihave, iwant, graft, prune)
    }
  }

  class RPC {
    var subscriptions: seq<(Topic, bool)>
    var publish: seq<Msg>
    var control: ControlMessage?

    constructor (subscriptions: seq<(Topic, bool)>, publish: seq<Msg>, control: ControlMessage?)
      ensures this.subscriptions == subscriptions && this.publish == publish && this.control == control
    {
      this.subscriptions, this.publish, this.control := subscriptions, publish, control;
    }

    ghost function Value(): Rpc
      reads this, control
    {
      Rpc(subscriptions, publish, if control == null then None else Some(control.Value()))
    }

    /** copyRPC */
    method Copy() returns (r: RPC)
      ensures fresh(r) && (r.control != null ==> fresh(r.control)) && r.Value() == Value()
    {
      var c: ControlMessage? := null;
      if control != null {
        c := new ControlMessage(Control(control.ihave, control.iwant, control.graft, control.prune));
      }
      r := new RPC(subscriptions, publish, c);
    }
  }

  /** The part of the router that sends. */
  class Sender {
    var mesh: PeerSets
    var gossip: map<PeerId, seq<IHave>>
    var control: map<PeerId, ControlMessage>
    var peers: map<PeerId, seq<RPC>>

    constructor ()
      ensures mesh == map[] && gossip == map[] && control == map[] && peers == map[]
    {
      mesh, gossip, control, peers := map[], map[], map[], map[];
    }

    ghost function PendingFor(pid: PeerId): Option<Pending>
      reads this, control.Values
    {
      match Lookup(control, pid)
      case None => None
      case Some(ctl) => Some(Pending(ctl.graft, ctl.prune))
    }

    /** What is to leave for a peer. */
    ghost function LoadedFor(pid: PeerId, out: Rpc): Rpc
      reads this, control.Values
    {
      Loaded(mesh, pid, Cell(None, Lookup(gossip, pid), PendingFor(pid)), out)
    }

    /** piggybackControl, on an RPC of our own. */
    method PiggybackControl(pid: PeerId, out: RPC, ctl: ControlMessage)
      requires out.control != ctl
      modifies out, out.control
      ensures out.Value() == Piggyback(mesh, pid, old(out.Value()), Pending(ctl.graft, ctl.prune))
      ensures out.control == old(out.control) || fresh(out.control)
    {
      var graft, prune := Fresh(mesh, pid, ctl.graft, true), Fresh(mesh, pid, ctl.prune, false);
      if |graft| == 0 && |prune| == 0 {
        return;
      }
      if out.control == null {
        out.control := new ControlMessage(Control([], [], [], []));
      }
      var xctl := out.control;
      xctl.graft := xctl.graft + graft;
      xctl.prune := xctl.prune + prune;
    }

    /** piggybackGossip, on an RPC of our own. */
    method PiggybackGossip(out: RPC, ihave: seq<IHave>)
      modifies out, out.control
      ensures out.Value() == old(out.Value()).(control := Some(ControlOf(old(out.Value())).(ihave := ihave)))
      ensures out.control == old(out.control) || fresh(out.control)
    {
      if out.control == null {
        out.control := new ControlMessage(Control([], [], [], []));
      }
      out.control.ihave := ihave;
    }

    /** The RPC that leaves is the one given or a copy of our own; the one given is not touched. */
    method Load(pid: PeerId, out: RPC) returns (own: RPC)
      requires forall q | q in control :: out.control != control[q]
      modifies this`gossip, this`control
      ensures own.Value() == old(LoadedFor(pid, out.Value())) && out.Value() == old(out.Value())
      ensures control == old(control) - {pid} && gossip == old(gossip) - {pid}
      ensures if pid in old(control) || pid in old(gossip)
              then fresh(own) && (own.control != null ==> fresh(own.control)) else own == out
    {
      hide Piggyback;
      own := out;
      var owned := false;
      if pid in control {
        own := own.Copy();
        owned := true;
        PiggybackControl(pid, own, control[pid]);
        control := control - {pid};
      }
      if pid in gossip {
        if !owned {
          own := own.Copy();
        }
        PiggybackGossip(own, gossip[pid]);
        gossip := gossip - {pid};
      }
    }

    /** sendRPC. Of what was there before, at most the control message of the RPC given may change, and only
      * if nothing was pending for the peer and its queue is full; the RPC itself never does. */
    method SendRPC(pid: PeerId, out: RPC)
      requires forall q | q in control :: out.control != control[q]
      modifies this`gossip, this`control, this`peers, (if out.control == null then {} else {out.control})
      ensures unchanged(out)
      ensures out.control != null && !(old(IsFull(pid)) && pid !in old(control) && pid !in old(gossip)) ==>
                unchanged(out.control)
      ensures forall q, r | q != pid :: LoadedFor(q, r) == old(LoadedFor(q, r))
      ensures PendingFor(pid) == if old(IsFull(pid)) then Retry(old(LoadedFor(pid, out.Value()))) else None
      ensures pid !in gossip
      ensures peers.Keys == old(peers).Keys && forall q | q in peers && q != pid :: peers[q] == old(peers)[q]
      ensures pid in peers ==> Received(old(peers)[pid], peers[pid], old(LoadedFor(pid, out.Value())))
    {
      hide Loaded, Retry;
      var own := Load(pid, out);
      Enqueue(pid, own);
      forall q, r | q != pid ensures LoadedFor(q, r) == old(LoadedFor(q, r)) {
        assert Lookup(control, q) == Lookup(old(control), q) && Lookup(gossip, q) == Lookup(old(gossip), q);
        assert q in control ==> control[q] != out.control;
        assert PendingFor(q) == old(PendingFor(q));
      }
    }

    ghost predicate IsFull(pid: PeerId)
      reads this
    {
      pid in peers && |peers[pid]| >= PEER_QUEUE
    }

    /** The second half of sendRPC. */
    method Enqueue(pid: PeerId, own: RPC)
      requires pid !in control && forall q | q in control :: own.control != control[q]
      modifies this`control, this`peers, (if own.control == null then {} else {own.control})
      ensures unchanged(own) && (own.control != null && !old(IsFull(pid)) ==> unchanged(own.control))
      ensures peers == if pid in old(peers) && !old(IsFull(pid))
                       then old(peers)[pid := old(peers)[pid] + [own]] else old(peers)
      ensures forall q | q != pid :: Lookup(control, q) == Lookup(old(control), q)
      ensures PendingFor(pid) == if old(IsFull(pid)) then Retry(old(own.Value())) else None
    {
      if pid in peers {
        if |peers[pid]| < PEER_QUEUE {
          peers := peers[pid := peers[pid] + [own]];
        } else if own.control != null {
          PushControl(pid, own.control);
        }
      }
    }

    /** pushControl */
    method PushControl(pid: PeerId, ctl: ControlMessage)
      modifies this`control, ctl
      ensures ctl.Value() == old(ctl.Value()).(ihave := [], iwant := [])
      ensures control == if ctl.graft != [] || ctl.prune != [] then old(control)[pid := ctl] else old(control)
    {
      ctl.ihave := [];
      ctl.iwant := [];
      if ctl.graft != [] || ctl.prune != [] {
        control := control[pid := ctl];
      }
    }

    /** Publish's last loop. Every receiver with room gets the message with its own control and gossip, and
      * the shared RPC ends as it began. */
    method FanOut(tosend: set<PeerId>, msg: Msg) returns (out: RPC)
      modifies this`gossip, this`control, this`peers
      ensures out.Value() == MessageRpc(msg) && peers.Keys == old(peers).Keys
      ensures forall p | p in old(peers) ::
                if p in tosend then Received(old(peers)[p], peers[p], old(LoadedFor(p, MessageRpc(msg))))
                else peers[p] == old(peers)[p]
    {
      hide Loaded, Received, LoadedFor, PendingFor;
      out := new RPC([], [msg], null);
      ghost var before, loaded := peers, map p | p in tosend :: LoadedFor(p, MessageRpc(msg));
      var rest := tosend;
      while rest != {}
        invariant rest <= tosend && peers.Keys == before.Keys && out.Value() == MessageRpc(msg)
        invariant forall p | p in rest :: LoadedFor(p, MessageRpc(msg)) == loaded[p]
        invariant forall p | p in before ::
                    if p in tosend && p !in rest then Received(before[p], peers[p], loaded[p])
                      else peers[p] == before[p]
        decreases |rest|
      {
        var pid :| pid in rest;
        SendRPC(pid, out);
        rest := rest - {pid};
      }
    }
  }

  /** A queue with room has one more object, which holds this RPC. */
  ghost predicate Received(before: seq<RPC>, after: seq<RPC>, out: Rpc)
    reads after, set r | r in after && r.control != null :: r.control
  {
    if |before| < PEER_QUEUE
    then |after| == |before| + 1 && before <= after && after[|before|].Value() == out
    else after == before
  }
}
