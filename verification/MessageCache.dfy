/** The sliding-window message cache (mcache.go). */
module MessageCache {

  /** Names that the protocol only compares: peers, topics and message ids. */
  datatype PeerId = PeerId(name: string)
  datatype Topic = Topic(name: string)
  datatype Mid = Mid(id: string)

  /** A message with its id, which msgID computes from author and sequence number. */
  datatype Msg = Msg(id: Mid, author: PeerId, topics: seq<Topic>)

  datatype Entry = Entry(mid: Mid, topics: seq<Topic>)

  /** The state of a MessageCache. */
  datatype Cache = Cache(msgs: map<Mid, Msg>, history: seq<seq<Entry>>, gossip: nat)

  predicate WellFormed(c: Cache) {
    0 < |c.history| && c.gossip <= |c.history|
  }

  function Ids(slot: seq<Entry>): set<Mid> {
    set e | e in slot :: e.mid
  }

  function PutEntry(c: Cache, m: Msg): Cache
    requires WellFormed(c)
  {
    c.(msgs := c.msgs[m.id := m], history := c.history[0 := c.history[0] + [Entry(m.id, m.topics)]])
  }

  function Shifted(c: Cache): Cache
    requires WellFormed(c)
  {
    var n := |c.history| - 1;
    c.(msgs := c.msgs - Ids(c.history[n]), history := [[]] + c.history[..n])
  }

  /** The ids of a slot's entries that carry the topic, in slot order. */
  function SlotIds(slot: seq<Entry>, topic: Topic): seq<Mid> {
    if slot == [] then []
    else
      SlotIds(slot[..|slot| - 1], topic)
      + (if topic in slot[|slot| - 1].topics then [slot[|slot| - 1].mid] else [])
  }

  /** The same over several slots, newest first. */
  function SlotsIds(slots: seq<seq<Entry>>, topic: Topic): seq<Mid> {
    if slots == [] then [] else SlotsIds(slots[..|slots| - 1], topic) + SlotIds(slots[|slots| - 1], topic)
  }

  function GossipIds(c: Cache, topic: Topic): seq<Mid>
    requires WellFormed(c)
  {
    SlotsIds(c.history[..c.gossip], topic)
  }

  /** MessageCache, with its map and its history updated in place. */
  class MessageCache {
    var msgs: map<Mid, Msg>
    var history: seq<seq<Entry>>
    var gossip: nat

    ghost function State(): Cache
      reads this
    {
      Cache(msgs, history, gossip)
    }

    ghost predicate Valid()
      reads this
    {
      WellFormed(State())
    }

    constructor (gossip: nat, history: nat)
      requires gossip <= history && 0 < history
      ensures State() == Cache(map[], seq(history, _ => []), gossip) && Valid()
    {
      this.msgs := map[];
      this.history := seq(history, _ => []);
      this.gossip := gossip;
    }

    method Put(msg: Msg)
      requires Valid()
      modifies this
      ensures Valid() && State() == PutEntry(old(State()), msg)
    {
      msgs := msgs[msg.id := msg];
      history := history[0 := history[0] + [Entry(msg.id, msg.topics)]];
    }

    method Get(mid: Mid) returns (msg: Msg, ok: bool)
      ensures ok <==> mid in msgs
      ensures ok ==> msg == msgs[mid]
    {
      ok := mid in msgs;
      msg := if ok then msgs[mid] else Msg(mid, PeerId(""), []);
    }

    method GetGossipIDs(topic: Topic) returns (mids: seq<Mid>)
      requires Valid()
      ensures mids == GossipIds(State(), topic)
    {
      mids := [];
      var slots := history[..gossip];
      for i := 0 to |slots|
        invariant mids == SlotsIds(slots[..i], topic)
      {
        var entries := slots[i];
        for j := 0 to |entries|
          invariant mids == SlotsIds(slots[..i], topic) + SlotIds(entries[..j], topic)
        {
          assert entries[..j + 1][..j] == entries[..j];
          for k := 0 to |entries[j].topics|
            invariant topic !in entries[j].topics[..k]
            invariant mids == SlotsIds(slots[..i], topic) + SlotIds(entries[..j], topic)
          {
            if entries[j].topics[k] == topic {
              mids := mids + [entries[j].mid];
              break;
            }
          }
        }
        assert entries[..|entries|] == entries && slots[..i + 1][..i] == slots[..i];
      }
      assert slots[..|slots|] == slots;
    }

    /** The first loop of Shift: what is in the last slot leaves the map. */
    method Forget(last: seq<Entry>)
      modifies this`msgs
      ensures msgs == old(msgs) - Ids(last)
    {
      for i := 0 to |last|
        invariant msgs == old(msgs) - Ids(last[..i])
      {
        msgs := msgs - {last[i].mid};
        assert last[..i + 1] == last[..i] + [last[i]];
      }
      assert last[..|last|] == last;
    }

    /** Its second loop: every slot moves up by one. */
    method Age()
      requires history != []
      modifies this`history
      ensures history == [[]] + old(history)[..|old(history)| - 1]
    {
      ghost var h := history;
      var i := |history| - 2;
      while i >= 0
        invariant -1 <= i <= |history| - 2 && |history| == |h|
        invariant forall k | 0 <= k <= i + 1 :: history[k] == h[k]
        invariant forall k | i + 1 < k < |history| :: history[k] == h[k - 1]
      {
        history := history[i + 1 := history[i]];
        i := i - 1;
      }
      history := history[0 := []];
      assert history == [[]] + h[..|h| - 1];
    }

    method Shift()
      requires Valid()
      modifies this
      ensures Valid() && State() == Shifted(old(State()))
    {
      Forget(history[|history| - 1]);
      Age();
    }
  }
}
