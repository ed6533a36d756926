/** What a run of the message cache keeps, for every sequence of puts and shifts. */
module CacheWindow {

  import opened MessageCache

  datatype Op = DoPut(msg: Msg) | DoShift

  function New(gossip: nat, history: nat): Cache {
    Cache(map[], seq(history, _ => []), gossip)
  }

  function Run(c: Cache, ops: seq<Op>): Cache
    requires WellFormed(c)
    ensures WellFormed(Run(c, ops)) && Run(c, ops).gossip == c.gossip && |Run(c, ops).history| == |c.history|
  {
    if ops == [] then c
    else
      var before := Run(c, ops[..|ops| - 1]);
      match ops[|ops| - 1]
      case DoPut(msg) => PutEntry(before, msg)
      case DoShift => Shifted(before)
  }

  /** How many shifts came after operation `i`. */
  function Age(ops: seq<Op>, i: nat): nat
    requires i < |ops|
    decreases |ops| - i
  {
    if i + 1 == |ops| then 0 else Age(ops, i + 1) + (if ops[i + 1].DoShift? then 1 else 0)
  }

  lemma {:induction false} AgeSnoc(ops: seq<Op>, op: Op, i: nat)
    requires i < |ops|
    ensures Age(ops + [op], i) == Age(ops, i) + (if op.DoShift? then 1 else 0)
    decreases |ops| - i
  {
    if i + 1 < |ops| {
      AgeSnoc(ops, op, i + 1);
    } else {
      assert Age(ops + [op], i + 1) == 0;
    }
  }

  ghost predicate PutAt(ops: seq<Op>, i: int, mid: Mid) {
    0 <= i < |ops| && ops[i].DoPut? && ops[i].msg.id == mid
  }

  // ----- the history -----

  /** The entries put `age` shifts ago, in the order they were put, from operation `i` on. */
  function OfAge(ops: seq<Op>, age: nat, i: nat): seq<Entry>
    requires i <= |ops|
    decreases |ops| - i
  {
    if i == |ops| then []
    else
      (if ops[i].DoPut? && Age(ops, i) == age then [Entry(ops[i].msg.id, ops[i].msg.topics)] else [])
      + OfAge(ops, age, i + 1)
  }

  lemma {:induction false} OfAgeSnocPut(ops: seq<Op>, m: Msg, age: nat, i: nat)
    requires i <= |ops|
    ensures OfAge(ops + [DoPut(m)], age, i) == OfAge(ops, age, i) + (if age == 0 then [Entry(m.id, m.topics)] else [])
    decreases |ops| - i
  {
    var now := ops + [DoPut(m)];
    if i == |ops| {
      assert Age(now, i) == 0 && OfAge(now, age, i + 1) == [];
    } else {
      AgeSnoc(ops, DoPut(m), i);
      OfAgeSnocPut(ops, m, age, i + 1);
      assert now[i] == ops[i];
      hide Age;
    }
  }

  lemma {:induction false} OfAgeSnocShift(ops: seq<Op>, age: nat, i: nat)
    requires i <= |ops|
    ensures OfAge(ops + [DoShift], age, i) == if age == 0 then [] else OfAge(ops, age - 1, i)
    decreases |ops| - i
  {
    if i == |ops| {
      assert OfAge(ops + [DoShift], age, i + 1) == [];
    } else {
      AgeSnoc(ops, DoShift, i);
      OfAgeSnocShift(ops, age, i + 1);
    }
  }

  lemma {:induction false} RunSnoc(c: Cache, ops: seq<Op>, op: Op)
    requires WellFormed(c)
    ensures Run(c, ops + [op]) == if op.DoPut? then PutEntry(Run(c, ops), op.msg) else Shifted(Run(c, ops))
  {
    assert (ops + [op])[..|ops|] == ops;
  }

  lemma {:induction false} AtFirst(gossip: nat, history: nat, age: nat)
    requires gossip <= history && age < history
    ensures Run(New(gossip, history), []).history[age] == OfAge([], age, 0)
  {
  }

  /** Slot `age` of the history is exactly what was put `age` shifts ago. */
  lemma {:induction false} HistoryByAge(gossip: nat, history: nat, ops: seq<Op>, age: nat)
    requires gossip <= history && age < history
    ensures Run(New(gossip, history), ops).history[age] == OfAge(ops, age, 0)
    decreases |ops|
  {
    hide Run, OfAge, Age;
    if ops == [] {
      AtFirst(gossip, history, age);
    } else {
      var before, op := ops[..|ops| - 1], ops[|ops| - 1];
      assert ops == before + [op];
      RunSnoc(New(gossip, history), before, op);
      if op.DoPut? {
        HistoryByAge(gossip, history, before, age);
        OfAgeSnocPut(before, op.msg, age, 0);
      } else {
        OfAgeSnocShift(before, age, 0);
        if age > 0 {
          HistoryByAge(gossip, history, before, age - 1);
        }
      }
    }
  }

  /** The ids, carrying the topic, that were put fewer than `ages` shifts ago, newest slot first. */
  function Advertised(ops: seq<Op>, topic: Topic, ages: nat): seq<Mid> {
    if ages == 0 then [] else Advertised(ops, topic, ages - 1) + SlotIds(OfAge(ops, ages - 1, 0), topic)
  }

  /** GetGossipIDs returns exactly the ids of age below `gossip` that carry the topic. */
  lemma {:induction false} GossipIdsByAge(gossip: nat, history: nat, ops: seq<Op>, topic: Topic)
    requires gossip <= history && 0 < history
    ensures GossipIds(Run(New(gossip, history), ops), topic) == Advertised(ops, topic, gossip)
  {
    SlotsByAge(gossip, history, ops, topic, gossip);
  }

  lemma {:induction false} SlotsByAge(gossip: nat, history: nat, ops: seq<Op>, topic: Topic, k: nat)
    requires k <= gossip <= history && 0 < history
    ensures SlotsIds(Run(New(gossip, history), ops).history[..k], topic) == Advertised(ops, topic, k)
  {
    if k > 0 {
      var h := Run(New(gossip, history), ops).history;
      assert h[..k][..k - 1] == h[..k - 1];
      SlotsByAge(gossip, history, ops, topic, k - 1);
      HistoryByAge(gossip, history, ops, k - 1);
    }
  }

  // ----- the map -----

  /** A put that has left the history. */
  ghost predicate Expired(ops: seq<Op>, i: int, history: nat) {
    0 <= i < |ops| && Age(ops, i) >= history
  }

  /** An id was put, and no put of it has expired since some put of it. */
  ghost predicate Kept(ops: seq<Op>, mid: Mid, history: nat) {
    exists i :: PutAt(ops, i, mid)
             && forall j | PutAt(ops, j, mid) && Expired(ops, j, history) :: Expired(ops[..i], j, history)
  }

  lemma {:induction false} InOfAge(ops: seq<Op>, age: nat, i: nat, mid: Mid)
    requires i <= |ops|
    ensures mid in Ids(OfAge(ops, age, i)) <==> exists j :: i <= j && PutAt(ops, j, mid) && Age(ops, j) == age
    decreases |ops| - i
  {
    hide Age, OfAge;
    if mid in Ids(OfAge(ops, age, i)) {
      var e :| e in OfAge(ops, age, i) && e.mid == mid;
      var j := OfAgePut(ops, age, i, e);
    }
    if j :| i <= j && PutAt(ops, j, mid) && Age(ops, j) == age {
      EntryOfAge(ops, age, i, j);
    }
  }

  /** The cache holds a message exactly when some put of its id has not been followed by the expiry of
    * a put of that id. */
  lemma {:induction false} MapByExpiry(gossip: nat, history: nat, ops: seq<Op>, mid: Mid)
    requires gossip <= history && 0 < history
    ensures mid in Run(New(gossip, history), ops).msgs <==> Kept(ops, mid, history)
    decreases |ops|
  {
    hide Kept, OfAge, Age;
    if ops == [] {
      NothingKept(mid, history);
    } else {
      var before, op := ops[..|ops| - 1], ops[|ops| - 1];
      assert ops == before + [op];
      MapByExpiry(gossip, history, before, mid);
      if op.DoPut? {
        KeptAfterPut(before, op.msg, mid, history);
      } else {
        KeptAfterShift(before, mid, history);
        HistoryByAge(gossip, history, before, history - 1);
        InOfAge(before, history - 1, 0, mid);
      }
    }
  }

  lemma {:induction false} NothingKept(mid: Mid, history: nat)
    ensures !Kept([], mid, history)
  {
  }

  lemma {:induction false} ExpiredSnoc(ops: seq<Op>, op: Op, j: int, history: nat)
    requires 0 < history
    ensures Expired(ops + [op], j, history) <==>
            Expired(ops, j, history) || (0 <= j < |ops| && op.DoShift? && Age(ops, j) == history - 1)
  {
    if 0 <= j < |ops| {
      AgeSnoc(ops, op, j);
    }
  }

  lemma {:induction false} KeptAfterPut(ops: seq<Op>, m: Msg, mid: Mid, history: nat)
    requires 0 < history
    ensures Kept(ops + [DoPut(m)], mid, history) <==> m.id == mid || Kept(ops, mid, history)
  {
    var now := ops + [DoPut(m)];
    forall j ensures Expired(now, j, history) <==> Expired(ops, j, history) {
      ExpiredSnoc(ops, DoPut(m), j, history);
    }
    if m.id == mid {
      assert PutAt(now, |ops|, mid) && now[..|ops|] == ops;
    } else {
      forall i | PutAt(now, i, mid) || PutAt(ops, i, mid)
        ensures PutAt(now, i, mid) && PutAt(ops, i, mid) && now[..i] == ops[..i]
      {
      }
    }
  }

  lemma {:induction false} KeptAfterShift(ops: seq<Op>, mid: Mid, history: nat)
    requires 0 < history
    ensures Kept(ops + [DoShift], mid, history) <==>
            Kept(ops, mid, history) && !exists j :: PutAt(ops, j, mid) && Age(ops, j) == history - 1
  {
    var now := ops + [DoShift];
    forall j ensures Expired(now, j, history) <==>
        Expired(ops, j, history) || (0 <= j < |ops| && Age(ops, j) == history - 1)
    {
      ExpiredSnoc(ops, DoShift, j, history);
    }
    forall i | PutAt(now, i, mid) || PutAt(ops, i, mid)
      ensures PutAt(now, i, mid) && PutAt(ops, i, mid) && now[..i] == ops[..i]
    {
    }
    forall i, j | PutAt(ops, i, mid) && Expired(ops[..i], j, history)
      ensures Expired(ops, j, history)
    {
      AgeGrows(ops, i, j);
    }
  }

  lemma {:induction false} AgeGrows(ops: seq<Op>, n: nat, j: nat)
    requires j < n <= |ops|
    ensures Age(ops[..n], j) <= Age(ops, j)
    decreases n - j
  {
    if j + 1 < n {
      AgeGrows(ops, n, j + 1);
    }
  }

  // ----- with every id put once, as the event loop does -----

  ghost predicate EachOnce(ops: seq<Op>) {
    forall i, j | 0 <= i < j < |ops| && ops[i].DoPut? && ops[j].DoPut? :: ops[i].msg.id != ops[j].msg.id
  }

  /** Given deduplication, the cache holds exactly the ids put fewer than `history` shifts ago. */
  lemma {:induction false} MapIsWindow(gossip: nat, history: nat, ops: seq<Op>, mid: Mid)
    requires gossip <= history && 0 < history && EachOnce(ops)
    ensures mid in Run(New(gossip, history), ops).msgs <==> exists i :: PutAt(ops, i, mid) && Age(ops, i) < history
  {
    MapByExpiry(gossip, history, ops, mid);
    hide Run, Age;
    forall i, j | PutAt(ops, i, mid) && PutAt(ops, j, mid)
      ensures i == j && !Expired(ops[..i], j, history)
    {
    }
  }

  /** Given deduplication, every advertised id can be served, also after the next shift. */
  lemma {:induction false} AdvertisedIsServable(gossip: nat, history: nat, ops: seq<Op>, topic: Topic, mid: Mid)
    requires gossip < history && EachOnce(ops)
    requires mid in GossipIds(Run(New(gossip, history), ops), topic)
    ensures mid in Run(New(gossip, history), ops).msgs
    ensures mid in Run(New(gossip, history), ops + [DoShift]).msgs
  {
    hide Run, Age, OfAge;
    var now := ops + [DoShift];
    GossipIdsByAge(gossip, history, ops, topic);
    var i := AdvertisedPut(ops, topic, gossip, mid);
    AgeSnoc(ops, DoShift, i);
    assert PutAt(now, i, mid);
    MapIsWindow(gossip, history, ops, mid);
    MapIsWindow(gossip, history, now, mid);
  }

  lemma {:induction false} AdvertisedPut(ops: seq<Op>, topic: Topic, ages: nat, mid: Mid) returns (i: nat)
    requires mid in Advertised(ops, topic, ages)
    ensures PutAt(ops, i, mid) && topic in ops[i].msg.topics && Age(ops, i) < ages
  {
    if mid in Advertised(ops, topic, ages - 1) {
      i := AdvertisedPut(ops, topic, ages - 1, mid);
    } else {
      var e := SlotIdsEntry(OfAge(ops, ages - 1, 0), topic, mid);
      i := OfAgePut(ops, ages - 1, 0, e);
    }
  }

  lemma {:induction false} SlotIdsEntry(slot: seq<Entry>, topic: Topic, mid: Mid) returns (e: Entry)
    requires mid in SlotIds(slot, topic)
    ensures e in slot && e.mid == mid && topic in e.topics
  {
    e := slot[|slot| - 1];
    if !(e.mid == mid && topic in e.topics) {
      e := SlotIdsEntry(slot[..|slot| - 1], topic, mid);
    }
  }

  lemma {:induction false} OfAgePut(ops: seq<Op>, age: nat, i: nat, e: Entry) returns (j: nat)
    requires i <= |ops| && e in OfAge(ops, age, i)
    ensures i <= j && PutAt(ops, j, e.mid) && ops[j].msg.topics == e.topics && Age(ops, j) == age
    decreases |ops| - i
  {
    if ops[i].DoPut? && Age(ops, i) == age && e == Entry(ops[i].msg.id, ops[i].msg.topics) {
      j := i;
    } else {
      j := OfAgePut(ops, age, i + 1, e);
    }
  }

  /** What was put fewer than `ages` shifts ago is advertised for its topics. */
  lemma {:induction false} PutAdvertised(ops: seq<Op>, topic: Topic, ages: nat, i: nat)
    requires i < |ops| && ops[i].DoPut? && topic in ops[i].msg.topics && Age(ops, i) < ages
    ensures ops[i].msg.id in Advertised(ops, topic, ages)
  {
    if Age(ops, i) < ages - 1 {
      PutAdvertised(ops, topic, ages - 1, i);
    } else {
      EntryOfAge(ops, ages - 1, 0, i);
      EntryListed(OfAge(ops, ages - 1, 0), topic, Entry(ops[i].msg.id, ops[i].msg.topics));
    }
  }

  lemma {:induction false} EntryOfAge(ops: seq<Op>, age: nat, from: nat, i: nat)
    requires from <= i < |ops| && ops[i].DoPut? && Age(ops, i) == age
    ensures Entry(ops[i].msg.id, ops[i].msg.topics) in OfAge(ops, age, from)
    decreases i - from
  {
    hide Age;
    if from < i {
      EntryOfAge(ops, age, from + 1, i);
    }
  }

  lemma {:induction false} EntryListed(slot: seq<Entry>, topic: Topic, e: Entry)
    requires e in slot && topic in e.topics
    ensures e.mid in SlotIds(slot, topic)
  {
    if e != slot[|slot| - 1] {
      assert slot == slot[..|slot| - 1] + [slot[|slot| - 1]];
      EntryListed(slot[..|slot| - 1], topic, e);
    }
  }

  // ----- deduplication is needed -----

  function Shifts(n: nat): (r: seq<Op>)
    ensures |r| == n && forall k | 0 <= k < n :: r[k] == DoShift
  {
    seq(n, _ => DoShift)
  }

  lemma {:induction false} AgeAfterShifts(ops: seq<Op>, n: nat, i: nat)
    requires i < |ops|
    ensures Age(ops + Shifts(n), i) == Age(ops, i) + n
  {
    hide Age;
    if n == 0 {
      assert ops + Shifts(0) == ops;
    } else {
      AgeAfterShifts(ops, n - 1, i);
      assert ops + Shifts(n) == ops + Shifts(n - 1) + [DoShift];
      AgeSnoc(ops + Shifts(n - 1), DoShift, i);
    }
  }

  /** A message is put, put again when its first entry is in the oldest slot, and then the window moves on. */
  function PutTwice(m: Msg, history: nat): seq<Op>
    requires 0 < history
  {
    [DoPut(m)] + Shifts(history - 1) + [DoPut(m)] + [DoShift]
  }

  lemma {:induction false} AgesOfPutTwice(m: Msg, history: nat)
    requires 0 < history
    ensures var ops := PutTwice(m, history);
            && Age(ops, 0) == history && Age(ops, history) == 1
            && Age(ops[..history], 0) == history - 1 && ops[0] == DoPut(m) && ops[history] == DoPut(m)
            && forall i | PutAt(ops, i, m.id) :: i == 0 || i == history
  {
    var ops, first := PutTwice(m, history), [DoPut(m)] + Shifts(history - 1);
    assert ops[..history] == first;
    AgeAfterShifts([DoPut(m)], history - 1, 0);
    AgeSnoc(first, DoPut(m), 0);
    AgeSnoc(first + [DoPut(m)], DoShift, 0);
    AgeSnoc(first + [DoPut(m)], DoShift, history);
    assert Age(first + [DoPut(m)], history) == 0;
    hide Age;
    forall i | 0 < i < history ensures ops[i] == DoShift {
      assert ops[i] == Shifts(history - 1)[i - 1];
    }
  }

  /** Without deduplication it fails for every window: the expiry of an old put takes the message away while
    * a newer put of the same id, one shift old, is still advertised. */
  lemma {:induction false} RepeatedPutIsNotServable(gossip: nat, history: nat, m: Msg, topic: Topic)
    requires 2 <= gossip < history && topic in m.topics
    ensures var c := Run(New(gossip, history), PutTwice(m, history));
            m.id in GossipIds(c, topic) && m.id !in c.msgs
  {
    hide Run, Age, Advertised;
    var ops := PutTwice(m, history);
    AgesOfPutTwice(m, history);
    MapByExpiry(gossip, history, ops, m.id);
    FirstExpired(m, history);
    GossipIdsByAge(gossip, history, ops, topic);
    PutAdvertised(ops, topic, gossip, history);
  }

  lemma {:induction false} FirstExpired(m: Msg, history: nat)
    requires 0 < history
    ensures !Kept(PutTwice(m, history), m.id, history)
  {
    hide Age;
    var ops := PutTwice(m, history);
    AgesOfPutTwice(m, history);
    assert PutAt(ops, 0, m.id) && Expired(ops, 0, history);
    assert !Expired(ops[..0], 0, history) && !Expired(ops[..history], 0, history);
  }

  /** Whatever was put, every advertised id can be served. */
  ghost predicate AlwaysServable(gossip: nat, history: nat)
    requires gossip < history
  {
    forall ops, topic, mid | mid in GossipIds(Run(New(gossip, history), ops), topic) ::
      mid in Run(New(gossip, history), ops).msgs
  }

  lemma {:induction false} AgeOfPrefix(ops: seq<Op>, j: nat, i: nat)
    requires j < i < |ops|
    ensures Age(ops, j) == Age(ops[..i], j) + Age(ops, i) + (if ops[i].DoShift? then 1 else 0)
    decreases i - j
  {
    if j + 1 < i {
      AgeOfPrefix(ops, j + 1, i);
    }
  }

  lemma {:induction false} AgesDecrease(ops: seq<Op>, i: nat, j: nat)
    requires i <= j < |ops|
    ensures Age(ops, j) <= Age(ops, i)
    decreases j - i
  {
    if i < j {
      AgesDecrease(ops, i + 1, j);
    }
  }

  /** What was put since the last shift is kept. */
  lemma {:induction false} NewestKept(ops: seq<Op>, i: nat, mid: Mid, history: nat)
    requires 0 < history && PutAt(ops, i, mid) && Age(ops, i) == 0
    ensures Kept(ops, mid, history)
  {
    hide Age, Expired;
    forall j | PutAt(ops, j, mid) && Expired(ops, j, history) ensures Expired(ops[..i], j, history) {
      ExpiredBefore(ops, i, j, history);
    }
  }

  lemma {:induction false} ExpiredBefore(ops: seq<Op>, i: nat, j: int, history: nat)
    requires 0 < history && i < |ops| && !ops[i].DoShift? && Age(ops, i) == 0 && Expired(ops, j, history)
    ensures Expired(ops[..i], j, history)
  {
    if j < i {
      AgeOfPrefix(ops, j, i);
    } else {
      AgesDecrease(ops, i, j);
    }
    hide Age;
  }

  /** Without deduplication every advertised id can be served exactly if only the newest slot is advertised. */
  lemma {:induction false} DeduplicationNeededIff(gossip: nat, history: nat)
    requires gossip < history
    ensures AlwaysServable(gossip, history) <==> gossip <= 1
  {
    hide Run, Age, GossipIds, Kept;
    if gossip <= 1 {
      forall ops, topic, mid | mid in GossipIds(Run(New(gossip, history), ops), topic)
        ensures mid in Run(New(gossip, history), ops).msgs
      {
        GossipIdsByAge(gossip, history, ops, topic);
        var i := AdvertisedPut(ops, topic, gossip, mid);
        NewestKept(ops, i, mid, history);
        MapByExpiry(gossip, history, ops, mid);
      }
    } else {
      var m, topic := Msg(Mid(""), PeerId(""), [Topic("")]), Topic("");
      RepeatedPutIsNotServable(gossip, history, m, topic);
    }
  }
}
