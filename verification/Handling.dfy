/** The loops over the entries of a control message, one entry at a time. */
module Handling {

  import opened MessageCache
  import opened Options
  import opened Router

  function GraftedIn(mesh: PeerSets, p: PeerId, ts: seq<Topic>): PeerSets {
    map t | t in mesh :: if t in ts then mesh[t] + {p} else mesh[t]
  }

  function PrunedFrom(mesh: PeerSets, p: PeerId, ts: seq<Topic>): PeerSets {
    map t | t in mesh :: mesh[t] - (if t in ts then {p} else {})
  }

  lemma {:induction false} GraftThenPrune(mesh: PeerSets, p: PeerId, ctl: Control)
    ensures PrunedFrom(GraftedIn(mesh, p, ctl.graft), p, ctl.prune) == Grafted(mesh, p, ctl)
  {
  }

  lemma {:induction false} NothingHandled(mesh: PeerSets, p: PeerId, ts: seq<Topic>)
    ensures GraftedIn(mesh, p, ts[..0]) == mesh && PrunedFrom(mesh, p, ts[..0]) == mesh && Refused(mesh, ts[..0]) == []
  {
    forall t | t in mesh ensures PrunedFrom(mesh, p, ts[..0])[t] == mesh[t] {
    }
  }

  lemma {:induction false} OneMoreGraft(mesh: PeerSets, p: PeerId, ts: seq<Topic>, i: nat)
    requires i < |ts|
    ensures GraftedIn(mesh, p, ts[..i + 1]) ==
            if ts[i] in mesh then GraftedIn(mesh, p, ts[..i])[ts[i] := GraftedIn(mesh, p, ts[..i])[ts[i]] + {p}]
            else GraftedIn(mesh, p, ts[..i])
    ensures Refused(mesh, ts[..i + 1]) == Refused(mesh, ts[..i]) + if ts[i] in mesh then [] else [ts[i]]
  {
    assert ts[..i + 1] == ts[..i] + [ts[i]];
    assert ts[..i + 1][..i] == ts[..i];
  }

  lemma {:induction false} OneMorePrune(mesh: PeerSets, p: PeerId, ts: seq<Topic>, i: nat)
    requires i < |ts|
    ensures PrunedFrom(mesh, p, ts[..i + 1]) ==
            if ts[i] in mesh then PrunedFrom(mesh, p, ts[..i])[ts[i] := PrunedFrom(mesh, p, ts[..i])[ts[i]] - {p}]
            else PrunedFrom(mesh, p, ts[..i])
  {
    assert ts[..i + 1] == ts[..i] + [ts[i]];
    forall t | t in mesh && t == ts[i]
      ensures PrunedFrom(mesh, p, ts[..i + 1])[t] == PrunedFrom(mesh, p, ts[..i])[t] - {p}
    {
    }
  }

  /** The messages a cache has for a list of ids. */
  function Cached(c: Cache, mids: seq<Mid>): map<Mid, Msg> {
    map mid | mid in mids && mid in c.msgs :: c.msgs[mid]
  }

  function CachedIn(c: Cache, iwant: seq<seq<Mid>>): map<Mid, Msg> {
    map mid | mid in (set i, mid | 0 <= i < |iwant| && mid in iwant[i] && mid in c.msgs :: mid) :: c.msgs[mid]
  }

  lemma {:induction false} EmptyCached(c: Cache, mids: seq<Mid>)
    ensures Cached(c, mids[..0]) == map[]
  {
  }

  lemma {:induction false} EmptyIWant(c: Cache, ctl: Control)
    ensures CachedIn(c, ctl.iwant[..0]) == map[]
  {
  }

  lemma {:induction false} OneMoreCached(c: Cache, mids: seq<Mid>, i: nat)
    requires i < |mids|
    ensures Cached(c, mids[..i + 1]) ==
            if mids[i] in c.msgs then Cached(c, mids[..i])[mids[i] := c.msgs[mids[i]]] else Cached(c, mids[..i])
  {
    assert mids[..i + 1] == mids[..i] + [mids[i]];
  }

  lemma {:induction false} OneMoreIWant(c: Cache, iwant: seq<seq<Mid>>, i: nat)
    requires i < |iwant|
    ensures CachedIn(c, iwant[..i + 1]) == CachedIn(c, iwant[..i]) + Cached(c, iwant[i])
  {
    assert iwant[..i + 1] == iwant[..i] + [iwant[i]];
  }

  lemma {:induction false} AllIWant(c: Cache, ctl: Control)
    ensures CachedIn(c, ctl.iwant).Keys == Served(c, ctl)
    ensures CachedIn(c, ctl.iwant[..|ctl.iwant|]) == CachedIn(c, ctl.iwant)
  {
    assert ctl.iwant[..|ctl.iwant|] == ctl.iwant;
  }

  /** A list with one entry for each value of a map, in any order. */
  ghost predicate ValuesOf(msgs: seq<Msg>, m: map<Mid, Msg>) {
    && |msgs| == |m.Keys|
    && (forall x | x in msgs :: exists mid | mid in m :: m[mid] == x)
    && (forall mid | mid in m :: m[mid] in msgs)
  }

  lemma {:induction false} ValuesAreMessages(msgs: seq<Msg>, c: Cache, ctl: Control)
    requires ValuesOf(msgs, CachedIn(c, ctl.iwant))
    ensures MessagesOf(msgs, c, Served(c, ctl))
  {
    AllIWant(c, ctl);
    var m := CachedIn(c, ctl.iwant);
    forall x | x in msgs ensures exists mid | mid in Served(c, ctl) :: c.msgs[mid] == x {
      var mid :| mid in m && m[mid] == x;
      assert mid in Served(c, ctl) && c.msgs[mid] == x;
    }
    forall mid | mid in Served(c, ctl) ensures c.msgs[mid] in msgs {
      assert m[mid] in msgs;
    }
  }

  // ----- in terms of the tables -----

  /** Announced for a topic we have joined, and not seen. */
  ghost predicate IsLacking(s: State, ctl: Control, mid: Mid) {
    mid !in s.seen && exists ihave :: ihave in ctl.ihave && ihave.topic in s.mesh && mid in ihave.mids
  }

  /** Asked for, and cached. */
  ghost predicate IsAskedOfUs(s: State, ctl: Control, mid: Mid) {
    mid in s.mcache.msgs && exists ids :: ids in ctl.iwant && mid in ids
  }

  lemma {:induction false} WantedMeans(s: State, ctl: Control, mid: Mid)
    ensures mid in Wanted(s, ctl) <==> IsLacking(s, ctl, mid)
  {
    if IsLacking(s, ctl, mid) {
      var ihave :| ihave in ctl.ihave && ihave.topic in s.mesh && mid in ihave.mids;
      var i :| 0 <= i < |ctl.ihave| && ctl.ihave[i] == ihave;
    }
  }

  lemma {:induction false} ServedMeans(s: State, ctl: Control, mid: Mid)
    ensures mid in Served(s.mcache, ctl) <==> IsAskedOfUs(s, ctl, mid)
  {
    if IsAskedOfUs(s, ctl, mid) {
      var ids :| ids in ctl.iwant && mid in ids;
      var i :| 0 <= i < |ctl.iwant| && ctl.iwant[i] == ids;
    }
  }

  lemma {:induction false} MessagesMean(s: State, ctl: Control, msgs: seq<Msg>, x: Msg)
    requires MessagesOf(msgs, s.mcache, Served(s.mcache, ctl))
    ensures x in msgs <==> exists mid :: IsAskedOfUs(s, ctl, mid) && s.mcache.msgs[mid] == x
    ensures msgs == [] <==> !exists mid :: IsAskedOfUs(s, ctl, mid)
  {
    forall mid ensures mid in Served(s.mcache, ctl) <==> IsAskedOfUs(s, ctl, mid) {
      ServedMeans(s, ctl, mid);
    }
    hide IsAskedOfUs, Served;
    if msgs == [] {
      assert |Served(s.mcache, ctl)| == 0;
    } else {
      assert msgs[0] in msgs;
    }
  }

  lemma {:induction false} AllMessagesMean(s: State, ctl: Control, msgs: seq<Msg>)
    requires MessagesOf(msgs, s.mcache, Served(s.mcache, ctl))
    ensures forall x :: x in msgs <==> exists mid :: IsAskedOfUs(s, ctl, mid) && s.mcache.msgs[mid] == x
  {
    forall x ensures x in msgs <==> exists mid :: IsAskedOfUs(s, ctl, mid) && s.mcache.msgs[mid] == x {
      MessagesMean(s, ctl, msgs, x);
    }
  }
}
