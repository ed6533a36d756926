/** Lists of peers without repetition, and shufflePeers. */
module Listing {

  import opened MessageCache

  predicate Distinct(s: seq<PeerId>) {
    forall i, j | 0 <= i < j < |s| :: s[i] != s[j]
  }

  function SetOf(s: seq<PeerId>): set<PeerId> {
    set x | x in s
  }

  lemma {:induction false} NoPeers()
    ensures Distinct([]) && SetOf([]) == {}
  {
  }

  lemma {:induction false} DistinctSize(s: seq<PeerId>)
    requires Distinct(s)
    ensures |SetOf(s)| == |s|
  {
    if s != [] {
      var n := |s| - 1;
      DistinctSize(s[..n]);
      assert SetOf(s) == SetOf(s[..n]) + {s[n]};
    }
  }

  lemma {:induction false} DistinctSnoc(s: seq<PeerId>, x: PeerId)
    requires Distinct(s) && x !in SetOf(s)
    ensures Distinct(s + [x]) && SetOf(s + [x]) == SetOf(s) + {x}
  {
    forall i, j | 0 <= i < j < |s + [x]| ensures (s + [x])[i] != (s + [x])[j] {
      if j == |s| {
        assert s[i] in s;
      }
    }
  }

  /** shufflePeers: each element is swapped with a random one at or before it. */
  method ShufflePeers(a: array<PeerId>)
    modifies a
    ensures multiset(a[..]) == multiset(old(a[..]))
    ensures SetOf(a[..]) == SetOf(old(a[..]))
    ensures Distinct(old(a[..])) ==> Distinct(a[..])
  {
    for i := 0 to a.Length
      invariant multiset(a[..]) == multiset(old(a[..]))
      invariant SetOf(a[..]) == SetOf(old(a[..]))
      invariant Distinct(old(a[..])) ==> Distinct(a[..])
    {
      var j :| 0 <= j <= i;
      ghost var before := a[..];
      a[i], a[j] := a[j], a[i];
      Swapped(before, a[..], i, j);
    }
  }

  lemma {:induction false} Swapped(s: seq<PeerId>, t: seq<PeerId>, i: nat, j: nat)
    requires i < |s| && j < |s| && t == s[i := s[j]][j := s[i]]
    ensures multiset(t) == multiset(s) && SetOf(t) == SetOf(s) && (Distinct(s) ==> Distinct(t))
  {
    SwappedDistinct(s, t, i, j);
    hide Distinct;
    forall x ensures x in s <==> x in t {
      assert x in s <==> x in multiset(s);
      assert x in t <==> x in multiset(t);
    }
  }

  /** Which position of the list an element of the swapped one comes from. */
  function Origin(i: nat, j: nat, k: nat): nat {
    if k == i then j else if k == j then i else k
  }

  lemma {:induction false} SwappedDistinct(s: seq<PeerId>, t: seq<PeerId>, i: nat, j: nat)
    requires i < |s| && j < |s| && t == s[i := s[j]][j := s[i]]
    ensures Distinct(s) ==> Distinct(t)
  {
    assert forall k | 0 <= k < |t| :: t[k] == s[Origin(i, j, k)];
    if Distinct(s) {
      forall k, l | 0 <= k < l < |t| ensures t[k] != t[l] {
        DifferentAt(s, Origin(i, j, k), Origin(i, j, l));
      }
    }
  }

  lemma {:induction false} DifferentAt(s: seq<PeerId>, k: nat, l: nat)
    requires Distinct(s) && k < |s| && l < |s| && k != l
    ensures s[k] != s[l]
  {
  }
}
