// NewCluster and NewNode as far as membership goes: why each node's peers are all the
// other nodes, each once, and never itself.
module RaftMembership {
  import opened RaftTypes
  import opened RaftCluster
  import Sorting

  ghost predicate Distinct(ids: seq<NodeId>) {
    forall i, j :: 0 <= i < j < |ids| ==> ids[i] != ids[j]
  }

  /** The loop of NewNode over the peer map, which visits it in an arbitrary order. */
  method PeerOrder(peers: set<NodeId>) returns (order: seq<NodeId>)
    ensures PeersOf(order, peers)
  {
    order := [];
    var left := peers;
    while left != {}
      invariant left <= peers
      invariant PeersOf(order, peers - left)
    {
      var peer :| peer in left;
      order := order + [peer];
      left := left - {peer};
    }
    assert peers - left == peers;
  }

  /** The inner loop of NewCluster. */
  method PeerSet(ids: seq<NodeId>, id: NodeId) returns (peers: set<NodeId>)
    ensures peers == (set x | x in ids) - {id}
  {
    peers := {};
    for i := 0 to |ids|
      invariant peers == (set x | x in ids[..i]) - {id}
    {
      assert ids[..i + 1] == ids[..i] + [ids[i]];
      if ids[i] == id {
        continue;
      }
      peers := peers + {ids[i]};
    }
    assert ids[..|ids|] == ids;
  }

  /** The loop that opens a listener per node; a second listener at one address fails. */
  method OpenListeners(ids: seq<NodeId>) returns (ok: bool)
    ensures ok == Distinct(ids)
  {
    var open: set<NodeId> := {};
    for i := 0 to |ids|
      invariant open == set x | x in ids[..i]
      invariant Distinct(ids[..i])
    {
      if ids[i] in open {
        return false;
      }
      assert ids[..i + 1] == ids[..i] + [ids[i]];
      open := open + {ids[i]};
    }
    assert ids[..|ids|] == ids;
    return true;
  }

  /** NewCluster refuses fewer than three nodes and repeated ids, and nothing else; what it
      builds is the membership that the cluster's proofs start from. */
  method NewCluster(nodeIDs: seq<NodeId>) returns (r: Option<Config>)
    ensures r.Some? <==> |nodeIDs| >= 3 && Distinct(nodeIDs)
    ensures r.Some? ==> r.value.ids == set x | x in nodeIDs
    ensures r.Some? && "" !in nodeIDs ==> ValidConfig(r.value)
  {
    if |nodeIDs| < 3 {
      return None;
    }
    var ids := Sorting.Sort(nodeIDs);
    SortKeepsIds(nodeIDs, ids);
    var ok := OpenListeners(ids);
    if !ok {
      return None;
    }
    var all := set x | x in ids;
    var order: map<NodeId, seq<NodeId>> := map[];
    for i := 0 to |ids|
      invariant order.Keys == set x | x in ids[..i]
      invariant forall v :: v in order ==> PeersOf(order[v], all - {v})
    {
      var peers := PeerSet(ids, ids[i]);
      var listed := PeerOrder(peers);
      assert ids[..i + 1] == ids[..i] + [ids[i]];
      order := order[ids[i] := listed];
    }
    assert ids[..|ids|] == ids;
    return Some(Config(all, order));
  }

  lemma SortKeepsIds(a: seq<NodeId>, b: seq<NodeId>)
    requires multiset(a) == multiset(b)
    ensures forall x :: x in a <==> x in b
    ensures Distinct(a) <==> Distinct(b)
  {
    forall x ensures x in a <==> x in b {
      assert x in a <==> x in multiset(a);
      assert x in b <==> x in multiset(b);
    }
    DistinctIsOnce(a);
    DistinctIsOnce(b);
  }

  lemma {:induction false} DistinctIsOnce(s: seq<NodeId>)
    ensures Distinct(s) <==> forall x :: multiset(s)[x] <= 1
  {
    if s != [] {
      var h, t := s[0], s[1..];
      DistinctIsOnce(t);
      assert s == [h] + t;
      assert multiset(s) == multiset{h} + multiset(t);
      if Distinct(s) {
        assert forall i :: 0 <= i < |t| ==> t[i] == s[i + 1];
        assert Distinct(t) && h !in t;
        assert multiset(t)[h] == 0;
      } else if Distinct(t) {
        HeadAgain(s);
        assert h in multiset(t);
        assert multiset(s)[h] >= 2;
      } else {
        var x :| multiset(t)[x] > 1;
        assert multiset(s)[x] > 1;
      }
    }
  }

  lemma HeadAgain(s: seq<NodeId>)
    requires s != [] && Distinct(s[1..])
    ensures Distinct(s) || s[0] in s[1..]
  {
    if s[0] !in s[1..] {
      forall i, j | 0 <= i < j < |s| ensures s[i] != s[j] {
        assert s[j] == s[1..][j - 1];
        assert i > 0 ==> s[i] == s[1..][i - 1];
      }
    }
  }
}
