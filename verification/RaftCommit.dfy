// A majority commit means majority storage, in every run whatsoever.
module RaftCommit {
  import opened RaftTypes
  import opened RaftHandlers
  import opened RaftAppend
  import opened RaftCluster
  import opened RaftEffects
  import opened RaftShape
  import opened RaftQuorums
  import opened RaftProposers
  import opened RaftCompleteness

  /** Node u holds exactly p's new entry at its position. */
  ghost predicate Stores(s: Cluster, u: NodeId, p: Proposal)
    requires p.prefix != []
  {
    u in s.nodes && |p.prefix| <= |s.nodes[u].log|
    && s.nodes[u].log[|p.prefix| - 1] == p.prefix[|p.prefix| - 1]
  }

  /** At some moment m <= k, not before the proposal, u held p's entry. */
  ghost predicate StoredSince(c: Membership, tr: seq<Cluster>, k: nat, u: NodeId, p: nat)
    requires k < |tr| && WF(c, tr[k]) && p < |tr[k].proposals|
  {
    exists m :: 0 <= m <= k && p < |tr[m].proposals| && Stores(tr[m], u, tr[k].proposals[p])
  }

  lemma FreshTakerStores(c: Membership, s: Cluster, s': Cluster, f: Effect, u: NodeId, p: nat)
    requires WF(c, s) && WF(c, s') && Has(c, s, s', f) && Grows(s, s') && ShapeInv(c, s)
    requires p < |s'.proposals| && Took(s', u, p)
    requires p < |s.proposals| ==> !Took(s, u, p)
    ensures Stores(s', u, s'.proposals[p])
  {
    if s'.proposals[p].node != u {
      var x :| AckedAt(s', x, u, p);
      if x < |s.events| {
        OldAck(c, s, s', x, u, p);
      } else {
        FreshAck(c, s, s', f, x, u, p);
        AckerStores(c, s, u, p, f.now);
      }
    }
  }

  lemma AckerStores(c: Membership, s: Cluster, u: NodeId, p: nat, now: int)
    requires WF(c, s) && ShapeInv(c, s) && p < |s.proposals| && u in s.nodes
    requires HandleAppend(s.nodes[u], AppendRequest(s.proposals[p]), now).1.success
    ensures var log, pre := HandleAppend(s.nodes[u], AppendRequest(s.proposals[p]), now).0.log, s.proposals[p].prefix;
            |pre| <= |log| && log[|pre| - 1] == pre[|pre| - 1]
  {
    assert ProposalShape(s, s.proposals[p]);
    var n, pre := s.nodes[u], s.proposals[p].prefix;
    var req := AppendRequest(s.proposals[p]);
    hide WF, ShapeInv;
    AppendOutcome(n, req, now);
    SpliceFacts(n.log, req.entries, |pre|);
    var m := HandleAppend(n, req, now).0;
    assert m.log[|pre| - 1..|pre|][0] == pre[|pre| - 1];
  }

  lemma NothingProposedAtFirst(c: Membership, tr: seq<Cluster>)
    requires Run(c, tr)
    ensures tr[0].proposals == []
  {
  }

  lemma StoredStays(c: Membership, tr: seq<Cluster>, k: nat, u: NodeId, p: nat)
    requires 0 < k < |tr| && WF(c, tr[k - 1]) && WF(c, tr[k]) && Grows(tr[k - 1], tr[k])
    requires p < |tr[k - 1].proposals| && StoredSince(c, tr, k - 1, u, p)
    ensures p < |tr[k].proposals| && StoredSince(c, tr, k, u, p)
  {
    hide Stores;
    var q := tr[k].proposals[p];
    assert tr[k - 1].proposals[p] == q;
    var m :| 0 <= m <= k - 1 && p < |tr[m].proposals| && Stores(tr[m], u, q);
    assert Stores(tr[m], u, q);
  }

  lemma StoredNow(c: Membership, tr: seq<Cluster>, k: nat, u: NodeId, p: nat)
    requires k < |tr| && WF(c, tr[k]) && p < |tr[k].proposals| && Stores(tr[k], u, tr[k].proposals[p])
    ensures StoredSince(c, tr, k, u, p)
  {
  }

  lemma {:induction false} TakerStored(c: Membership, tr: seq<Cluster>, k: nat, u: NodeId, p: nat)
    requires Run(c, tr) && k < |tr| && WF(c, tr[k]) && p < |tr[k].proposals| && Took(tr[k], u, p)
    ensures StoredSince(c, tr, k, u, p)
  {
    hide *;
    NothingProposedAtFirst(c, tr);
    if k > 0 {
      var f := RunEffect(c, tr, k - 1);
      RunKeepsShape(c, tr, k - 1);
      if p < |tr[k - 1].proposals| && Took(tr[k - 1], u, p) {
        TakerStored(c, tr, k - 1, u, p);
        StoredStays(c, tr, k, u, p);
      } else {
        FreshTakerStores(c, tr[k - 1], tr[k], f, u, p);
        StoredNow(c, tr, k, u, p);
      }
    }
  }

  /** Commit means majority storage: whenever a Propose has logged commit_majority, the
      nodes it counted are a majority, and each of them held exactly the proposed entry at
      the committed position at some moment since the proposal. */
  lemma CommitMeansStored(c: Membership, tr: seq<Cluster>, k: nat, x: int, p: nat, quorum: set<NodeId>)
    requires Run(c, tr) && k < |tr|
    requires 0 <= x < |tr[k].events| && tr[k].events[x] == Committed(p, quorum)
    ensures WF(c, tr[k]) && p < |tr[k].proposals|
    ensures Quorum(c, quorum)
    ensures forall u :: u in quorum ==> StoredSince(c, tr, k, u, p)
  {
    RunKeepsBacked(c, tr, k);
    hide Run, WF, BackedInv, Stores, Took, StoredSince;
    CommitMeansTaken(c, tr[k], x, p, quorum);
    forall u | u in quorum ensures StoredSince(c, tr, k, u, p) {
      TakerStored(c, tr, k, u, p);
    }
  }
}
