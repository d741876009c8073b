// What holds in every run whatsoever: the shape of logs and the growth of terms.
module RaftShape {
  import opened RaftTypes
  import opened RaftHandlers
  import opened RaftAppend
  import opened RaftCluster
  import opened RaftEffects

  /** The entry at position k has index k+1; terms never decrease along the log and stay
      between 0 and t. */
  ghost predicate Shape(log: Log, t: int) {
    && Contiguous(log)
    && (forall k :: 0 <= k < |log| ==> 0 <= log[k].term <= t)
    && (forall i, j :: 0 <= i < j < |log| ==> log[i].term <= log[j].term)
  }

  ghost predicate ShapeInv(c: Membership, s: Cluster)
    requires WF(c, s)
  {
    && (forall v :: v in c.ids ==> s.nodes[v].term >= 0 && Shape(s.nodes[v].log, s.nodes[v].term))
    && (forall e :: 0 <= e < |s.elections| ==> ElectionShape(s, s.elections[e]))
    && (forall p :: 0 <= p < |s.proposals| ==> ProposalShape(s, s.proposals[p]))
  }

  ghost predicate ElectionShape(s: Cluster, e: Election)
    requires e.node in s.nodes
  {
    1 <= e.term <= s.nodes[e.node].term && Shape(e.log, e.term - 1)
  }

  ghost predicate ProposalShape(s: Cluster, p: Proposal)
    requires p.node in s.nodes && p.prefix != []
  {
    && p.term <= s.nodes[p.node].term && Shape(p.prefix, p.term)
    && p.prefix[|p.prefix| - 1].term == p.term
  }

  lemma SpliceKeepsShape(log: Log, t: int, prefix: Log, u: int)
    requires Shape(log, t) && t <= u && prefix != [] && Shape(prefix, u)
    requires |prefix| - 1 <= |log| && prefix[|prefix| - 1].term == u
    ensures Shape(Spliced(log, [prefix[|prefix| - 1]], |prefix|), u)
  {
  }

  /** A request that the cluster itself sends is well built, and carries the commit index that
      its operation noted. */
  lemma RequestsAreWellBuilt(c: Membership, s: Cluster, op: Op)
    requires WF(c, s) && ShapeInv(c, s) && OpOk(c, s, op)
    ensures !op.Vote? ==> WellBuilt(Request(s, op))
    ensures op.Append? ==> Request(s, op).leaderCommit == s.proposals[op.p].leaderCommit
    ensures op.Beat? ==> Request(s, op).leaderCommit == op.commit && Request(s, op).entries == []
  {
  }

  /** Shapes survive any step that changes one node to a shapely one of no lower term and
      adds only shapely records. */
  lemma ShapeFrame(c: Membership, s: Cluster, s': Cluster, v: NodeId)
    requires WF(c, s) && WF(c, s') && ShapeInv(c, s)
    requires v in c.ids && s'.nodes == s.nodes[v := s'.nodes[v]]
    requires s.nodes[v].term <= s'.nodes[v].term && Shape(s'.nodes[v].log, s'.nodes[v].term)
    requires s.elections <= s'.elections && s.proposals <= s'.proposals
    requires forall e :: |s.elections| <= e < |s'.elections| ==> ElectionShape(s', s'.elections[e])
    requires forall p :: |s.proposals| <= p < |s'.proposals| ==> ProposalShape(s', s'.proposals[p])
    ensures ShapeInv(c, s')
    ensures forall u :: u in c.ids ==> s.nodes[u].term <= s'.nodes[u].term
  {
    hide Shape;
  }

  ghost predicate ShapeStep(c: Membership, s: Cluster, s': Cluster) {
    && WF(c, s) && WF(c, s') && ShapeInv(c, s')
    && forall v :: v in c.ids ==> s.nodes[v].term <= s'.nodes[v].term
  }

  lemma AppendKeepsShape(n: NodeState, p: Proposal, now: int)
    requires Shape(n.log, n.term) && p.prefix != [] && Shape(p.prefix, p.term)
    requires p.prefix[|p.prefix| - 1].term == p.term
    ensures var m := HandleAppend(n, AppendRequest(p), now).0;
            n.term <= m.term && Shape(m.log, m.term)
  {
    var req := AppendRequest(p);
    AppendOutcome(n, req, now);
    if HandleAppend(n, req, now).1.success {
      SpliceKeepsShape(n.log, n.term, p.prefix, p.term);
    }
  }

  lemma DeliverKeepsNodeShape(c: Membership, s: Cluster, r: nat, now: int)
    requires WF(c, s) && r < |s.sent| && ShapeInv(c, s)
    ensures var n := s.nodes[s.sent[r].to];
            var m := Dispatch(n, Request(s, s.sent[r].op), now).0;
            n.term <= m.term && Shape(m.log, m.term)
  {
    var op, n := s.sent[r].op, s.nodes[s.sent[r].to];
    hide Shape;
    ShapeIsContiguous(n.log, n.term);
    match op
    case Vote(e) => ShapeRaise(n.log, n.term, s.elections[e].term);
    case Beat(_, t, _) =>
      AppendOutcome(n, Request(s, op), now);
      ShapeRaise(n.log, n.term, t);
    case Append(p) =>
      assert ProposalShape(s, s.proposals[p]);
      AppendKeepsShape(n, s.proposals[p], now);
  }

  lemma ShapeIsContiguous(log: Log, t: int)
    requires Shape(log, t)
    ensures Contiguous(log)
  {
  }

  lemma ShapeRaise(log: Log, t: int, u: int)
    requires Shape(log, t)
    ensures t <= u ==> Shape(log, u)
  {
  }

  lemma ProposeKeepsShape(n: NodeState, payload: string)
    requires Shape(n.log, n.term) && n.term >= 0
    ensures Shape(ProposeAppend(n, payload).log, n.term)
  {
  }

  lemma EffectKeepsShape(c: Membership, s: Cluster, s': Cluster, f: Effect)
    requires WF(c, s) && WF(c, s') && Has(c, s, s', f) && ShapeInv(c, s)
    ensures ShapeStep(c, s, s')
  {
    hide Shape;
    match f
    case Delivery(r, now) =>
      DeliverKeepsNodeShape(c, s, r, now);
      ShapeFrame(c, s, s', s.sent[r].to);
    case NewProposal(v, entry) =>
      ProposeKeepsShape(s.nodes[v], entry.data);
      ShapeFrame(c, s, s', v);
    case _ =>
      ShapeRaise(s.nodes[f.v].log, s.nodes[f.v].term, s'.nodes[f.v].term);
      ShapeFrame(c, s, s', f.v);
  }

  lemma NextKeepsShape(c: Membership, s: Cluster, s': Cluster)
    requires Moves(c, s, s') && ShapeInv(c, s)
    ensures ShapeStep(c, s, s')
  {
    hide WF, Has, ShapeInv, ShapeStep;
    var f :| Has(c, s, s', f);
    EffectKeepsShape(c, s, s', f);
  }

  lemma {:induction false} RunKeepsShape(c: Membership, tr: seq<Cluster>, k: nat)
    requires Run(c, tr) && k < |tr|
    ensures WF(c, tr[k]) && ShapeInv(c, tr[k])
  {
    hide *;
    if k == 0 {
      RunStarts(c, tr);
      InitHasShape(c, tr[0]);
    } else {
      RunKeepsShape(c, tr, k - 1);
      RunMoves(c, tr, k - 1);
      NextKeepsShape(c, tr[k - 1], tr[k]);
      StepHasShape(c, tr[k - 1], tr[k]);
    }
  }

  lemma InitHasShape(c: Membership, s: Cluster)
    requires Init(c, s) && WF(c, s)
    ensures ShapeInv(c, s)
  {
  }

  lemma StepHasShape(c: Membership, s: Cluster, s': Cluster)
    requires ShapeStep(c, s, s')
    ensures WF(c, s') && ShapeInv(c, s')
  {
  }

  /** In every run, every node's log keeps its shape and its term never goes back. */
  lemma {:induction false} LogShape(c: Membership, tr: seq<Cluster>, i: nat, j: nat, v: NodeId)
    requires Run(c, tr) && i <= j < |tr| && v in c.ids
    ensures v in tr[i].nodes && v in tr[j].nodes
    ensures tr[i].nodes[v].term <= tr[j].nodes[v].term
    ensures Shape(tr[j].nodes[v].log, tr[j].nodes[v].term)
    decreases j - i
  {
    hide Shape, Moves, Run;
    RunKeepsShape(c, tr, i);
    RunKeepsShape(c, tr, j);
    if i < j {
      LogShape(c, tr, i, j - 1, v);
      RunKeepsShape(c, tr, j - 1);
      RunMoves(c, tr, j - 1);
      NextKeepsShape(c, tr[j - 1], tr[j]);
    }
  }
}
