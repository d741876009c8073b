// Who proposes. In a well-timed run a leader won its term with a log it still has, so
// each term has one proposer, and what it proposes extends the log its voters approved.
module RaftProposers {
  import opened RaftTypes
  import opened RaftHandlers
  import opened RaftAppend
  import opened RaftCluster
  import opened RaftEffects
  import opened RaftShape
  import opened RaftVotes
  import opened RaftQuorums
  import opened RaftElection
  import opened RaftLedger

  /** What the other modules prove about every state of a well-timed run. */
  ghost predicate Base(c: Membership, s: Cluster) {
    && WF(c, s) && ShapeInv(c, s) && VotesInv(s) && StartedInv(s) && BackedInv(c, s)
    && WellTimed(s) && ReplyInv(s)
  }

  /** Node v proposed p or acknowledged it. */
  ghost predicate Took(s: Cluster, v: NodeId, p: nat)
    requires p < |s.proposals|
  {
    s.proposals[p].node == v || exists x :: AckedAt(s, x, v, p)
  }

  /** A success answer to a proposal came from a node that took it in the proposal's term. */
  ghost predicate ReplyInv(s: Cluster) {
    forall x, v, p: nat :: p < |s.proposals| && AckedAt(s, x, v, p) ==>
      HeardAt(s, x, v, s.proposals[p].term) && v in s.nodes && s.proposals[p].term <= s.nodes[v].term
  }

  lemma EffectKeepsReplies(c: Membership, s: Cluster, s': Cluster, f: Effect)
    requires WF(c, s) && WF(c, s') && Has(c, s, s', f) && Grows(s, s') && ShapeInv(c, s) && ReplyInv(s)
    ensures ReplyInv(s')
  {
    EffectKeepsShape(c, s, s', f);
    forall x, v, p: nat | p < |s'.proposals| && AckedAt(s', x, v, p)
      ensures HeardAt(s', x, v, s'.proposals[p].term) && v in s'.nodes && s'.proposals[p].term <= s'.nodes[v].term
    {
      if x < |s.events| {
        OldAck(c, s, s', x, v, p);
        HeardStays(s, s', x, v, s.proposals[p].term);
      } else {
        FreshAck(c, s, s', f, x, v, p);
      }
    }
  }

  lemma OldAck(c: Membership, s: Cluster, s': Cluster, x: int, v: NodeId, p: nat)
    requires WF(c, s) && Grows(s, s') && AckedAt(s', x, v, p) && x < |s.events|
    ensures p < |s.proposals| && s'.proposals[p] == s.proposals[p] && AckedAt(s, x, v, p)
  {
    assert s'.events[x] == s.events[x] && EventOk(s, s.events[x]);
    assert s'.sent[s.events[x].rpc] == s.sent[s.events[x].rpc];
    assert RpcOk(c, s, s.sent[s.events[x].rpc]);
  }

  lemma FreshAck(c: Membership, s: Cluster, s': Cluster, f: Effect, x: int, v: NodeId, p: nat)
    requires WF(c, s) && WF(c, s') && Has(c, s, s', f) && AckedAt(s', x, v, p) && x >= |s.events|
    ensures f.Delivery? && x == |s.events| && s.sent[f.r] == Rpc(s.sent[f.r].call, Append(p), v)
    ensures p < |s.proposals| && s'.proposals == s.proposals
    ensures HeardAt(s', x, v, s.proposals[p].term)
    ensures v in s.nodes && v in s'.nodes
    ensures s.nodes[v].term <= s'.nodes[v].term == s.proposals[p].term
    ensures HandleAppend(s.nodes[v], AppendRequest(s.proposals[p]), f.now).1.success
    ensures s'.nodes[v] == HandleAppend(s.nodes[v], AppendRequest(s.proposals[p]), f.now).0
  {
    assert s'.events[x].Answered?;
    assert RpcOk(c, s', s'.sent[s'.events[x].rpc]);
  }

  /** Node v won term t as election e, whose log is a prefix of `log`. */
  ghost predicate WonWith(s: Cluster, x: int, v: NodeId, t: int, log: Log) {
    && 0 <= x < |s.events| && s.events[x].Elected? && s.events[x].e < |s.elections|
    && var e := s.elections[s.events[x].e];
       e.node == v && e.term == t && e.log <= log
  }

  ghost predicate Entitled(s: Cluster, v: NodeId, t: int, log: Log) {
    exists x :: WonWith(s, x, v, t, log)
  }

  ghost predicate ProposerInv(s: Cluster) {
    && (forall v :: v in s.nodes && s.nodes[v].role == Leader ==> Entitled(s, v, s.nodes[v].term, s.nodes[v].log))
    && (forall p :: 0 <= p < |s.proposals| ==>
          Entitled(s, s.proposals[p].node, s.proposals[p].term, s.proposals[p].prefix))
  }

  /** A candidate still in the term it campaigns for still has its log, unless some other
      node proposed in that term. */
  ghost predicate CandidateKeeps(s: Cluster) {
    forall e :: 0 <= e < |s.elections| && s.elections[e].node in s.nodes
                && s.nodes[s.elections[e].node].term == s.elections[e].term ==>
                  s.elections[e].log <= s.nodes[s.elections[e].node].log || Rivalled(s, s.elections[e])
  }

  ghost predicate Rivalled(s: Cluster, e: Election) {
    exists q :: 0 <= q < |s.proposals| && s.proposals[q].term == e.term && s.proposals[q].node != e.node
  }

  lemma ProposersAreOne(c: Membership, s: Cluster)
    requires Base(c, s) && ProposerInv(s)
    ensures OneProposer(s)
  {
    forall p, q | 0 <= p < |s.proposals| && 0 <= q < |s.proposals|
                  && s.proposals[p].term == s.proposals[q].term
      ensures s.proposals[p].node == s.proposals[q].node
    {
      OneEntitled(c, s, s.proposals[p].node, s.proposals[q].node, s.proposals[p].term,
                  s.proposals[p].prefix, s.proposals[q].prefix);
    }
  }

  lemma OneEntitled(c: Membership, s: Cluster, a: NodeId, b: NodeId, t: int, la: Log, lb: Log)
    requires Base(c, s) && Entitled(s, a, t, la) && Entitled(s, b, t, lb)
    ensures a == b
  {
    hide WF, ShapeInv, VotesInv, StartedInv, BackedInv, ReplyInv;
    var x :| WonWith(s, x, a, t, la);
    var y :| WonWith(s, y, b, t, lb);
    assert WonAt(s, x, a, t, s.events[x].voters) && WonAt(s, y, b, t, s.events[y].voters);
    OneWinner(c, s, x, a, s.events[x].voters, y, b, s.events[y].voters, t);
  }

  lemma EntitledStays(s: Cluster, s': Cluster, v: NodeId, t: int, log: Log, more: Log)
    requires Grows(s, s') && Entitled(s, v, t, log) && log <= more
    ensures Entitled(s', v, t, more)
  {
    var x :| WonWith(s, x, v, t, log);
    assert WonWith(s', x, v, t, more);
  }

  /** Promotion: nobody else can have proposed in the term, so the log is still the one the
      voters saw. */
  lemma PromotionEntitles(c: Membership, s: Cluster, s': Cluster, v: NodeId, e: nat, voters: set<NodeId>)
    requires WF(c, s) && WF(c, s') && PromotionEffect(c, s, s', v, e, voters) && Grows(s, s')
    requires ProposerInv(s) && CandidateKeeps(s) && Base(c, s')
    ensures Entitled(s', v, s'.nodes[v].term, s'.nodes[v].log)
  {
    var x, t := |s.events|, s.elections[e].term;
    assert s'.events[x] == Elected(e, s.nodes[v].term, voters);
    assert TimelyPromotion(s') && s.nodes[v].term == t;
    assert WonWith(s', x, v, t, s.elections[e].log);
    hide WF, ShapeInv, VotesInv, StartedInv, BackedInv, ReplyInv, WellTimed;
    if Rivalled(s, s.elections[e]) {
      var q :| 0 <= q < |s.proposals| && s.proposals[q].term == t && s.proposals[q].node != v;
      EntitledStays(s, s', s.proposals[q].node, t, s.proposals[q].prefix, s.proposals[q].prefix);
      OneEntitled(c, s', s.proposals[q].node, v, t, s.proposals[q].prefix, s.elections[e].log);
    } else {
      assert s.elections[e].log <= s.nodes[v].log;
      assert WonWith(s', x, v, t, s'.nodes[v].log);
    }
  }

  lemma EffectKeepsProposers(c: Membership, s: Cluster, s': Cluster, f: Effect)
    requires WF(c, s) && WF(c, s') && Has(c, s, s', f) && Grows(s, s')
    requires ProposerInv(s) && CandidateKeeps(s) && Base(c, s')
    ensures ProposerInv(s')
  {
    forall v | v in s'.nodes && s'.nodes[v].role == Leader
      ensures Entitled(s', v, s'.nodes[v].term, s'.nodes[v].log)
    {
      LeaderEntitled(c, s, s', f, v);
    }
    forall p | 0 <= p < |s'.proposals|
      ensures Entitled(s', s'.proposals[p].node, s'.proposals[p].term, s'.proposals[p].prefix)
    {
      ProposalEntitled(c, s, s', f, p);
    }
  }

  lemma LeaderEntitled(c: Membership, s: Cluster, s': Cluster, f: Effect, v: NodeId)
    requires WF(c, s) && WF(c, s') && Has(c, s, s', f) && Grows(s, s')
    requires ProposerInv(s) && CandidateKeeps(s) && Base(c, s')
    requires v in s'.nodes && s'.nodes[v].role == Leader
    ensures Entitled(s', v, s'.nodes[v].term, s'.nodes[v].log)
  {
    if f.Promotion? && f.v == v {
      hide *;
      PromotionCase(c, s, s', f, v);
    } else {
      hide Base, CandidateKeeps;
      LeaderBefore(c, s, s', f, v);
      LeaderLog(c, s, s', f, v);
      EntitledStays(s, s', v, s.nodes[v].term, s.nodes[v].log, s'.nodes[v].log);
    }
  }

  lemma PromotionCase(c: Membership, s: Cluster, s': Cluster, f: Effect, v: NodeId)
    requires WF(c, s) && WF(c, s') && Has(c, s, s', f) && Grows(s, s') && f.Promotion? && f.v == v
    requires ProposerInv(s) && CandidateKeeps(s) && Base(c, s')
    ensures v in s'.nodes && Entitled(s', v, s'.nodes[v].term, s'.nodes[v].log)
  {
    hide Base, WF, ProposerInv, CandidateKeeps, Entitled;
    PromotionEntitles(c, s, s', v, f.e, f.voters);
  }

  lemma LeaderLog(c: Membership, s: Cluster, s': Cluster, f: Effect, v: NodeId)
    requires WF(c, s) && WF(c, s') && Has(c, s, s', f)
    requires v in s.nodes && v in s'.nodes && s'.nodes[v].role == Leader
    ensures s.nodes[v].log <= s'.nodes[v].log
  {
  }

  lemma ProposalEntitled(c: Membership, s: Cluster, s': Cluster, f: Effect, p: nat)
    requires WF(c, s) && WF(c, s') && Has(c, s, s', f) && Grows(s, s') && ProposerInv(s)
    requires p < |s'.proposals|
    ensures Entitled(s', s'.proposals[p].node, s'.proposals[p].term, s'.proposals[p].prefix)
  {
    if p < |s.proposals| {
      assert s'.proposals[p] == s.proposals[p];
      EntitledStays(s, s', s.proposals[p].node, s.proposals[p].term, s.proposals[p].prefix, s.proposals[p].prefix);
    } else {
      var v := f.v;
      EntitledStays(s, s', v, s.nodes[v].term, s.nodes[v].log, s'.proposals[p].prefix);
    }
  }

  lemma RivalStays(s: Cluster, s': Cluster, e: Election)
    requires Grows(s, s') && Rivalled(s, e)
    ensures Rivalled(s', e)
  {
    var q :| 0 <= q < |s.proposals| && s.proposals[q].term == e.term && s.proposals[q].node != e.node;
    assert s'.proposals[q] == s.proposals[q];
  }

  lemma EffectKeepsCandidates(c: Membership, s: Cluster, s': Cluster, f: Effect)
    requires WF(c, s) && WF(c, s') && Has(c, s, s', f) && Grows(s, s')
    requires ShapeInv(c, s) && LedgerInv(c, s) && CandidateKeeps(s)
    ensures CandidateKeeps(s')
  {
    forall e | 0 <= e < |s'.elections| && s'.elections[e].node in s'.nodes
               && s'.nodes[s'.elections[e].node].term == s'.elections[e].term
      ensures s'.elections[e].log <= s'.nodes[s'.elections[e].node].log || Rivalled(s', s'.elections[e])
    {
      if e < |s.elections| { CandidateStays(c, s, s', f, e); }
    }
  }

  /** A node's log only grows unless it handles a request. */
  lemma OwnLogGrows(c: Membership, s: Cluster, s': Cluster, f: Effect, v: NodeId)
    requires WF(c, s) && WF(c, s') && Has(c, s, s', f) && v in c.ids
    requires !(f.Delivery? && s.sent[f.r].to == v)
    ensures s.nodes[v].log <= s'.nodes[v].log
  {
  }

  /** A request that changes a candidate's log in its own term comes from a rival. */
  lemma DeliveryRivals(c: Membership, s: Cluster, s': Cluster, f: Effect, el: Election)
    requires WF(c, s) && WF(c, s') && Has(c, s, s', f) && ShapeInv(c, s) && LedgerInv(c, s)
    requires f.Delivery? && s.sent[f.r].to == el.node
    requires s.nodes[el.node].term == s'.nodes[el.node].term == el.term
    ensures s'.nodes[el.node].log == s.nodes[el.node].log || Rivalled(s', el)
  {
    DeliverLedgers(c, s, f.r, f.now);
    var op := s.sent[f.r].op;
    assert RpcOk(c, s, s.sent[f.r]);
    if s'.nodes[el.node].log != s.nodes[el.node].log {
      assert s'.proposals[op.p].term == el.term && s'.proposals[op.p].node != el.node;
    }
  }

  lemma CandidateStays(c: Membership, s: Cluster, s': Cluster, f: Effect, e: nat)
    requires WF(c, s) && WF(c, s') && Has(c, s, s', f) && Grows(s, s')
    requires ShapeInv(c, s) && LedgerInv(c, s) && CandidateKeeps(s) && e < |s.elections|
    requires s'.nodes[s.elections[e].node].term == s.elections[e].term
    ensures s'.elections[e].log <= s'.nodes[s.elections[e].node].log || Rivalled(s', s'.elections[e])
  {
    var el := s.elections[e];
    assert s'.elections[e] == el && ElectionShape(s, el);
    EffectKeepsShape(c, s, s', f);
    assert s.nodes[el.node].term == el.term;
    if f.Delivery? && s.sent[f.r].to == el.node {
      DeliveryRivals(c, s, s', f, el);
    } else {
      OwnLogGrows(c, s, s', f, el.node);
    }
    if Rivalled(s, el) { RivalStays(s, s', el); }
  }
}
