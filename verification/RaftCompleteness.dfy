// Leader completeness and the chain of commits, for well-timed runs.
module RaftCompleteness {
  import opened RaftTypes
  import opened RaftHandlers
  import opened RaftAppend
  import opened RaftCluster
  import opened RaftEffects
  import opened RaftShape
  import opened RaftVotes
  import opened RaftQuorums
  import opened RaftElection
  import opened RaftLedger
  import opened RaftProposers

  /** Node v voted for election e: by starting it or by a grant. */
  ghost predicate Backs(s: Cluster, v: NodeId, e: nat)
    requires e < |s.elections|
  {
    s.elections[e].node == v || exists x :: Granted(s, x, v, e)
  }

  /** Node v still holds all of what it took, unless it later took something that lacks it. */
  ghost predicate Keeps(s: Cluster, v: NodeId, p: nat)
    requires p < |s.proposals| && v in s.nodes
  {
    s.proposals[p].prefix <= s.nodes[v].log || exists q: nat :: Overrules(s, v, p, q)
  }

  ghost predicate Overrules(s: Cluster, v: NodeId, p: nat, q: nat)
    requires p < |s.proposals|
  {
    && q < |s.proposals| && Took(s, v, q) && s.proposals[p].term < s.proposals[q].term
    && !(s.proposals[p].prefix <= s.proposals[q].prefix)
  }

  /** A candidate backed by a node that took p holds all of p, unless a proposal of a term
      in between lacks it. */
  ghost predicate Inherits(s: Cluster, p: nat, e: nat)
    requires p < |s.proposals| && e < |s.elections|
  {
    s.proposals[p].prefix <= s.elections[e].log || exists q: nat :: Between(s, p, q, e)
  }

  ghost predicate Between(s: Cluster, p: nat, q: nat, e: nat)
    requires p < |s.proposals| && e < |s.elections|
  {
    && q < |s.proposals| && s.proposals[p].term < s.proposals[q].term < s.elections[e].term
    && !(s.proposals[p].prefix <= s.proposals[q].prefix)
  }

  ghost predicate KeepInv(s: Cluster) {
    forall v, p: nat :: p < |s.proposals| && v in s.nodes && Took(s, v, p) ==> Keeps(s, v, p)
  }

  /** Node v took p and backs the candidate e of a later term. */
  ghost predicate Bridges(s: Cluster, v: NodeId, p: nat, e: nat) {
    && p < |s.proposals| && e < |s.elections| && s.proposals[p].term < s.elections[e].term
    && Took(s, v, p) && Backs(s, v, e)
  }

  ghost predicate BridgeEnds(s: Cluster, p: nat, e: nat) {
    p < |s.proposals| && e < |s.elections|
  }

  ghost predicate InheritInv(s: Cluster) {
    forall v, p: nat, e: nat :: Bridges(s, v, p, e) ==> Inherits(s, p, e)
  }

  ghost predicate Good(c: Membership, s: Cluster) {
    && Base(c, s) && LedgerInv(c, s) && ProposerInv(s) && CandidateKeeps(s)
    && KeepInv(s) && InheritInv(s)
  }

  // ----- a node keeps what it took -----

  lemma TookBefore(c: Membership, s: Cluster, s': Cluster, f: Effect, v: NodeId, p: nat)
    requires WF(c, s) && WF(c, s') && Has(c, s, s', f) && Grows(s, s')
    requires p < |s.proposals| && Took(s', v, p)
    ensures Took(s, v, p) || (f.Delivery? && AckedAt(s', |s.events|, v, p))
  {
    assert s'.proposals[p] == s.proposals[p];
    if s.proposals[p].node != v {
      var x :| AckedAt(s', x, v, p);
      if x < |s.events| { OldAck(c, s, s', x, v, p); }
      else { FreshAck(c, s, s', f, x, v, p); }
    }
  }

  lemma TookStays(s: Cluster, s': Cluster, v: NodeId, p: nat)
    requires Grows(s, s') && p < |s.proposals| && Took(s, v, p)
    ensures Took(s', v, p)
  {
    assert s'.proposals[p] == s.proposals[p];
    if s.proposals[p].node != v {
      var x :| AckedAt(s, x, v, p);
      assert AckedAt(s', x, v, p);
    }
  }

  lemma OverrulesStays(s: Cluster, s': Cluster, v: NodeId, p: nat, q: nat)
    requires Grows(s, s') && p < |s.proposals| && Overrules(s, v, p, q)
    ensures Overrules(s', v, p, q)
  {
    TookStays(s, s', v, q);
    assert s'.proposals[p] == s.proposals[p] && s'.proposals[q] == s.proposals[q];
  }

  /** A node whose log only grows keeps everything it kept. */
  lemma KeepsOnGrowth(s: Cluster, s': Cluster, v: NodeId, p: nat)
    requires Grows(s, s') && p < |s.proposals| && v in s.nodes && v in s'.nodes
    requires Keeps(s, v, p) && s.nodes[v].log <= s'.nodes[v].log
    ensures Keeps(s', v, p)
  {
    assert s'.proposals[p] == s.proposals[p];
    if !(s.proposals[p].prefix <= s.nodes[v].log) {
      var q: nat :| Overrules(s, v, p, q);
      OverrulesStays(s, s', v, p, q);
    }
  }

  lemma TookTerm(c: Membership, s: Cluster, v: NodeId, p: nat)
    requires WF(c, s) && ShapeInv(c, s) && ReplyInv(s) && p < |s.proposals| && Took(s, v, p)
    ensures v in s.nodes && s.proposals[p].term <= s.nodes[v].term
  {
    hide Shape;
    assert ProposalShape(s, s.proposals[p]);
  }

  /** Accepting proposal q: what was taken before survives or is overruled by q itself. */
  lemma AcceptKeeps(c: Membership, s: Cluster, s': Cluster, f: Effect, v: NodeId, p: nat, q: nat)
    requires WF(c, s) && WF(c, s') && Has(c, s, s', f) && Grows(s, s')
    requires ShapeInv(c, s) && LedgerInv(c, s) && ReplyInv(s) && KeepInv(s)
    requires AckedAt(s', |s.events|, v, q)
    requires p < |s.proposals| && (Took(s, v, p) || p == q)
    ensures v in s'.nodes && Keeps(s', v, p)
  {
    FreshAck(c, s, s', f, |s.events|, v, q);
    var n := s.nodes[v];
    assert Contiguous(n.log);
    AcceptedLog(c, s, q, n, f.now);
    assert Took(s', v, q);
    assert s'.proposals == s.proposals;
    if p != q {
      TookTerm(c, s, v, p);
      assert Keeps(s, v, p);
      hide WF, ShapeInv, ReplyInv, KeepInv, Ledgered, Has;
      AcceptKeepsOld(s, s', v, p, q);
    }
  }

  lemma AcceptKeepsOld(s: Cluster, s': Cluster, v: NodeId, p: nat, q: nat)
    requires Grows(s, s') && s'.proposals == s.proposals && ChainInv(s)
    requires p < |s.proposals| && q < |s.proposals| && v in s.nodes && v in s'.nodes
    requires Keeps(s, v, p) && Took(s', v, q)
    requires s.proposals[p].term <= s.proposals[q].term
    requires s.proposals[q].prefix <= s'.nodes[v].log
    requires s'.nodes[v].log == if s.proposals[q].prefix <= s.nodes[v].log
                                then s.nodes[v].log else s.proposals[q].prefix
    ensures Keeps(s', v, p)
  {
    if s.proposals[p].prefix <= s.nodes[v].log {
      if s.proposals[p].term == s.proposals[q].term {
        assert Comparable(s.proposals[p].prefix, s.proposals[q].prefix);
      } else if !(s.proposals[p].prefix <= s.proposals[q].prefix) {
        assert Overrules(s', v, p, q);
      }
    } else {
      var r: nat :| Overrules(s, v, p, r);
      OverrulesStays(s, s', v, p, r);
    }
  }

  lemma EffectKeepsKeep(c: Membership, s: Cluster, s': Cluster, f: Effect)
    requires WF(c, s) && WF(c, s') && Has(c, s, s', f) && Grows(s, s')
    requires ShapeInv(c, s) && LedgerInv(c, s) && ReplyInv(s) && KeepInv(s)
    ensures KeepInv(s')
  {
    hide WF, ShapeInv, LedgerInv, ReplyInv, Has, Grows, Took, Keeps;
    forall v, p: nat | p < |s'.proposals| && v in s'.nodes && Took(s', v, p) ensures Keeps(s', v, p) {
      OneKeeps(c, s, s', f, v, p);
    }
  }

  lemma OneKeeps(c: Membership, s: Cluster, s': Cluster, f: Effect, v: NodeId, p: nat)
    requires WF(c, s) && WF(c, s') && Has(c, s, s', f) && Grows(s, s')
    requires ShapeInv(c, s) && LedgerInv(c, s) && ReplyInv(s) && KeepInv(s)
    requires p < |s'.proposals| && v in s'.nodes && Took(s', v, p)
    ensures Keeps(s', v, p)
  {
    if p >= |s.proposals| {
      NewProposalIsKept(c, s, s', f, v, p);
    } else {
      TookBefore(c, s, s', f, v, p);
      LogFate(c, s, s', f, v);
      hide WF, ShapeInv, LedgerInv, ReplyInv, Has, Took, Keeps, AckedAt;
      if f.Delivery? && AckedAt(s', |s.events|, v, p) {
        AcceptKeeps(c, s, s', f, v, p, p);
      } else if s.nodes[v].log <= s'.nodes[v].log {
        KeepsOnGrowth(s, s', v, p);
      } else {
        var q: nat :| AckedAt(s', |s.events|, v, q);
        AcceptKeeps(c, s, s', f, v, p, q);
      }
    }
  }

  lemma NewProposalIsKept(c: Membership, s: Cluster, s': Cluster, f: Effect, v: NodeId, p: nat)
    requires WF(c, s) && WF(c, s') && Has(c, s, s', f) && Grows(s, s')
    requires |s.proposals| <= p < |s'.proposals| && v in s'.nodes && Took(s', v, p)
    ensures Keeps(s', v, p)
  {
    if s'.proposals[p].node != v {
      var x :| AckedAt(s', x, v, p);
      if x < |s.events| { OldAck(c, s, s', x, v, p); } else { FreshAck(c, s, s', f, x, v, p); }
    }
  }

  /** A log grows, or changes by accepting some proposal. */
  lemma LogFate(c: Membership, s: Cluster, s': Cluster, f: Effect, v: NodeId)
    requires WF(c, s) && WF(c, s') && Has(c, s, s', f) && Grows(s, s')
    requires ShapeInv(c, s) && LedgerInv(c, s) && v in s'.nodes
    ensures v in s.nodes
    ensures s.nodes[v].log <= s'.nodes[v].log || exists q: nat :: AckedAt(s', |s.events|, v, q)
  {
    if f.Delivery? && s.sent[f.r].to == v {
      DeliverLedgers(c, s, f.r, f.now);
      hide ShapeInv, LedgerInv;
      if s'.nodes[v].log != s.nodes[v].log {
        assert AckedAt(s', |s.events|, v, s.sent[f.r].op.p);
      }
    }
  }

  // ----- a candidate inherits what its backers took -----

  lemma BacksBefore(c: Membership, s: Cluster, s': Cluster, f: Effect, v: NodeId, e: nat)
    requires WF(c, s) && WF(c, s') && Has(c, s, s', f) && Grows(s, s')
    requires e < |s.elections| && Backs(s', v, e)
    ensures Backs(s, v, e) || Granted(s', |s.events|, v, e)
  {
    assert s'.elections[e] == s.elections[e];
    if s.elections[e].node != v {
      var x :| Granted(s', x, v, e);
      if x < |s.events| {
        assert s'.events[x] == s.events[x] && EventOk(s, s.events[x]);
        assert s'.sent[s.events[x].rpc] == s.sent[s.events[x].rpc];
        assert Granted(s, x, v, e);
      } else {
        assert x == |s.events|;
      }
    }
  }

  lemma BacksTerm(c: Membership, s: Cluster, v: NodeId, e: nat)
    requires WF(c, s) && ShapeInv(c, s) && VotesInv(s) && e < |s.elections| && Backs(s, v, e)
    ensures v in s.nodes && s.elections[e].term <= s.nodes[v].term
  {
    hide Shape;
    assert ElectionShape(s, s.elections[e]);
    if s.elections[e].node != v {
      var x :| Granted(s, x, v, e);
      assert VoteAt(s, x, v, s.elections[e].term, s.elections[e].node);
    }
  }

  lemma InheritsStays(s: Cluster, s': Cluster, p: nat, e: nat)
    requires Grows(s, s') && p < |s.proposals| && e < |s.elections| && Inherits(s, p, e)
    ensures Inherits(s', p, e)
  {
    assert s'.proposals[p] == s.proposals[p] && s'.elections[e] == s.elections[e];
    if !(s.proposals[p].prefix <= s.elections[e].log) {
      var q: nat :| Between(s, p, q, e);
      assert s'.proposals[q] == s.proposals[q];
      assert Between(s', p, q, e);
    }
  }

  /** The vote's log check: a voter that holds p votes only for a candidate whose log holds
      p too, or ends in an entry proposed after p without it. */
  lemma UpToDateInherits(c: Membership, s: Cluster, p: nat, e: nat, log: Log)
    requires WF(c, s) && ShapeInv(c, s) && LedgerInv(c, s)
    requires p < |s.proposals| && e < |s.elections| && s.proposals[p].term < s.elections[e].term
    requires Ledgered(s, log) && s.proposals[p].prefix <= log && Contiguous(log)
    requires forall i, j :: 0 <= i < j < |log| ==> log[i].term <= log[j].term
    requires CandidateUpToDate(LastTerm(s.elections[e].log), LastIndex(s.elections[e].log), LastTerm(log), LastIndex(log))
    ensures Inherits(s, p, e)
  {
    var pre, el := s.proposals[p].prefix, s.elections[e].log;
    assert ProposalShape(s, s.proposals[p]) && ElectionShape(s, s.elections[e]);
    LastPosition(pre, log);
    assert LastTerm(pre) >= 0 && LastIndex(log) >= 1;
    assert el != [];
    assert el[..|el|] == el && log[..|log|] == log;
    assert InLedger(s, el) && InLedger(s, log);
    assert el[|el| - 1].term < s.elections[e].term && (Comparable(el, log) ==> |log| <= |el|);
    hide Ledgered, Shape, LedgerInv;
    if LastTerm(el) == LastTerm(log) {
      LedgerMeets(c, s, el, log);
    } else {
      LaterTermInherits(c, s, p, e);
    }
  }

  lemma LaterTermInherits(c: Membership, s: Cluster, p: nat, e: nat)
    requires WF(c, s) && ShapeInv(c, s) && p < |s.proposals| && e < |s.elections|
    requires var el := s.elections[e].log;
             el != [] && InLedger(s, el) && s.proposals[p].term < el[|el| - 1].term < s.elections[e].term
    ensures Inherits(s, p, e)
  {
    hide Shape;
    var el := s.elections[e].log;
    var q :| 0 <= q < |s.proposals| && s.proposals[q].prefix == el;
    assert ProposalShape(s, s.proposals[q]);
    if !(s.proposals[p].prefix <= el) { assert Between(s, p, q, e); }
  }

  lemma LastPosition(pre: Log, log: Log)
    requires pre != [] && pre <= log
    requires forall i, j :: 0 <= i < j < |log| ==> log[i].term <= log[j].term
    ensures log != [] && LastTerm(pre) <= LastTerm(log)
  {
    assert pre[|pre| - 1] == log[|pre| - 1];
  }

  /** A new election: the candidate backs itself and carries its own log. */
  lemma CandidateInherits(c: Membership, s: Cluster, s': Cluster, v: NodeId, w: NodeId, p: nat)
    requires WF(c, s) && WF(c, s') && NewElectionEffect(c, s, s', v) && Grows(s, s')
    requires ShapeInv(c, s) && ReplyInv(s) && KeepInv(s)
    requires Bridges(s', w, p, |s.elections|)
    ensures Inherits(s', p, |s.elections|)
  {
    var e := |s.elections|;
    var f := NewElection(v);
    assert Has(c, s, s', f);
    assert w == v by {
      if w != v { NobodyGrantedYet(c, s, s', w); }
    }
    TookBefore(c, s, s', f, v, p);
    assert Keeps(s, v, p);
    hide WF, ShapeInv, KeepInv, Took;
    if !(s.proposals[p].prefix <= s.nodes[v].log) {
      var q: nat :| Overrules(s, v, p, q);
      TookTerm(c, s, v, q);
      assert Between(s', p, q, e);
    }
  }

  lemma NobodyGrantedYet(c: Membership, s: Cluster, s': Cluster, w: NodeId)
    requires WF(c, s) && Grows(s, s') && s'.sent == s.sent
    requires |s'.events| <= |s.events| + 1 && (|s'.events| > |s.events| ==> s'.events[|s.events|].Started?)
    ensures forall x :: !Granted(s', x, w, |s.elections|)
  {
    forall x ensures !Granted(s', x, w, |s.elections|) {
      if 0 <= x < |s'.events| && s'.events[x].Answered? && s'.events[x].rpc < |s'.sent| {
        assert RpcOk(c, s, s.sent[s'.events[x].rpc]);
      }
    }
  }

  /** A grant in this step: the voter held what it took, or was overruled in a term before. */
  lemma VoterInherits(c: Membership, s: Cluster, s': Cluster, f: Effect, v: NodeId, p: nat, e: nat)
    requires WF(c, s) && WF(c, s') && Has(c, s, s', f) && Grows(s, s')
    requires Base(c, s) && LedgerInv(c, s) && KeepInv(s) && ProposerInv(s)
    requires VotesInv(s') && StartedInv(s) && NoLateGrant(s')
    requires p < |s.proposals| && e < |s.elections| && Took(s, v, p) && s.proposals[p].term < s.elections[e].term
    requires Granted(s', |s.events|, v, e)
    ensures Inherits(s, p, e)
  {
    FreshVoteState(c, s, s', f, v, e);
    assert Keeps(s, v, p);
    if s.proposals[p].prefix <= s.nodes[v].log {
      assert Shape(s.nodes[v].log, s.nodes[v].term);
      hide WF, KeepInv, Has, Ledgered, ShapeInv, WellTimed;
      UpToDateInherits(c, s, p, e, s.nodes[v].log);
    } else {
      var q: nat :| Overrules(s, v, p, q);
      NoRivalTaken(c, s, s', f, v, q, e);
      assert Between(s, p, q, e);
    }
  }

  lemma FreshVoteState(c: Membership, s: Cluster, s': Cluster, f: Effect, v: NodeId, e: nat)
    requires WF(c, s) && WF(c, s') && Has(c, s, s', f) && Granted(s', |s.events|, v, e) && e < |s.elections|
    ensures f.Delivery? && v in s.nodes && s.elections[e].node != v
    ensures s.nodes[v].term <= s.elections[e].term
    ensures var el := s.elections[e].log;
            CandidateUpToDate(LastTerm(el), LastIndex(el), LastTerm(s.nodes[v].log), LastIndex(s.nodes[v].log))
  {
    assert RpcOk(c, s, s.sent[f.r]);
  }

  /** The voter has taken nothing of the term it now votes in: it would have heard of a
      leader, or be the leader itself. */
  lemma NoRivalTaken(c: Membership, s: Cluster, s': Cluster, f: Effect, v: NodeId, q: nat, e: nat)
    requires WF(c, s) && WF(c, s') && Has(c, s, s', f) && Grows(s, s')
    requires Base(c, s) && ProposerInv(s) && VotesInv(s') && NoLateGrant(s')
    requires q < |s.proposals| && e < |s.elections| && Took(s, v, q) && Granted(s', |s.events|, v, e)
    ensures s.proposals[q].term < s.elections[e].term
  {
    FreshVoteState(c, s, s', f, v, e);
    TookTerm(c, s, v, q);
    var t, z := s.elections[e].term, |s.events|;
    assert s'.elections[e] == s.elections[e];
    if s.proposals[q].term == t {
      if s.proposals[q].node == v {
        ProposerVoted(c, s, s', v, t, q, e);
      } else {
        var x :| AckedAt(s, x, v, q);
        HeardStays(s, s', x, v, t);
      }
    }
  }

  /** A proposer of term t voted for itself in t, so a grant of t to another comes late. */
  lemma ProposerVoted(c: Membership, s: Cluster, s': Cluster, v: NodeId, t: int, q: nat, e: nat)
    requires WF(c, s) && Grows(s, s') && StartedInv(s) && ProposerInv(s) && VotesInv(s')
    requires q < |s.proposals| && s.proposals[q].node == v && s.proposals[q].term == t
    requires e < |s.elections| && s.elections[e].term == t && s.elections[e].node != v
    requires Granted(s', |s.events|, v, e)
    ensures !NoLateGrant(s')
  {
    var z := |s.events|;
    assert Entitled(s, v, t, s.proposals[q].prefix);
    var w :| WonWith(s, w, v, t, s.proposals[q].prefix);
    var d := s.events[w].e;
    assert Started(d) in s.events;
    var x :| 0 <= x < |s.events| && s.events[x] == Started(d);
    assert s'.elections[d] == s.elections[d] && s'.elections[e] == s.elections[e];
    assert VoteAt(s', x, v, t, v) && VoteAt(s', z, v, t, s.elections[e].node);
    assert HeardBetween(s', x, z, v, t);
    var y :| x < y < z && HeardAt(s', y, v, t);
  }

  lemma OneInherits(c: Membership, s: Cluster, s': Cluster, f: Effect, v: NodeId, p: nat, e: nat)
    requires WF(c, s) && WF(c, s') && Has(c, s, s', f) && Grows(s, s')
    requires Base(c, s) && LedgerInv(c, s) && KeepInv(s) && InheritInv(s) && ProposerInv(s) && Base(c, s')
    requires Bridges(s', v, p, e)
    ensures BridgeEnds(s', p, e) && Inherits(s', p, e)
  {
    if e >= |s.elections| {
      NewElectionOnly(c, s, s', f);
      hide *;
      OneInheritsNew(c, s, s', f, v, p, e);
    } else if p >= |s.proposals| {
      NewProposalIsLate(c, s, s', f, v, p, e);
    } else {
      hide *;
      OneInheritsOld(c, s, s', f, v, p, e);
    }
  }

  lemma NewElectionOnly(c: Membership, s: Cluster, s': Cluster, f: Effect)
    requires WF(c, s) && Has(c, s, s', f) && |s'.elections| > |s.elections|
    ensures f.NewElection? && |s'.elections| == |s.elections| + 1
  {
  }

  lemma OneInheritsNew(c: Membership, s: Cluster, s': Cluster, f: Effect, v: NodeId, p: nat, e: nat)
    requires WF(c, s) && WF(c, s') && Has(c, s, s', f) && Grows(s, s') && Base(c, s) && KeepInv(s)
    requires Bridges(s', v, p, e) && f.NewElection? && e == |s.elections|
    ensures Inherits(s', p, e)
  {
    hide WF, KeepInv, Bridges, Inherits, NewElectionEffect;
    CandidateInherits(c, s, s', f.v, v, p);
  }

  /** What is proposed now is of the proposer's present term; it backs no later candidate. */
  lemma NewProposalIsLate(c: Membership, s: Cluster, s': Cluster, f: Effect, v: NodeId, p: nat, e: nat)
    requires WF(c, s) && WF(c, s') && Has(c, s, s', f) && Grows(s, s') && Base(c, s')
    requires |s.proposals| <= p < |s'.proposals| && e < |s'.elections| && Took(s', v, p) && Backs(s', v, e)
    ensures s'.elections[e].term <= s'.proposals[p].term
  {
    BacksTerm(c, s', v, e);
    if s'.proposals[p].node != v {
      var x :| AckedAt(s', x, v, p);
      if x < |s.events| { OldAck(c, s, s', x, v, p); } else { FreshAck(c, s, s', f, x, v, p); }
    }
  }

  lemma OneInheritsOld(c: Membership, s: Cluster, s': Cluster, f: Effect, v: NodeId, p: nat, e: nat)
    requires WF(c, s) && WF(c, s') && Has(c, s, s', f) && Grows(s, s')
    requires Base(c, s) && LedgerInv(c, s) && KeepInv(s) && InheritInv(s) && ProposerInv(s) && Base(c, s')
    requires Bridges(s', v, p, e) && p < |s.proposals| && e < |s.elections|
    ensures Inherits(s', p, e)
  {
    assert s'.proposals[p] == s.proposals[p] && s'.elections[e] == s.elections[e];
    TookBefore(c, s, s', f, v, p);
    BacksBefore(c, s, s', f, v, e);
    if Took(s, v, p) {
      hide WF, Has, LedgerInv, KeepInv, ProposerInv, Took, Backs, Inherits, ShapeInv, BackedInv, VotesInv,
           ReplyInv, StartedInv, NoLateGrant, TimelyPromotion;
      if Backs(s, v, e) { assert Bridges(s, v, p, e); }
      else { VoterInherits(c, s, s', f, v, p, e); }
      InheritsStays(s, s', p, e);
    } else {
      hide WF, Has, LedgerInv, KeepInv, InheritInv, ProposerInv, Took, Backs, Inherits, Base;
      FreshTakerIsLate(c, s, s', f, v, p, e);
    }
  }

  /** A node that backs a later candidate refuses the proposal as stale. */
  lemma FreshTakerIsLate(c: Membership, s: Cluster, s': Cluster, f: Effect, v: NodeId, p: nat, e: nat)
    requires WF(c, s) && WF(c, s') && Has(c, s, s', f) && Base(c, s')
    requires p < |s.proposals| && e < |s'.elections| && AckedAt(s', |s.events|, v, p) && Backs(s', v, e)
    ensures s'.elections[e].term <= s.proposals[p].term
  {
    FreshAck(c, s, s', f, |s.events|, v, p);
    hide WF, Has, ShapeInv, BackedInv;
    BacksTerm(c, s', v, e);
  }

  lemma EffectKeepsInherit(c: Membership, s: Cluster, s': Cluster, f: Effect)
    requires WF(c, s) && WF(c, s') && Has(c, s, s', f) && Grows(s, s')
    requires Base(c, s) && LedgerInv(c, s) && KeepInv(s) && InheritInv(s) && ProposerInv(s) && Base(c, s')
    ensures InheritInv(s')
  {
    hide WF, Has, Grows, Base, LedgerInv, KeepInv, ProposerInv, Inherits, Bridges;
    forall v, p: nat, e: nat | Bridges(s', v, p, e) ensures BridgeEnds(s', p, e) && Inherits(s', p, e) {
      OneInherits(c, s, s', f, v, p, e);
    }
  }

  lemma EffectKeepsGood(c: Membership, s: Cluster, s': Cluster, f: Effect)
    requires WF(c, s) && WF(c, s') && Has(c, s, s', f) && Grows(s, s') && Good(c, s) && Base(c, s')
    ensures Good(c, s')
  {
    hide WF, Has, Grows, ShapeInv, LedgerInv, KeepInv, ProposerInv, InheritInv, CandidateKeeps, BackedInv, OneProposer;
    EffectKeepsProposers(c, s, s', f);
    ProposersAreOne(c, s');
    EffectKeepsLedger(c, s, s', f);
    EffectKeepsCandidates(c, s, s', f);
    EffectKeepsKeep(c, s, s', f);
    EffectKeepsInherit(c, s, s', f);
  }

  lemma InitHasNoReplies(c: Membership, s: Cluster)
    requires Init(c, s)
    ensures ReplyInv(s)
  {
  }

  lemma {:induction false} RunKeepsReplies(c: Membership, tr: seq<Cluster>, k: nat)
    requires Run(c, tr) && k < |tr|
    ensures ReplyInv(tr[k])
  {
    hide *;
    if k == 0 {
      RunStarts(c, tr);
      InitHasNoReplies(c, tr[0]);
    } else {
      RunKeepsReplies(c, tr, k - 1);
      RunKeepsShape(c, tr, k - 1);
      var f := RunEffect(c, tr, k - 1);
      EffectKeepsReplies(c, tr[k - 1], tr[k], f);
    }
  }

  lemma RunBase(c: Membership, tr: seq<Cluster>, k: nat)
    requires Run(c, tr) && k < |tr| && WellTimed(tr[k])
    ensures Base(c, tr[k])
  {
    hide Run, ReplyInv, WF, ShapeInv, VotesInv, StartedInv, BackedInv, WellTimed;
    RunKeepsReplies(c, tr, k);
    RunKeepsShape(c, tr, k);
    RunKeepsVotes(c, tr, k);
    RunKeepsStarted(c, tr, k);
    RunKeepsBacked(c, tr, k);
  }

  lemma InitIsGood(c: Membership, s: Cluster)
    requires Init(c, s) && Base(c, s)
    ensures Good(c, s)
  {
  }

  lemma {:induction false} RunKeepsGood(c: Membership, tr: seq<Cluster>, k: nat)
    requires Run(c, tr) && k < |tr| && WellTimed(tr[k])
    ensures Good(c, tr[k])
  {
    hide *;
    RunBase(c, tr, k);
    if k == 0 {
      RunStarts(c, tr);
      InitIsGood(c, tr[0]);
    } else {
      var f := RunEffect(c, tr, k - 1);
      WellTimedBefore(c, tr[k - 1], tr[k]);
      RunKeepsGood(c, tr, k - 1);
      EffectKeepsGood(c, tr[k - 1], tr[k], f);
    }
  }

  // ----- the theorems -----

  /** In a well-timed run each term has at most one proposer, so Log Matching holds there. */
  lemma OneProposerPerTerm(c: Membership, tr: seq<Cluster>, k: nat)
    requires Run(c, tr) && k < |tr| && WellTimed(tr[k])
    ensures OneProposer(tr[k])
  {
    RunKeepsGood(c, tr, k);
    hide Run, Base, LedgerInv, ProposerInv, CandidateKeeps, KeepInv, InheritInv, OneProposer;
    ProposersAreOne(c, tr[k]);
  }

  /** A quorum of nodes proposed or acknowledged p. */
  ghost predicate QuorumTook(c: Membership, s: Cluster, p: nat, q: set<NodeId>)
    requires p < |s.proposals|
  {
    Quorum(c, q) && forall u :: u in q ==> Took(s, u, p)
  }

  /** By induction on the later term: its winner shares a voter with p's quorum. */
  lemma {:induction false} LaterProposalsExtend(c: Membership, s: Cluster, p: nat, quorum: set<NodeId>, q: nat, t: nat)
    requires Good(c, s) && p < |s.proposals| && QuorumTook(c, s, p, quorum)
    requires q < |s.proposals| && s.proposals[p].term < s.proposals[q].term == t
    ensures s.proposals[p].prefix <= s.proposals[q].prefix
    decreases t
  {
    var v := s.proposals[q].node;
    assert Entitled(s, v, t, s.proposals[q].prefix);
    var x :| WonWith(s, x, v, t, s.proposals[q].prefix);
    var e := s.events[x].e;
    assert BackedAt(c, s, x);
    var u := QuorumsMeet(c, quorum, s.events[x].voters);
    assert Took(s, u, p) && Backs(s, u, e);
    assert Bridges(s, u, p, e);
    assert Inherits(s, p, e);
    hide Good, QuorumTook, Took, Backs, WonWith;
    if !(s.proposals[p].prefix <= s.elections[e].log) {
      var r: nat :| Between(s, p, r, e);
      LaterProposalIsPositive(c, s, r);
      LaterProposalsExtend(c, s, p, quorum, r, s.proposals[r].term);
    }
  }

  lemma LaterProposalIsPositive(c: Membership, s: Cluster, r: nat)
    requires Good(c, s) && r < |s.proposals|
    ensures s.proposals[r].term >= 0
  {
    hide ProposerInv, LedgerInv, KeepInv, InheritInv, CandidateKeeps;
    assert ProposalShape(s, s.proposals[r]);
  }

  /** Leader Completeness, for every well-timed run: once a majority has taken the entry
      proposed by p, every node that proposes in a later term holds that entry, and
      everything before it, at the same positions. */
  lemma LeaderCompleteness(c: Membership, tr: seq<Cluster>, k: nat, p: nat, quorum: set<NodeId>, q: nat)
    requires Run(c, tr) && k < |tr| && WellTimed(tr[k])
    requires p < |tr[k].proposals| && q < |tr[k].proposals| && QuorumTook(c, tr[k], p, quorum)
    requires tr[k].proposals[p].term < tr[k].proposals[q].term
    ensures tr[k].proposals[p].prefix <= tr[k].proposals[q].prefix
  {
    hide Good, WellTimed, QuorumTook;
    RunKeepsGood(c, tr, k);
    LaterProposalIsPositive(c, tr[k], q);
    LaterProposalsExtend(c, tr[k], p, quorum, q, tr[k].proposals[q].term);
  }

  lemma BridgeInherits(c: Membership, s: Cluster, u: NodeId, p: nat, e: nat)
    requires InheritInv(s) && Bridges(s, u, p, e)
    ensures Inherits(s, p, e)
  {
  }

  /** The same for a node that has become leader of a later term and not yet proposed. */
  lemma LeadersHoldTaken(c: Membership, tr: seq<Cluster>, k: nat, p: nat, quorum: set<NodeId>, v: NodeId)
    requires Run(c, tr) && k < |tr| && WellTimed(tr[k])
    requires p < |tr[k].proposals| && QuorumTook(c, tr[k], p, quorum)
    requires v in tr[k].nodes && tr[k].nodes[v].role == Leader && tr[k].proposals[p].term < tr[k].nodes[v].term
    ensures tr[k].proposals[p].prefix <= tr[k].nodes[v].log
  {
    var s := tr[k];
    RunKeepsGood(c, tr, k);
    hide Run, WellTimed, InheritInv, KeepInv, LedgerInv, CandidateKeeps;
    assert Entitled(s, v, s.nodes[v].term, s.nodes[v].log);
    var x :| WonWith(s, x, v, s.nodes[v].term, s.nodes[v].log);
    var e := s.events[x].e;
    assert BackedAt(c, s, x);
    var u := QuorumsMeet(c, quorum, s.events[x].voters);
    assert Took(s, u, p) && Backs(s, u, e);
    assert Bridges(s, u, p, e);
    BridgeInherits(c, s, u, p, e);
    hide Good, QuorumTook, Took, Backs, WonWith;
    if !(s.proposals[p].prefix <= s.elections[e].log) {
      var r: nat :| Between(s, p, r, e);
      LaterProposalIsPositive(c, s, r);
      LaterProposalsExtend(c, s, p, quorum, r, s.proposals[r].term);
    }
  }

  lemma CommitMeansTaken(c: Membership, s: Cluster, x: int, p: nat, quorum: set<NodeId>)
    requires WF(c, s) && BackedInv(c, s) && 0 <= x < |s.events| && s.events[x] == Committed(p, quorum)
    ensures p < |s.proposals| && QuorumTook(c, s, p, quorum)
  {
    assert BackedAt(c, s, x);
    assert EventOk(s, s.events[x]);
  }

  /** Commits form a chain, for every well-timed run: of any two proposed prefixes whose
      Propose logged commit_majority, one is a prefix of the other. */
  lemma CommitsFormAChain(c: Membership, tr: seq<Cluster>, k: nat,
                          x: int, p: nat, qp: set<NodeId>, y: int, q: nat, qq: set<NodeId>)
    requires Run(c, tr) && k < |tr| && WellTimed(tr[k])
    requires 0 <= x < |tr[k].events| && tr[k].events[x] == Committed(p, qp)
    requires 0 <= y < |tr[k].events| && tr[k].events[y] == Committed(q, qq)
    ensures p < |tr[k].proposals| && q < |tr[k].proposals|
    ensures Comparable(tr[k].proposals[p].prefix, tr[k].proposals[q].prefix)
  {
    var s := tr[k];
    RunKeepsGood(c, tr, k);
    hide Run, WellTimed, KeepInv, InheritInv, ProposerInv, CandidateKeeps, ShapeInv, BackedInv, WF, QuorumTook;
    CommitMeansTaken(c, s, x, p, qp);
    CommitMeansTaken(c, s, y, q, qq);
    if s.proposals[p].term < s.proposals[q].term {
      LeaderCompleteness(c, tr, k, p, qp, q);
    } else if s.proposals[q].term < s.proposals[p].term {
      LeaderCompleteness(c, tr, k, q, qq, p);
    }
  }
}
