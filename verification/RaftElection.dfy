// Elections: what two winners of one term imply, and why a well-timed run has no two.
module RaftElection {
  import opened RaftTypes
  import opened RaftHandlers
  import opened RaftCluster
  import opened RaftEffects
  import opened RaftVotes
  import opened RaftQuorums

  /** Event x is `node` winning term t with the votes of q. */
  ghost predicate WonAt(s: Cluster, x: int, node: NodeId, t: int, q: set<NodeId>) {
    && 0 <= x < |s.events| && s.events[x].Elected? && s.events[x].e < |s.elections|
    && s.events[x].voters == q
    && s.elections[s.events[x].e].node == node && s.elections[s.events[x].e].term == t
  }

  /** Voter u voted in term t for somebody at x, took an AppendEntries of term t at y, and
      then granted its vote in the same term to somebody else at z. */
  ghost predicate VotedTwice(s: Cluster, u: NodeId, t: int, x: int, y: int, z: int, who: NodeId, other: NodeId) {
    && x < y < z && who != other
    && VoteAt(s, x, u, t, who) && HeardAt(s, y, u, t) && VoteAt(s, z, u, t, other)
    && s.events[z].Answered?
  }

  ghost predicate StartedInv(s: Cluster) {
    forall e :: 0 <= e < |s.elections| ==> Started(e) in s.events
  }

  lemma EffectKeepsStarted(c: Membership, s: Cluster, s': Cluster, f: Effect)
    requires WF(c, s) && Has(c, s, s', f) && StartedInv(s)
    ensures StartedInv(s')
  {
  }

  lemma {:induction false} RunKeepsStarted(c: Membership, tr: seq<Cluster>, k: nat)
    requires Run(c, tr) && k < |tr|
    ensures StartedInv(tr[k])
  {
    if k > 0 {
      hide StartedInv, Run, WF, Has;
      RunKeepsStarted(c, tr, k - 1);
      RunMoves(c, tr, k - 1);
      var f :| Has(c, tr[k - 1], tr[k], f);
      EffectKeepsStarted(c, tr[k - 1], tr[k], f);
    }
  }

  /** Every member of a winner's quorum did vote for it. */
  lemma WinnerHadVote(c: Membership, s: Cluster, x: int, node: NodeId, t: int, q: set<NodeId>, u: NodeId)
    returns (y: int)
    requires WF(c, s) && BackedInv(c, s) && StartedInv(s) && WonAt(s, x, node, t, q) && u in q
    ensures VoteAt(s, y, u, t, node)
  {
    var e := s.events[x].e;
    assert BackedAt(c, s, x);
    if u == node {
      y :| 0 <= y < |s.events| && s.events[y] == Started(e);
    } else {
      y :| y < x && Granted(s, y, u, e);
    }
  }

  lemma TwoWinners(c: Membership, s: Cluster, x1: int, a: NodeId, q1: set<NodeId>,
                   x2: int, b: NodeId, q2: set<NodeId>, t: int)
    requires WF(c, s) && VotesInv(s) && BackedInv(c, s) && StartedInv(s)
    requires WonAt(s, x1, a, t, q1) && WonAt(s, x2, b, t, q2) && a != b
    ensures exists u, x, y, z, who, other ::
              u in q1 && u in q2 && {who, other} == {a, b} && VotedTwice(s, u, t, x, y, z, who, other)
  {
    assert BackedAt(c, s, x1) && BackedAt(c, s, x2);
    var u := QuorumsMeet(c, q1, q2);
    var i := WinnerHadVote(c, s, x1, a, t, q1, u);
    var j := WinnerHadVote(c, s, x2, b, t, q2, u);
    VoteIsForOne(s, i, u, t, a, b);
    var x, z, who, other := i, j, a, b;
    if j < i { x, z, who, other := j, i, b, a; }
    assert HeardBetween(s, x, z, u, t);
    var y :| x < y < z && HeardAt(s, y, u, t);
    assert VotedTwice(s, u, t, x, y, z, who, other);
    assert {who, other} == {a, b};
  }

  lemma VoteIsForOne(s: Cluster, x: int, u: NodeId, t: int, a: NodeId, b: NodeId)
    requires VoteAt(s, x, u, t, a) && a != b
    ensures !VoteAt(s, x, u, t, b)
  {
  }

  /** Exact election guarantee, for every run: two nodes that win the same term share a
      voter that had heard from a leader of that term before its second grant. */
  lemma ElectionGuarantee(c: Membership, tr: seq<Cluster>, k: nat, x1: int, a: NodeId, q1: set<NodeId>,
                          x2: int, b: NodeId, q2: set<NodeId>, t: int)
    requires Run(c, tr) && k < |tr|
    requires WonAt(tr[k], x1, a, t, q1) && WonAt(tr[k], x2, b, t, q2) && a != b
    ensures exists u, x, y, z, who, other ::
              u in q1 && u in q2 && {who, other} == {a, b} && VotedTwice(tr[k], u, t, x, y, z, who, other)
  {
    RunKeepsVotes(c, tr, k);
    RunKeepsBacked(c, tr, k);
    RunKeepsStarted(c, tr, k);
    hide *;
    TwoWinners(c, tr[k], x1, a, q1, x2, b, q2, t);
  }

  /** Hence a term nobody has heard a leader of has at most one winner. */
  lemma SilentTermHasOneWinner(c: Membership, tr: seq<Cluster>, k: nat, x1: int, a: NodeId, q1: set<NodeId>,
                               x2: int, b: NodeId, q2: set<NodeId>, t: int)
    requires Run(c, tr) && k < |tr|
    requires WonAt(tr[k], x1, a, t, q1) && WonAt(tr[k], x2, b, t, q2)
    requires forall y, u :: !HeardAt(tr[k], y, u, t)
    ensures a == b
  {
    if a != b {
      hide WonAt, HeardAt, Run, VoteAt;
      ElectionGuarantee(c, tr, k, x1, a, q1, x2, b, q2, t);
    }
  }

  /** (a) No node grants a vote of term t after taking an AppendEntries of term t. */
  ghost predicate NoLateGrant(s: Cluster) {
    forall y, z, u, e: nat :: y < z && e < |s.elections| && Granted(s, z, u, e) ==> !HeardAt(s, y, u, s.elections[e].term)
  }

  /** (b) A node that promotes itself is still in the term it campaigned for. */
  ghost predicate TimelyPromotion(s: Cluster) {
    forall x :: 0 <= x < |s.events| && s.events[x].Elected? && s.events[x].e < |s.elections| ==>
      s.events[x].nodeTerm == s.elections[s.events[x].e].term
  }

  /** A property of what has happened so far; once lost it is lost for good. */
  ghost predicate WellTimed(s: Cluster) {
    NoLateGrant(s) && TimelyPromotion(s)
  }

  lemma WellTimedBefore(c: Membership, s: Cluster, s': Cluster)
    requires WF(c, s) && Grows(s, s') && WellTimed(s')
    ensures WellTimed(s)
  {
    forall y, z, u, e: nat | y < z && e < |s.elections| && Granted(s, z, u, e)
      ensures !HeardAt(s, y, u, s.elections[e].term)
    {
      assert Granted(s', z, u, e);
      if HeardAt(s, y, u, s.elections[e].term) {
        HeardStays(s, s', y, u, s.elections[e].term);
      }
    }
    forall x | 0 <= x < |s.events| && s.events[x].Elected? && s.events[x].e < |s.elections|
      ensures s.events[x].nodeTerm == s.elections[s.events[x].e].term
    {
      assert s'.events[x] == s.events[x];
    }
  }

  lemma TwoWinnersGrantLate(c: Membership, s: Cluster, x1: int, a: NodeId, q1: set<NodeId>,
                            x2: int, b: NodeId, q2: set<NodeId>, t: int)
    requires WF(c, s) && VotesInv(s) && BackedInv(c, s) && StartedInv(s) && a != b
    requires WonAt(s, x1, a, t, q1) && WonAt(s, x2, b, t, q2)
    ensures !NoLateGrant(s)
  {
    hide WF, VotesInv, BackedInv, StartedInv, WonAt, HeardAt, NoLateGrant;
    TwoWinners(c, s, x1, a, q1, x2, b, q2, t);
    var u, x, y, z, who, other :|
      u in q1 && u in q2 && {who, other} == {a, b} && VotedTwice(s, u, t, x, y, z, who, other);
    TwiceIsLate(s, u, t, x, y, z, who, other);
  }

  lemma TwiceIsLate(s: Cluster, u: NodeId, t: int, x: int, y: int, z: int, who: NodeId, other: NodeId)
    requires VotedTwice(s, u, t, x, y, z, who, other)
    ensures !NoLateGrant(s)
  {
    var e: nat :| e < |s.elections| && s.elections[e].term == t && s.elections[e].node == other
                  && ((s.events[z] == Started(e) && other == u) || Granted(s, z, u, e));
    assert Granted(s, z, u, e) && HeardAt(s, y, u, s.elections[e].term);
  }

  lemma OneWinner(c: Membership, s: Cluster, x1: int, a: NodeId, q1: set<NodeId>,
                  x2: int, b: NodeId, q2: set<NodeId>, t: int)
    requires WF(c, s) && VotesInv(s) && BackedInv(c, s) && StartedInv(s) && NoLateGrant(s)
    requires WonAt(s, x1, a, t, q1) && WonAt(s, x2, b, t, q2)
    ensures a == b
  {
    hide WF, VotesInv, BackedInv, StartedInv, WonAt, NoLateGrant;
    if a != b { TwoWinnersGrantLate(c, s, x1, a, q1, x2, b, q2, t); }
  }

  /** A leader won the term it is in. */
  ghost predicate LeaderInv(s: Cluster) {
    forall v :: v in s.nodes && s.nodes[v].role == Leader ==>
      exists x, q :: WonAt(s, x, v, s.nodes[v].term, q)
  }

  lemma EffectKeepsLeader(c: Membership, s: Cluster, s': Cluster, f: Effect)
    requires WF(c, s) && WF(c, s') && Has(c, s, s', f) && Grows(s, s') && LeaderInv(s) && TimelyPromotion(s')
    ensures LeaderInv(s')
  {
    forall v | v in s'.nodes && s'.nodes[v].role == Leader
      ensures exists x, q :: WonAt(s', x, v, s'.nodes[v].term, q)
    {
      if f.Promotion? && f.v == v {
        assert s'.events[|s.events|] == Elected(f.e, s.nodes[v].term, f.voters);
        assert WonAt(s', |s.events|, v, s'.nodes[v].term, f.voters);
      } else {
        LeaderBefore(c, s, s', f, v);
        var x, q :| WonAt(s, x, v, s.nodes[v].term, q);
        assert WonAt(s', x, v, s'.nodes[v].term, q);
      }
    }
  }

  lemma LeaderBefore(c: Membership, s: Cluster, s': Cluster, f: Effect, v: NodeId)
    requires WF(c, s) && WF(c, s') && Has(c, s, s', f) && v in s'.nodes && s'.nodes[v].role == Leader
    requires !(f.Promotion? && f.v == v)
    ensures v in s.nodes && s.nodes[v].role == Leader && s.nodes[v].term == s'.nodes[v].term
  {
  }

  lemma {:induction false} RunKeepsLeader(c: Membership, tr: seq<Cluster>, k: nat)
    requires Run(c, tr) && k < |tr| && WellTimed(tr[k])
    ensures LeaderInv(tr[k])
  {
    if k > 0 {
      hide LeaderInv, Run, WF, Has, NoLateGrant, TimelyPromotion;
      RunMoves(c, tr, k - 1);
      WellTimedBefore(c, tr[k - 1], tr[k]);
      RunKeepsLeader(c, tr, k - 1);
      var f :| Has(c, tr[k - 1], tr[k], f);
      EffectKeepsLeader(c, tr[k - 1], tr[k], f);
    }
  }

  lemma RunGrows(c: Membership, tr: seq<Cluster>, i: nat, j: nat)
    requires Run(c, tr) && i <= j < |tr|
    ensures Grows(tr[i], tr[j])
    decreases j - i
  {
    if i < j {
      hide Run, WF;
      RunGrows(c, tr, i, j - 1);
      RunMoves(c, tr, j - 1);
    }
  }

  lemma {:induction false} RunWF(c: Membership, tr: seq<Cluster>, k: nat)
    requires Run(c, tr) && k < |tr|
    ensures WF(c, tr[k])
  {
    if k > 0 { RunMoves(c, tr, k - 1); }
  }

  /** In a well-timed run at most one node ever has role leader in a given term, even at
      different moments. */
  lemma OneLeaderPerTerm(c: Membership, tr: seq<Cluster>, k: nat, i: nat, j: nat, a: NodeId, b: NodeId)
    requires Run(c, tr) && i <= k < |tr| && j <= k && WellTimed(tr[k])
    requires a in tr[i].nodes && b in tr[j].nodes
    requires tr[i].nodes[a].role == Leader && tr[j].nodes[b].role == Leader
    requires tr[i].nodes[a].term == tr[j].nodes[b].term
    ensures a == b
  {
    var t := tr[i].nodes[a].term;
    RunWF(c, tr, i); RunWF(c, tr, j);
    RunGrows(c, tr, i, k); RunGrows(c, tr, j, k);
    WellTimedBefore(c, tr[i], tr[k]); WellTimedBefore(c, tr[j], tr[k]);
    hide Run, WF, NoLateGrant, TimelyPromotion, Init;
    RunKeepsLeader(c, tr, i); RunKeepsLeader(c, tr, j);
    var x1, q1 :| WonAt(tr[i], x1, a, t, q1);
    var x2, q2 :| WonAt(tr[j], x2, b, t, q2);
    assert WonAt(tr[k], x1, a, t, q1) && WonAt(tr[k], x2, b, t, q2);
    RunKeepsVotes(c, tr, k);
    RunKeepsBacked(c, tr, k);
    RunKeepsStarted(c, tr, k);
    hide WonAt, VotesInv, BackedInv, StartedInv;
    OneWinner(c, tr[k], x1, a, q1, x2, b, q2, t);
  }
}
