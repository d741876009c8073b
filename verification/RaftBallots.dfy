// When a vote is given: exactly, for one request, and over whole runs. A node refuses a
// candidate only because it is stale, behind, or second.
module RaftBallots {
  import opened RaftTypes
  import opened RaftHandlers
  import opened RaftCluster
  import opened RaftEffects
  import opened RaftShape
  import opened RaftVotes

  // ----- one request -----

  /** The comparison of (last term, last index) pairs is a total preorder. */
  lemma UpToDateIsTotalPreorder(t1: int, i1: int, t2: int, i2: int, t3: int, i3: int)
    ensures CandidateUpToDate(t1, i1, t1, i1)
    ensures CandidateUpToDate(t1, i1, t2, i2) || CandidateUpToDate(t2, i2, t1, i1)
    ensures CandidateUpToDate(t1, i1, t2, i2) && CandidateUpToDate(t2, i2, t1, i1) ==> t1 == t2 && i1 == i2
    ensures CandidateUpToDate(t1, i1, t2, i2) && CandidateUpToDate(t2, i2, t3, i3) ==> CandidateUpToDate(t1, i1, t3, i3)
  {
  }

  /** A longer log never loses a vote that the shorter one gets; in particular a candidate
      that holds all of the voter's log is never refused for its log. */
  lemma MoreLogKeepsTheVote(log: Log, more: Log, t: int, localTerm: int, localIndex: int)
    requires Shape(log + more, t)
    ensures CandidateUpToDate(LastTerm(log), LastIndex(log), localTerm, localIndex) ==>
              CandidateUpToDate(LastTerm(log + more), LastIndex(log + more), localTerm, localIndex)
    ensures CandidateUpToDate(LastTerm(log + more), LastIndex(log + more), LastTerm(log), LastIndex(log))
  {
    if log != [] {
      assert (log + more)[|log| - 1] == log[|log| - 1];
    }
  }

  /** What a vote request does to a voter, in full. */
  lemma VoteOutcome(n: NodeState, req: Message, now: int)
    requires req.RequestVote?
    ensures var (m, r) := HandleVote(n, req, now);
            var lastTerm := if n.log == [] then 0 else n.log[|n.log| - 1].term;
            var lastIndex := if n.log == [] then 0 else n.log[|n.log| - 1].index;
            && r.VoteResponse? && r.term == m.term
            && (r.voteGranted <==>
                  && n.term <= req.term
                  && (n.term < req.term || n.votedFor == "" || n.votedFor == req.candidateID)
                  && (lastTerm < req.lastLogTerm || (lastTerm == req.lastLogTerm && lastIndex <= req.lastLogIndex)))
            && (r.rejectReason == if req.term < n.term then "stale term" else "")
            && (req.term < n.term ==> m == n)
            && (req.term >= n.term ==> m.term == req.term)
            && (m.role == if req.term > n.term then Follower else n.role)
            && (r.voteGranted ==> m.votedFor == req.candidateID && m.lastHeartbeat == now)
            && (!r.voteGranted ==>
                  && m.votedFor == (if req.term > n.term then "" else n.votedFor)
                  && m.lastHeartbeat == n.lastHeartbeat)
            && m.leaderID == n.leaderID && m.log == n.log && m.commitIndex == n.commitIndex
  {
  }

  /** A node that has just fallen back into a higher term is free again: it grants the first
      candidate of that term, or a later one, that is not behind it. */
  lemma FallingBackFreesTheVote(n: NodeState, observed: int, req: Message, now: int, later: int)
    requires req.RequestVote? && n.term < observed <= req.term
    requires LastTerm(n.log) < req.lastLogTerm
             || (LastTerm(n.log) == req.lastLogTerm && LastIndex(n.log) <= req.lastLogIndex)
    ensures StepDown(n, observed, now).1
    ensures HandleVote(StepDown(n, observed, now).0, req, later).1 == VoteResponse(req.term, true, "")
    ensures HandleVote(BumpTerm(n, observed), req, later).1 == VoteResponse(req.term, true, "")
  {
  }

  // ----- whole runs -----

  /** Event x is the vote of u for `who` in term t, and u has not heard from a leader of t since. */
  ghost predicate VoteStands(s: Cluster, x: int, u: NodeId, t: int, who: NodeId) {
    VoteAt(s, x, u, t, who) && forall y :: y > x ==> !HeardAt(s, y, u, t)
  }

  /** A remembered vote was cast in the node's present term, by its candidacy or by a grant,
      and still stands. */
  ghost predicate VotedInv(s: Cluster) {
    forall u :: u in s.nodes && s.nodes[u].votedFor != "" ==>
      exists x :: VoteStands(s, x, u, s.nodes[u].term, s.nodes[u].votedFor)
  }

  lemma HeardBefore(c: Membership, s: Cluster, s': Cluster, y: int, u: NodeId, t: int)
    requires WF(c, s) && Grows(s, s') && HeardAt(s', y, u, t) && y < |s.events|
    ensures HeardAt(s, y, u, t)
  {
    assert s'.events[y] == s.events[y] && EventOk(s, s.events[y]);
    var r := s.events[y].rpc;
    assert s'.sent[r] == s.sent[r] && RpcOk(c, s, s.sent[r]);
  }

  /** A node that still remembers its vote has not just heard from a leader. */
  lemma VoteStillStands(c: Membership, s: Cluster, s': Cluster, f: Effect, x: int, u: NodeId)
    requires WF(c, s) && WF(c, s') && Has(c, s, s', f) && Grows(s, s')
    requires u in s.nodes && u in s'.nodes && s.nodes[u].votedFor != ""
    requires s'.nodes[u].term == s.nodes[u].term && s'.nodes[u].votedFor == s.nodes[u].votedFor
    requires VoteStands(s, x, u, s.nodes[u].term, s.nodes[u].votedFor)
    ensures VoteStands(s', x, u, s.nodes[u].term, s.nodes[u].votedFor)
  {
    var t := s.nodes[u].term;
    VoteStays(c, s, s', x, u, t, s.nodes[u].votedFor);
    forall y | y > x ensures !HeardAt(s', y, u, t) {
      if HeardAt(s', y, u, t) {
        if y < |s.events| { HeardBefore(c, s, s', y, u, t); } else { HearingClearsTheVote(c, s, s', f, y, u, t); }
      }
    }
  }

  lemma HearingClearsTheVote(c: Membership, s: Cluster, s': Cluster, f: Effect, y: int, u: NodeId, t: int)
    requires WF(c, s) && WF(c, s') && Has(c, s, s', f) && Grows(s, s')
    requires HeardAt(s', y, u, t) && y >= |s.events|
    ensures u in s'.nodes && s'.nodes[u].votedFor == ""
  {
    assert f.Delivery? && y == |s.events|;
    assert RpcOk(c, s, s.sent[f.r]);
  }

  lemma NewVoteIsCast(c: Membership, s: Cluster, s': Cluster, f: Effect, u: NodeId)
    requires WF(c, s) && WF(c, s') && Has(c, s, s', f) && Grows(s, s')
    requires u in s.nodes && u in s'.nodes && s'.nodes[u].votedFor != ""
    requires s'.nodes[u].term != s.nodes[u].term || s'.nodes[u].votedFor != s.nodes[u].votedFor
    ensures |s'.events| == |s.events| + 1
    ensures VoteStands(s', |s.events|, u, s'.nodes[u].term, s'.nodes[u].votedFor)
  {
    if f.Delivery? {
      var op := s.sent[f.r].op;
      assert RpcOk(c, s, s.sent[f.r]) && op.Vote?;
      VoteOutcome(s.nodes[u], Request(s, op), f.now);
      assert s'.elections[op.e] == s.elections[op.e];
      assert Granted(s', |s.events|, u, op.e);
    } else {
      var e := |s.elections|;
      assert s'.elections[e].node == u && s'.events[|s.events|] == Started(e);
    }
  }

  lemma EffectKeepsVoted(c: Membership, s: Cluster, s': Cluster, f: Effect)
    requires WF(c, s) && WF(c, s') && Has(c, s, s', f) && Grows(s, s') && VotedInv(s)
    ensures VotedInv(s')
  {
    hide Has, VoteStands;
    forall u | u in s'.nodes && s'.nodes[u].votedFor != ""
      ensures exists x :: VoteStands(s', x, u, s'.nodes[u].term, s'.nodes[u].votedFor)
    {
      if s'.nodes[u].term == s.nodes[u].term && s'.nodes[u].votedFor == s.nodes[u].votedFor {
        var x :| VoteStands(s, x, u, s.nodes[u].term, s.nodes[u].votedFor);
        VoteStillStands(c, s, s', f, x, u);
      } else {
        NewVoteIsCast(c, s, s', f, u);
      }
    }
  }

  lemma InitHasNoVotes(c: Membership, s: Cluster)
    requires Init(c, s)
    ensures VotedInv(s)
  {
  }

  lemma {:induction false} RunKeepsVoted(c: Membership, tr: seq<Cluster>, k: nat)
    requires Run(c, tr) && k < |tr|
    ensures VotedInv(tr[k])
  {
    hide *;
    if k == 0 {
      RunStarts(c, tr);
      InitHasNoVotes(c, tr[0]);
    } else {
      RunKeepsVoted(c, tr, k - 1);
      var f := RunEffect(c, tr, k - 1);
      EffectKeepsVoted(c, tr[k - 1], tr[k], f);
    }
  }

  /** In every run, a node whose term has just risen remembers no vote but one that it cast
      in this very step. */
  lemma RisingTermForgetsTheVote(c: Membership, tr: seq<Cluster>, k: nat, u: NodeId)
    requires Run(c, tr) && k + 1 < |tr| && u in tr[k].nodes && u in tr[k + 1].nodes
    requires tr[k].nodes[u].term < tr[k + 1].nodes[u].term && tr[k + 1].nodes[u].votedFor != ""
    ensures |tr[k + 1].events| == |tr[k].events| + 1
    ensures VoteAt(tr[k + 1], |tr[k].events|, u, tr[k + 1].nodes[u].term, tr[k + 1].nodes[u].votedFor)
  {
    hide Run, WF, Has, Grows, VoteAt;
    var f := RunEffect(c, tr, k);
    NewVoteIsCast(c, tr[k], tr[k + 1], f, u);
  }

  /** Voter u has a standing vote of term t for a node other than `who`. */
  ghost predicate Bound(s: Cluster, u: NodeId, t: int, who: NodeId) {
    exists x, other :: VoteStands(s, x, u, t, other) && other != who
  }

  lemma VotesAreForNodes(c: Membership, s: Cluster, x: int, u: NodeId, t: int, who: NodeId)
    requires WF(c, s) && VoteAt(s, x, u, t, who)
    ensures who != ""
  {
  }

  lemma BoundMeansVoted(c: Membership, s: Cluster, u: NodeId, t: int, who: NodeId)
    requires WF(c, s) && VotesInv(s) && VotedInv(s) && u in s.nodes && s.nodes[u].term <= t
    ensures Bound(s, u, t, who) <==>
              s.nodes[u].term == t && s.nodes[u].votedFor != "" && s.nodes[u].votedFor != who
  {
    hide WF, VoteAt, HeardAt;
    if Bound(s, u, t, who) {
      var x, other :| VoteStands(s, x, u, t, other) && other != who;
      VotesAreForNodes(c, s, x, u, t, other);
      assert VoteBinds(s, x, u, t, other);
    }
  }

  /** The vote law, for every run: a delivered vote request is granted if and only if the
      candidate is not stale, not behind, and the voter has no standing vote of that term
      for somebody else. */
  lemma VoteLaw(c: Membership, tr: seq<Cluster>, k: nat, r: nat, now: int)
    requires Run(c, tr) && k < |tr| && r < |tr[k].sent| && tr[k].sent[r].op.Vote?
    ensures WF(c, tr[k]) && RpcOk(c, tr[k], tr[k].sent[r])
    ensures var s := tr[k]; var u := s.sent[r].to; var e := s.elections[s.sent[r].op.e]; var n := s.nodes[u];
            Dispatch(n, Request(s, s.sent[r].op), now).1.voteGranted <==>
              && n.term <= e.term
              && (LastTerm(n.log) < LastTerm(e.log)
                  || (LastTerm(n.log) == LastTerm(e.log) && LastIndex(n.log) <= LastIndex(e.log)))
              && !Bound(s, u, e.term, e.node)
  {
    RunKeepsShape(c, tr, k);
    RunKeepsVotes(c, tr, k);
    RunKeepsVoted(c, tr, k);
    hide Run, ShapeInv, VotesInv, VotedInv, Bound;
    var s := tr[k];
    var u, e := s.sent[r].to, s.elections[s.sent[r].op.e];
    assert RpcOk(c, s, s.sent[r]);
    if s.nodes[u].term <= e.term { BoundMeansVoted(c, s, u, e.term, e.node); }
    VoteOutcome(s.nodes[u], VoteRequest(e), now);
  }

  // ----- the known leader -----

  /** Node v knows w as leader: it is w and won an election, or it answered a request of w. */
  ghost predicate KnowsFrom(c: Membership, s: Cluster, x: int, v: NodeId, w: NodeId)
    requires WF(c, s)
  {
    && 0 <= x < |s.events|
    && match s.events[x] {
         case Elected(e, _, _) => e < |s.elections| && v == w == s.elections[e].node
         case Answered(r, reply) =>
           r < |s.sent| && s.sent[r].to == v && reply.AppendResult?
           && RpcOk(c, s, s.sent[r]) && OpNode(c, s, s.sent[r].op) == w
         case _ => false
       }
  }

  /** A leader takes itself for the leader, and nobody makes a leader up. */
  ghost predicate LeaderKnown(c: Membership, s: Cluster)
    requires WF(c, s)
  {
    forall v :: v in s.nodes ==>
      && (s.nodes[v].role == Leader ==> s.nodes[v].leaderID == v)
      && (s.nodes[v].leaderID != "" ==> exists x :: KnowsFrom(c, s, x, v, s.nodes[v].leaderID))
  }

  lemma KnowledgeStays(c: Membership, s: Cluster, s': Cluster, x: int, v: NodeId, w: NodeId)
    requires WF(c, s) && WF(c, s') && Grows(s, s') && KnowsFrom(c, s, x, v, w)
    ensures KnowsFrom(c, s', x, v, w)
  {
    assert s'.events[x] == s.events[x];
    if s.events[x].Answered? {
      assert RpcOk(c, s', s'.sent[s.events[x].rpc]);
    }
  }

  lemma NewKnowledge(c: Membership, s: Cluster, s': Cluster, f: Effect, v: NodeId)
    requires WF(c, s) && WF(c, s') && Has(c, s, s', f) && Grows(s, s') && v in s'.nodes
    requires s'.nodes[v].leaderID != "" && s'.nodes[v].leaderID != s.nodes[v].leaderID
    ensures KnowsFrom(c, s', |s.events|, v, s'.nodes[v].leaderID)
  {
    if f.Delivery? {
      assert RpcOk(c, s', s'.sent[f.r]);
    }
  }

  lemma LeadersKnowThemselves(c: Membership, s: Cluster, s': Cluster, f: Effect, v: NodeId)
    requires WF(c, s) && WF(c, s') && Has(c, s, s', f) && v in s'.nodes && s'.nodes[v].role == Leader
    requires s.nodes[v].role == Leader ==> s.nodes[v].leaderID == v
    ensures s'.nodes[v].leaderID == v
  {
  }

  lemma EffectKeepsLeaderKnown(c: Membership, s: Cluster, s': Cluster, f: Effect)
    requires WF(c, s) && WF(c, s') && Has(c, s, s', f) && Grows(s, s') && LeaderKnown(c, s)
    ensures LeaderKnown(c, s')
  {
    hide Has, KnowsFrom, Grows;
    forall v | v in s'.nodes
      ensures s'.nodes[v].role == Leader ==> s'.nodes[v].leaderID == v
      ensures s'.nodes[v].leaderID != "" ==> exists x :: KnowsFrom(c, s', x, v, s'.nodes[v].leaderID)
    {
      if s'.nodes[v].role == Leader { LeadersKnowThemselves(c, s, s', f, v); }
      if s'.nodes[v].leaderID != "" {
        if s'.nodes[v].leaderID == s.nodes[v].leaderID {
          var x :| KnowsFrom(c, s, x, v, s.nodes[v].leaderID);
          KnowledgeStays(c, s, s', x, v, s.nodes[v].leaderID);
        } else {
          NewKnowledge(c, s, s', f, v);
        }
      }
    }
  }

  lemma InitKnowsNobody(c: Membership, s: Cluster)
    requires Init(c, s) && WF(c, s)
    ensures LeaderKnown(c, s)
  {
  }

  /** In every run a leader's leaderID is itself, and any other leaderID was learnt from an
      AppendEntries of that node. */
  lemma {:induction false} RunKeepsLeaderKnown(c: Membership, tr: seq<Cluster>, k: nat)
    requires Run(c, tr) && k < |tr|
    ensures WF(c, tr[k]) && LeaderKnown(c, tr[k])
  {
    hide *;
    if k == 0 {
      RunStarts(c, tr);
      InitKnowsNobody(c, tr[0]);
    } else {
      RunKeepsLeaderKnown(c, tr, k - 1);
      var f := RunEffect(c, tr, k - 1);
      EffectKeepsLeaderKnown(c, tr[k - 1], tr[k], f);
    }
  }
}
