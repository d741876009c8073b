// Voting. A node forgets its vote when an AppendEntries of its own term arrives, so a
// second vote in one term is possible; this module says exactly when.
module RaftVotes {
  import opened RaftTypes
  import opened RaftHandlers
  import opened RaftCluster
  import opened RaftEffects

  /** Event x answers a vote request of election e, sent to u, with a grant. */
  ghost predicate Granted(s: Cluster, x: int, u: NodeId, e: nat) {
    && 0 <= x < |s.events| && s.events[x].Answered? && s.events[x].rpc < |s.sent|
    && s.sent[s.events[x].rpc].op == Vote(e) && s.sent[s.events[x].rpc].to == u
    && s.events[x].reply.VoteResponse? && s.events[x].reply.voteGranted
  }

  /** Event x is a vote of u for node `who` in term t: its own candidacy or a grant. */
  ghost predicate VoteAt(s: Cluster, x: int, u: NodeId, t: int, who: NodeId) {
    && 0 <= x < |s.events|
    && exists e: nat :: && e < |s.elections| && s.elections[e].term == t && s.elections[e].node == who
                        && ((s.events[x] == Started(e) && who == u) || Granted(s, x, u, e))
  }

  /** Event x is u taking an AppendEntries of term t (past the stale-term check). */
  ghost predicate HeardAt(s: Cluster, x: int, u: NodeId, t: int) {
    && 0 <= x < |s.events| && s.events[x].Answered? && s.events[x].rpc < |s.sent|
    && var rpc := s.sent[s.events[x].rpc];
       && rpc.to == u && s.events[x].reply.AppendResult? && s.events[x].reply.term == t
       && ((rpc.op.Append? && rpc.op.p < |s.proposals| && s.proposals[rpc.op.p].term == t)
           || (rpc.op.Beat? && rpc.op.term == t))
  }

  /** A vote binds the voter until its term passes or it hears from a leader of that term. */
  ghost predicate VoteBinds(s: Cluster, x: int, u: NodeId, t: int, who: NodeId) {
    && u in s.nodes && t <= s.nodes[u].term
    && (s.nodes[u].term == t ==> s.nodes[u].votedFor == who || exists y :: x < y && HeardAt(s, y, u, t))
  }

  /** Between two votes for different candidates the voter heard from a leader. */
  ghost predicate HeardBetween(s: Cluster, x: int, z: int, u: NodeId, t: int) {
    exists y :: x < y < z && HeardAt(s, y, u, t)
  }

  ghost predicate VotesInv(s: Cluster) {
    && (forall x, u, t, who :: VoteAt(s, x, u, t, who) ==> VoteBinds(s, x, u, t, who))
    && (forall x, z, u, t, who, other ::
          x < z && VoteAt(s, x, u, t, who) && VoteAt(s, z, u, t, other) && who != other ==>
            HeardBetween(s, x, z, u, t) && s.events[z].Answered?)
  }

  lemma HeardStays(s: Cluster, s': Cluster, x: int, u: NodeId, t: int)
    requires Grows(s, s') && HeardAt(s, x, u, t)
    ensures HeardAt(s', x, u, t)
  {
  }

  lemma VoteStays(c: Membership, s: Cluster, s': Cluster, x: int, u: NodeId, t: int, who: NodeId)
    requires WF(c, s) && Grows(s, s')
    ensures VoteAt(s, x, u, t, who) ==> VoteAt(s', x, u, t, who)
    ensures VoteAt(s', x, u, t, who) && x < |s.events| ==> VoteAt(s, x, u, t, who)
  {
    if VoteAt(s, x, u, t, who) {
      var e: nat :| e < |s.elections| && s.elections[e].term == t && s.elections[e].node == who
                    && ((s.events[x] == Started(e) && who == u) || Granted(s, x, u, e));
      assert s'.elections[e] == s.elections[e] && s'.events[x] == s.events[x];
      assert Granted(s, x, u, e) ==> Granted(s', x, u, e);
    }
    if VoteAt(s', x, u, t, who) && x < |s.events| {
      var e: nat :| e < |s'.elections| && s'.elections[e].term == t && s'.elections[e].node == who
                    && ((s'.events[x] == Started(e) && who == u) || Granted(s', x, u, e));
      assert s'.events[x] == s.events[x] && EventOk(s, s.events[x]);
      if Granted(s', x, u, e) {
        var r := s.events[x].rpc;
        assert s'.sent[r] == s.sent[r] && OpOk(c, s, s.sent[r].op);
        assert Granted(s, x, u, e);
      }
      assert s'.elections[e] == s.elections[e];
    }
  }

  lemma BetweenStays(s: Cluster, s': Cluster, x: int, z: int, u: NodeId, t: int)
    requires Grows(s, s') && HeardBetween(s, x, z, u, t)
    ensures HeardBetween(s', x, z, u, t)
  {
    var y :| x < y < z && HeardAt(s, y, u, t);
    HeardStays(s, s', y, u, t);
  }

  /** One vote that was already there stays binding across a step of any kind. */
  lemma StillBinds(c: Membership, s: Cluster, s': Cluster, f: Effect, x: int, u: NodeId, t: int, who: NodeId)
    requires WF(c, s) && WF(c, s') && Has(c, s, s', f) && Grows(s, s')
    requires VoteAt(s, x, u, t, who) && VoteBinds(s, x, u, t, who)
    ensures VoteBinds(s', x, u, t, who)
  {
    if s.nodes[u].term == t && s.nodes[u].votedFor != who {
      var y :| x < y && HeardAt(s, y, u, t);
      HeardStays(s, s', y, u, t);
    }
    if f.Delivery? && s.sent[f.r].to == u {
      DeliveryBinds(c, s, s', f.r, f.now, x, u, t, who);
    }
  }

  lemma DeliveryBinds(c: Membership, s: Cluster, s': Cluster, r: nat, now: int,
                      x: int, u: NodeId, t: int, who: NodeId)
    requires WF(c, s) && WF(c, s') && DeliveryEffect(c, s, s', r, now) && s.sent[r].to == u
    requires VoteAt(s, x, u, t, who) && VoteBinds(s, x, u, t, who)
    ensures s.nodes[u].term <= s'.nodes[u].term
    ensures s'.nodes[u].term == t && s'.nodes[u].votedFor != who ==>
              exists y :: x < y && HeardAt(s', y, u, t)
  {
    var z := |s.events|;
    assert who != "";
    if s'.nodes[u].term == t && s'.nodes[u].votedFor != who {
      if s.nodes[u].votedFor != who {
        var y :| x < y && HeardAt(s, y, u, t);
        HeardStays(s, s', y, u, t);
      } else {
        assert !s.sent[r].op.Vote?;
        assert HeardAt(s', z, u, t);
      }
    }
  }

  /** A vote cast by this very step: it binds, and an earlier vote for somebody else in
      the same term was followed by hearing a leader. */
  lemma FreshVote(c: Membership, s: Cluster, s': Cluster, f: Effect, u: NodeId, t: int, who: NodeId)
    requires WF(c, s) && WF(c, s') && Has(c, s, s', f) && Grows(s, s') && VotesInv(s)
    requires VoteAt(s', |s.events|, u, t, who)
    ensures VoteBinds(s', |s.events|, u, t, who)
    ensures forall x, other :: VoteAt(s, x, u, t, other) && other != who ==>
              HeardBetween(s, x, |s.events|, u, t) && s'.events[|s.events|].Answered?
  {
    var z := |s.events|;
    assert f.NewElection? || f.Delivery?;
    forall x, other | VoteAt(s, x, u, t, other) && other != who
      ensures HeardBetween(s, x, z, u, t) && s'.events[z].Answered?
    {
      assert VoteBinds(s, x, u, t, other);
      assert other != "";
      if f.Delivery? {
        FreshGrant(c, s, s', f.r, f.now, u, t, who);
        var y :| x < y && HeardAt(s, y, u, t);
        assert x < y < z && HeardAt(s, y, u, t);
      }
    }
    if f.Delivery? { FreshGrant(c, s, s', f.r, f.now, u, t, who); }
  }

  lemma FreshGrant(c: Membership, s: Cluster, s': Cluster, r: nat, now: int, u: NodeId, t: int, who: NodeId)
    requires WF(c, s) && WF(c, s') && DeliveryEffect(c, s, s', r, now)
    requires VoteAt(s', |s.events|, u, t, who)
    ensures s.sent[r].to == u && s.nodes[u].term <= t == s'.nodes[u].term
    ensures s'.nodes[u].votedFor == who
    ensures s.nodes[u].term == t ==> s.nodes[u].votedFor == "" || s.nodes[u].votedFor == who
  {
  }

  lemma EffectKeepsVotes(c: Membership, s: Cluster, s': Cluster, f: Effect)
    requires WF(c, s) && WF(c, s') && Has(c, s, s', f) && Grows(s, s') && VotesInv(s)
    ensures VotesInv(s')
  {
    hide VoteBinds, HeardBetween, Has, WF, VoteAt;
    forall x, u, t, who | VoteAt(s', x, u, t, who) ensures VoteBinds(s', x, u, t, who) {
      VoteStays(c, s, s', x, u, t, who);
      LastEvent(c, s, s', f, x, u, t, who);
      if x < |s.events| { StillBinds(c, s, s', f, x, u, t, who); }
      else { FreshVote(c, s, s', f, u, t, who); }
    }
    forall x, z, u, t, who, other |
      x < z && VoteAt(s', x, u, t, who) && VoteAt(s', z, u, t, other) && who != other
      ensures 0 <= z < |s'.events| && HeardBetween(s', x, z, u, t) && s'.events[z].Answered?
    {
      LastEvent(c, s, s', f, z, u, t, other);
      VoteStays(c, s, s', x, u, t, who);
      VoteStays(c, s, s', z, u, t, other);
      if z == |s.events| { FreshVote(c, s, s', f, u, t, other); }
      BetweenStays(s, s', x, z, u, t);
    }
  }

  lemma LastEvent(c: Membership, s: Cluster, s': Cluster, f: Effect, x: int, u: NodeId, t: int, who: NodeId)
    requires WF(c, s) && Has(c, s, s', f) && VoteAt(s', x, u, t, who)
    ensures 0 <= x <= |s.events| && x < |s'.events|
  {
  }

  lemma InitKeepsVotes(c: Membership, s: Cluster)
    requires Init(c, s)
    ensures VotesInv(s)
  {
  }

  lemma {:induction false} RunKeepsVotes(c: Membership, tr: seq<Cluster>, k: nat)
    requires Run(c, tr) && k < |tr|
    ensures VotesInv(tr[k])
  {
    hide *;
    if k == 0 {
      RunStarts(c, tr);
      InitKeepsVotes(c, tr[0]);
    } else {
      RunKeepsVotes(c, tr, k - 1);
      var f := RunEffect(c, tr, k - 1);
      EffectKeepsVotes(c, tr[k - 1], tr[k], f);
    }
  }
}
