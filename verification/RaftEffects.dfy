// Seen from the logs, terms and votes, a step of the cluster does one of six things.
module RaftEffects {
  import opened RaftTypes
  import opened RaftHandlers
  import opened RaftCluster

  datatype Effect =
    | Quiet(v: NodeId)
    | Fallback(v: NodeId)
    | Promotion(v: NodeId, e: nat, voters: set<NodeId>)
    | NewProposal(v: NodeId, entry: LogEntry)
    | NewElection(v: NodeId)
    | Delivery(r: nat, now: int)

  ghost predicate OneNode(c: Membership, s: Cluster, s': Cluster, v: NodeId) {
    v in c.ids && v in s.nodes && v in s'.nodes && s'.nodes == s.nodes[v := s'.nodes[v]]
  }

  ghost predicate SameRecords(s: Cluster, s': Cluster) {
    s'.elections == s.elections && s'.proposals == s.proposals
  }

  ghost predicate SameBallot(n: NodeState, m: NodeState) {
    m.term == n.term && m.votedFor == n.votedFor && m.log == n.log
  }

  /** Nothing but roles, commit indexes, calls and requests changes; a commit may be noted. */
  ghost predicate QuietEffect(c: Membership, s: Cluster, s': Cluster, v: NodeId) {
    && OneNode(c, s, s', v) && SameRecords(s, s')
    && SameBallot(s.nodes[v], s'.nodes[v]) && s'.nodes[v].leaderID == s.nodes[v].leaderID
    && (s'.nodes[v].role == Leader ==> s.nodes[v].role == Leader)
    && s.sent <= s'.sent
    && (s'.events == s.events || exists p, q :: s'.events == s.events + [Committed(p, q)])
  }

  /** A node learns of a higher term, falls back to follower and forgets its vote. */
  ghost predicate FallbackEffect(c: Membership, s: Cluster, s': Cluster, v: NodeId) {
    && OneNode(c, s, s', v) && SameRecords(s, s')
    && s.nodes[v].term <= s'.nodes[v].term && s'.nodes[v].log == s.nodes[v].log
    && (s'.nodes[v] == s.nodes[v]
        || (s.nodes[v].term < s'.nodes[v].term && s'.nodes[v].role == Follower && s'.nodes[v].votedFor == ""))
    && (s'.nodes[v].leaderID == s.nodes[v].leaderID || s'.nodes[v].leaderID == "")
    && s'.sent == s.sent && s'.events == s.events
  }

  ghost predicate PromotionEffect(c: Membership, s: Cluster, s': Cluster, v: NodeId, e: nat, voters: set<NodeId>) {
    && OneNode(c, s, s', v) && SameRecords(s, s')
    && SameBallot(s.nodes[v], s'.nodes[v]) && s'.nodes[v].role == Leader && s'.nodes[v].leaderID == v
    && e < |s.elections| && s.elections[e].node == v
    && s'.sent == s.sent && s'.events == s.events + [Elected(e, s.nodes[v].term, voters)]
  }

  ghost predicate NewProposalEffect(c: Membership, s: Cluster, s': Cluster, v: NodeId, entry: LogEntry) {
    && OneNode(c, s, s', v)
    && s.nodes[v].role == Leader
    && entry.index == |s.nodes[v].log| + 1 && entry.term == s.nodes[v].term
    && s'.nodes[v] == s.nodes[v].(log := s.nodes[v].log + [entry])
    && s'.elections == s.elections
    && s'.proposals == s.proposals + [Proposal(v, s.nodes[v].term, s'.nodes[v].log, s.nodes[v].commitIndex)]
    && s'.sent == s.sent && s'.events == s.events
  }

  ghost predicate NewElectionEffect(c: Membership, s: Cluster, s': Cluster, v: NodeId) {
    && OneNode(c, s, s', v)
    && s'.nodes[v].term == s.nodes[v].term + 1 && s'.nodes[v].votedFor == v
    && s'.nodes[v].role == Candidate && s'.nodes[v].leaderID == "" && s'.nodes[v].log == s.nodes[v].log
    && s'.elections == s.elections + [Election(v, s'.nodes[v].term, s'.nodes[v].log)]
    && s'.proposals == s.proposals
    && s'.sent == s.sent && s'.events == s.events + [Started(|s.elections|)]
  }

  ghost predicate DeliveryEffect(c: Membership, s: Cluster, s': Cluster, r: nat, now: int)
    requires WF(c, s)
  {
    && r < |s.sent|
    && OneNode(c, s, s', s.sent[r].to) && SameRecords(s, s')
    && var (n, reply) := Dispatch(s.nodes[s.sent[r].to], Request(s, s.sent[r].op), now);
       && s'.nodes[s.sent[r].to] == n
       && s'.sent == s.sent && s'.events == s.events + [Answered(r, reply)]
  }

  ghost predicate Has(c: Membership, s: Cluster, s': Cluster, f: Effect)
    requires WF(c, s)
  {
    match f
    case Quiet(v) => QuietEffect(c, s, s', v)
    case Fallback(v) => FallbackEffect(c, s, s', v)
    case Promotion(v, e, voters) => PromotionEffect(c, s, s', v, e, voters)
    case NewProposal(v, entry) => NewProposalEffect(c, s, s', v, entry)
    case NewElection(v) => NewElectionEffect(c, s, s', v)
    case Delivery(r, now) => DeliveryEffect(c, s, s', r, now)
  }

  ghost function EffectOf(c: Membership, s: Cluster, l: Label): Effect
    requires WF(c, s) && Enabled(c, s, l)
  {
    match l
    case Bump(v, _) => Fallback(v)
    case Propose(v, payload) => NewProposal(v, NewEntry(s.nodes[v], payload))
    case Campaign(v, _) => NewElection(v)
    case Deliver(r, now) => Delivery(r, now)
    case Return(k, reply, now) =>
      var v := OpNode(c, s, s.calls[k].op);
      if reply.term > OpTerm(s, s.calls[k].op) && reply.term > s.nodes[v].term then Fallback(v) else Quiet(v)
    case Finish(k, _) =>
      var v, op := OpNode(c, s, s.calls[k].op), s.calls[k].op;
      if op.Vote? && s.calls[k].count >= Majority(c, v)
      then Promotion(v, op.e, s.calls[k].from + {v}) else Quiet(v)
    case _ => Quiet(OpNode(c, s, s.calls[l.k].op))
  }

  lemma StepEffect(c: Membership, s: Cluster, l: Label, s': Cluster)
    requires Step(c, s, l, s')
    ensures Has(c, s, s', EffectOf(c, s, l))
  {
    if l.Return? { hide *; ReturnEffect(c, s, l, s'); }
    else if l.Finish? { hide *; FinishEffect(c, s, l, s'); }
    else if l.Propose? || l.Campaign? || l.Bump? { hide *; NodeEffect(c, s, l, s'); }
    else { hide *; CallEffect(c, s, l, s'); }
  }

  lemma ReturnEffect(c: Membership, s: Cluster, l: Label, s': Cluster)
    requires Step(c, s, l, s') && l.Return?
    ensures Has(c, s, s', EffectOf(c, s, l))
  {
  }

  lemma FinishEffect(c: Membership, s: Cluster, l: Label, s': Cluster)
    requires Step(c, s, l, s') && l.Finish?
    ensures Has(c, s, s', EffectOf(c, s, l))
  {
  }

  lemma NodeEffect(c: Membership, s: Cluster, l: Label, s': Cluster)
    requires Step(c, s, l, s') && (l.Propose? || l.Campaign? || l.Bump?)
    ensures Has(c, s, s', EffectOf(c, s, l))
  {
  }

  lemma CallEffect(c: Membership, s: Cluster, l: Label, s': Cluster)
    requires Step(c, s, l, s') && (l.Tick? || l.Send? || l.Fail? || l.Deliver?)
    ensures Has(c, s, s', EffectOf(c, s, l))
  {
  }

  /** Records, requests and events are only ever added. */
  ghost predicate Grows(s: Cluster, s': Cluster) {
    && s.elections <= s'.elections && s.proposals <= s'.proposals
    && s.sent <= s'.sent && s.events <= s'.events
  }

  lemma EffectGrows(c: Membership, s: Cluster, s': Cluster, f: Effect)
    requires WF(c, s) && Has(c, s, s', f)
    ensures Grows(s, s')
  {
  }

  /** A step, reduced to what the proofs look at. */
  ghost predicate Moves(c: Membership, s: Cluster, s': Cluster) {
    WF(c, s) && WF(c, s') && Grows(s, s') && exists f :: Has(c, s, s', f)
  }

  lemma NextMoves(c: Membership, s: Cluster, s': Cluster)
    requires Next(c, s, s')
    ensures Moves(c, s, s')
  {
    hide WF, Enabled, Do, Has, Grows, EffectOf;
    var l :| Step(c, s, l, s');
    StepKeepsWF(c, s, l, s');
    StepEffect(c, s, l, s');
    EffectGrows(c, s, s', EffectOf(c, s, l));
  }

  lemma RunMoves(c: Membership, tr: seq<Cluster>, k: nat)
    requires Run(c, tr) && k + 1 < |tr|
    ensures Moves(c, tr[k], tr[k + 1])
  {
    assert Next(c, tr[k], tr[k + 1]);
    NextMoves(c, tr[k], tr[k + 1]);
  }

  lemma RunStarts(c: Membership, tr: seq<Cluster>)
    requires Run(c, tr)
    ensures tr != [] && Init(c, tr[0]) && WF(c, tr[0])
  {
  }

  lemma RunEffect(c: Membership, tr: seq<Cluster>, k: nat) returns (f: Effect)
    requires Run(c, tr) && k + 1 < |tr|
    ensures WF(c, tr[k]) && WF(c, tr[k + 1]) && Grows(tr[k], tr[k + 1]) && Has(c, tr[k], tr[k + 1], f)
  {
    hide Run, WF, Grows, Has;
    RunMoves(c, tr, k);
    f :| Has(c, tr[k], tr[k + 1], f);
  }
}
