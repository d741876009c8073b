// What the requests say and what they teach: every request is true of its sender at some
// earlier moment, and a commit index spreads only from a majority commit.
module RaftRequests {
  import opened RaftTypes
  import opened RaftHandlers
  import opened RaftAppend
  import opened RaftCluster
  import opened RaftEffects
  import opened RaftShape
  import opened RaftVotes
  import opened RaftQuorums

  // ----- what a request says -----

  /** Node v, with the fields n, is about to campaign with this request. */
  ghost predicate Campaigning(n: NodeState, v: NodeId, msg: Message) {
    n.role != Leader && msg == RequestVote(v, n.term + 1, v, LastTerm(n.log), LastIndex(n.log))
  }

  /** Leader v, with the fields n, is about to append an entry and replicate it with this
      request. */
  ghost predicate Replicating(n: NodeState, v: NodeId, msg: Message) {
    n.role == Leader && exists data :: msg == Replication(n, v, data)
  }

  ghost function Replication(n: NodeState, v: NodeId, data: string): Message {
    AppendEntries(v, n.term, v, |n.log|, LastTerm(n.log), [LogEntry(|n.log| + 1, n.term, data)], n.commitIndex)
  }

  /** Leader v, with the fields n, sends this heartbeat. */
  ghost predicate Beating(n: NodeState, v: NodeId, msg: Message) {
    n.role == Leader && msg == AppendEntries(v, n.term, v, 0, 0, [], n.commitIndex)
  }

  ghost predicate Speaks(n: NodeState, v: NodeId, op: Op, msg: Message) {
    match op
    case Vote(_) => Campaigning(n, v, msg)
    case Append(_) => Replicating(n, v, msg)
    case Beat(_, _, _) => Beating(n, v, msg)
  }

  /** An operation that may still send, or has sent. A heartbeat loop that has not ticked yet
      has passed all of its peers. */
  ghost predicate InUse(c: Membership, s: Cluster, op: Op)
    requires WF(c, s)
  {
    && OpOk(c, s, op)
    && (op.Beat? ==>
          || (exists k :: 0 <= k < |s.calls| && s.calls[k].op == op && s.calls[k].next < |c.order[op.node]|)
          || (exists r :: 0 <= r < |s.sent| && s.sent[r].op == op))
  }

  /** At moment m the sender of op was in a state that its request describes. */
  ghost predicate SpokenAt(c: Membership, tr: seq<Cluster>, m: nat, k: nat, op: Op)
    requires m <= k < |tr| && WF(c, tr[k]) && OpOk(c, tr[k], op)
  {
    var v := OpNode(c, tr[k], op);
    v in tr[m].nodes && Speaks(tr[m].nodes[v], v, op, Request(tr[k], op))
  }

  lemma RequestStays(c: Membership, s: Cluster, s': Cluster, op: Op)
    requires WF(c, s) && WF(c, s') && Grows(s, s') && OpOk(c, s, op)
    ensures OpOk(c, s', op) && OpNode(c, s', op) == OpNode(c, s, op) && Request(s', op) == Request(s, op)
  {
  }

  /** An operation that a step brings into use speaks of the state before the step. */
  lemma FreshOp(c: Membership, s: Cluster, l: Label, s': Cluster, op: Op)
    requires Step(c, s, l, s') && WF(c, s') && InUse(c, s', op) && !InUse(c, s, op)
    ensures var v := OpNode(c, s', op); v in s.nodes && Speaks(s.nodes[v], v, op, Request(s', op))
  {
    match op
    case Vote(e) => FreshElection(c, s, l, s', e);
    case Append(p) => FreshProposal(c, s, l, s', p);
    case Beat(_, _, _) => FreshBeat(c, s, l, s', op);
  }

  lemma FreshElection(c: Membership, s: Cluster, l: Label, s': Cluster, e: nat)
    requires Step(c, s, l, s') && WF(c, s') && |s.elections| <= e < |s'.elections|
    ensures var v := s'.elections[e].node; v in s.nodes && Campaigning(s.nodes[v], v, VoteRequest(s'.elections[e]))
  {
  }

  lemma FreshProposal(c: Membership, s: Cluster, l: Label, s': Cluster, p: nat)
    requires Step(c, s, l, s') && WF(c, s') && |s.proposals| <= p < |s'.proposals|
    ensures var v := s'.proposals[p].node; v in s.nodes && Replicating(s.nodes[v], v, AppendRequest(s'.proposals[p]))
  {
    assert l.Propose?;
    var n, pr := s.nodes[l.v], s'.proposals[p].prefix;
    assert pr == n.log + [NewEntry(n, l.payload)] && pr[..|pr| - 1] == n.log;
    assert AppendRequest(s'.proposals[p]) == Replication(n, l.v, l.payload);
  }

  lemma FreshBeat(c: Membership, s: Cluster, l: Label, s': Cluster, op: Op)
    requires Step(c, s, l, s') && WF(c, s') && InUse(c, s', op) && op.Beat? && !InUse(c, s, op)
    ensures op.node in s.nodes && Beating(s.nodes[op.node], op.node, Request(s', op))
  {
    if exists r :: 0 <= r < |s'.sent| && s'.sent[r].op == op {
      SentWasInUse(c, s, l, s', op);
    } else {
      TickedNow(c, s, l, s', op);
    }
  }

  lemma SentWasInUse(c: Membership, s: Cluster, l: Label, s': Cluster, op: Op)
    requires Step(c, s, l, s') && op.Beat? && exists r :: 0 <= r < |s'.sent| && s'.sent[r].op == op
    ensures InUse(c, s, op)
  {
  }

  lemma TickedNow(c: Membership, s: Cluster, l: Label, s': Cluster, op: Op)
    requires Step(c, s, l, s') && WF(c, s') && op.Beat? && op.node in c.ids && !InUse(c, s, op)
    requires exists k :: 0 <= k < |s'.calls| && s'.calls[k].op == op && s'.calls[k].next < |c.order[op.node]|
    ensures op.node in s.nodes && Beating(s.nodes[op.node], op.node, Request(s', op))
  {
  }

  lemma {:induction false} OpsAreSpoken(c: Membership, tr: seq<Cluster>, k: nat, op: Op)
    requires Run(c, tr) && k < |tr| && WF(c, tr[k]) && InUse(c, tr[k], op)
    ensures exists m :: 0 <= m <= k && SpokenAt(c, tr, m, k, op)
  {
    hide *;
    NothingInUse(c, tr, op);
    InUseIsOk(c, tr[k], op);
    if k > 0 {
      var s, s' := tr[k - 1], tr[k];
      var f := RunEffect(c, tr, k - 1);
      if InUse(c, s, op) {
        InUseIsOk(c, s, op);
        OpsAreSpoken(c, tr, k - 1, op);
        var m :| 0 <= m <= k - 1 && SpokenAt(c, tr, m, k - 1, op);
        SpokenStays(c, tr, m, k, op);
      } else {
        var l := RunLabel(c, tr, k - 1);
        FreshOp(c, s, l, s', op);
        SpokenNow(c, tr, k, op);
      }
    }
  }

  lemma InUseIsOk(c: Membership, s: Cluster, op: Op)
    requires WF(c, s) && InUse(c, s, op)
    ensures OpOk(c, s, op)
  {
  }

  lemma NothingInUse(c: Membership, tr: seq<Cluster>, op: Op)
    requires Run(c, tr)
    ensures WF(c, tr[0]) && !InUse(c, tr[0], op)
  {
  }

  lemma SpokenStays(c: Membership, tr: seq<Cluster>, m: nat, k: nat, op: Op)
    requires 0 <= m <= k - 1 < k < |tr| && WF(c, tr[k - 1]) && WF(c, tr[k]) && Grows(tr[k - 1], tr[k])
    requires OpOk(c, tr[k - 1], op) && SpokenAt(c, tr, m, k - 1, op)
    ensures OpOk(c, tr[k], op) && SpokenAt(c, tr, m, k, op)
  {
    RequestStays(c, tr[k - 1], tr[k], op);
  }

  lemma SpokenNow(c: Membership, tr: seq<Cluster>, k: nat, op: Op)
    requires 0 < k < |tr| && WF(c, tr[k]) && OpOk(c, tr[k], op)
    requires var v := OpNode(c, tr[k], op);
             v in tr[k - 1].nodes && Speaks(tr[k - 1].nodes[v], v, op, Request(tr[k], op))
    ensures SpokenAt(c, tr, k - 1, k, op)
  {
  }

  /** Requests are true: in every run, every request that was ever sent carries, field by
      field, what its sender held at some earlier moment, in the role it needs. */
  lemma RequestsAreTrue(c: Membership, tr: seq<Cluster>, k: nat, r: nat)
    requires Run(c, tr) && k < |tr| && r < |tr[k].sent|
    ensures WF(c, tr[k]) && RpcOk(c, tr[k], tr[k].sent[r])
    ensures exists m :: 0 <= m <= k && SpokenAt(c, tr, m, k, tr[k].sent[r].op)
  {
    RunKeepsShape(c, tr, k);
    hide Run, SpokenAt, ShapeInv;
    assert RpcOk(c, tr[k], tr[k].sent[r]);
    assert InUse(c, tr[k], tr[k].sent[r].op);
    OpsAreSpoken(c, tr, k, tr[k].sent[r].op);
  }

  // ----- what it teaches -----

  /** What an accepted or refused request does to the receiver's commit index, given the
      leader's. */
  ghost predicate CommitTaught(n: NodeState, m: NodeState, success: bool, leaderCommit: int) {
    && (success && n.commitIndex < leaderCommit ==>
          m.commitIndex == if leaderCommit <= |m.log| then leaderCommit else |m.log|)
    && (!success || leaderCommit <= n.commitIndex ==> m.commitIndex == n.commitIndex)
  }

  /** In every run, a delivered AppendEntries or heartbeat that is accepted raises the
      receiver's commit index to what the leader had committed when it spoke (or to the end
      of its own log, where that is less), and changes it in no other case. */
  lemma DeliveryTeachesCommit(c: Membership, tr: seq<Cluster>, k: nat, r: nat, now: int)
    requires Run(c, tr) && k < |tr| && r < |tr[k].sent| && !tr[k].sent[r].op.Vote?
    ensures WF(c, tr[k]) && RpcOk(c, tr[k], tr[k].sent[r])
    ensures var op, n := tr[k].sent[r].op, tr[k].nodes[tr[k].sent[r].to];
            var (m, reply) := Dispatch(n, Request(tr[k], op), now);
            reply.AppendResult? &&
            exists i :: 0 <= i <= k && SpokenAt(c, tr, i, k, op)
                        && CommitTaught(n, m, reply.success, tr[i].nodes[OpNode(c, tr[k], op)].commitIndex)
  {
    RequestsAreTrue(c, tr, k, r);
    RunKeepsShape(c, tr, k);
    hide Run, WF;
    var op, n := tr[k].sent[r].op, tr[k].nodes[tr[k].sent[r].to];
    var i :| 0 <= i <= k && SpokenAt(c, tr, i, k, op);
    RequestsAreWellBuilt(c, tr[k], op);
    ShapeIsContiguous(n.log, n.term);
    AppendOutcome(n, Request(tr[k], op), now);
    assert SpokenAt(c, tr, i, k, op) && CommitTaught(n, Dispatch(n, Request(tr[k], op), now).0,
             Dispatch(n, Request(tr[k], op), now).1.success, tr[i].nodes[OpNode(c, tr[k], op)].commitIndex);
  }

  // ----- where a commit index comes from -----

  /** Some Propose has logged commit_majority at this index or beyond. */
  ghost predicate Vouched(s: Cluster, index: int) {
    index <= 0 || exists x :: CommittedTo(s, x, index)
  }

  ghost predicate CommittedTo(s: Cluster, x: int, index: int) {
    && 0 <= x < |s.events| && s.events[x].Committed? && s.events[x].p < |s.proposals|
    && index <= |s.proposals[s.events[x].p].prefix|
  }

  ghost predicate CommitInv(s: Cluster) {
    && (forall v :: v in s.nodes ==> Vouched(s, s.nodes[v].commitIndex))
    && (forall p :: 0 <= p < |s.proposals| ==> Vouched(s, s.proposals[p].leaderCommit))
    && (forall k :: 0 <= k < |s.calls| && s.calls[k].op.Beat? ==> Vouched(s, s.calls[k].op.commit))
    && (forall r :: 0 <= r < |s.sent| && s.sent[r].op.Beat? ==> Vouched(s, s.sent[r].op.commit))
  }

  lemma VouchedStays(s: Cluster, s': Cluster, index: int, lower: int)
    requires Grows(s, s') && Vouched(s, index) && lower <= index
    ensures Vouched(s', lower)
  {
    if lower > 0 {
      var x :| CommittedTo(s, x, index);
      assert CommittedTo(s', x, lower);
    }
  }

  /** A node's commit index moves by its own majority commit, or to at most what a request
      offers. */
  lemma CommitIndexMoves(c: Membership, s: Cluster, l: Label, s': Cluster, v: NodeId)
    requires Step(c, s, l, s') && WF(c, s') && Grows(s, s') && CommitInv(s) && v in s'.nodes
    ensures Vouched(s', s'.nodes[v].commitIndex)
  {
    VouchedStays(s, s', s.nodes[v].commitIndex, s.nodes[v].commitIndex);
    if l.Deliver? && s.sent[l.r].to == v {
      DeliveredCommit(c, s, l.r, l.now, s');
    } else if l.Finish? && s.nodes[v].commitIndex != s'.nodes[v].commitIndex {
      assert CommittedTo(s', |s.events|, s'.nodes[v].commitIndex);
    }
  }

  lemma DeliveredCommit(c: Membership, s: Cluster, r: nat, now: int, s': Cluster)
    requires Step(c, s, Deliver(r, now), s') && WF(c, s') && Grows(s, s') && CommitInv(s)
    ensures Vouched(s', s'.nodes[s.sent[r].to].commitIndex)
  {
    var op, v := s.sent[r].op, s.sent[r].to;
    assert RpcOk(c, s, s.sent[r]);
    var n, n' := s.nodes[v], s'.nodes[v];
    match op
    case Vote(_) => VouchedStays(s, s', n.commitIndex, n'.commitIndex);
    case Append(p) =>
      if n'.commitIndex <= n.commitIndex { VouchedStays(s, s', n.commitIndex, n'.commitIndex); }
      else { VouchedStays(s, s', s.proposals[p].leaderCommit, n'.commitIndex); }
    case Beat(_, _, commit) =>
      if n'.commitIndex <= n.commitIndex { VouchedStays(s, s', n.commitIndex, n'.commitIndex); }
      else { VouchedStays(s, s', commit, n'.commitIndex); }
  }

  lemma RecordsStayVouched(c: Membership, s: Cluster, l: Label, s': Cluster)
    requires Step(c, s, l, s') && WF(c, s') && Grows(s, s') && CommitInv(s)
    ensures forall p :: 0 <= p < |s'.proposals| ==> Vouched(s', s'.proposals[p].leaderCommit)
    ensures forall r :: 0 <= r < |s'.sent| && s'.sent[r].op.Beat? ==> Vouched(s', s'.sent[r].op.commit)
  {
    forall p | 0 <= p < |s'.proposals| ensures Vouched(s', s'.proposals[p].leaderCommit) {
      var i := if p < |s.proposals| then s.proposals[p].leaderCommit else s.nodes[l.v].commitIndex;
      VouchedStays(s, s', i, i);
    }
    forall r | 0 <= r < |s'.sent| && s'.sent[r].op.Beat? ensures Vouched(s', s'.sent[r].op.commit) {
      var op := if r < |s.sent| then s.sent[r].op else s.calls[l.k].op;
      VouchedStays(s, s', op.commit, op.commit);
    }
  }

  /** Where the commit index of a heartbeat comes from. */
  lemma BeatCommit(c: Membership, s: Cluster, l: Label, s': Cluster, k: nat)
    requires Step(c, s, l, s') && WF(c, s') && k < |s'.calls| && s'.calls[k].op.Beat?
    ensures || (k < |s.calls| && s'.calls[k].op == s.calls[k].op)
            || s'.calls[k].op.commit == 0
            || exists v :: v in s.nodes && s'.calls[k].op.commit == s.nodes[v].commitIndex
  {
  }

  lemma CallsStayVouched(c: Membership, s: Cluster, l: Label, s': Cluster)
    requires Step(c, s, l, s') && WF(c, s') && Grows(s, s') && CommitInv(s)
    ensures forall k :: 0 <= k < |s'.calls| && s'.calls[k].op.Beat? ==> Vouched(s', s'.calls[k].op.commit)
  {
    hide Step, WF, Grows;
    forall k | 0 <= k < |s'.calls| && s'.calls[k].op.Beat? ensures Vouched(s', s'.calls[k].op.commit) {
      BeatCommit(c, s, l, s', k);
      var i := s'.calls[k].op.commit;
      if (k < |s.calls| && s'.calls[k].op == s.calls[k].op)
         || exists v :: v in s.nodes && i == s.nodes[v].commitIndex {
        VouchedStays(s, s', i, i);
      }
    }
  }

  lemma InitVouches(c: Membership, s: Cluster)
    requires Init(c, s)
    ensures CommitInv(s)
  {
  }

  lemma StepKeepsCommit(c: Membership, s: Cluster, l: Label, s': Cluster)
    requires Step(c, s, l, s') && WF(c, s') && Grows(s, s') && CommitInv(s)
    ensures CommitInv(s')
  {
    hide Step, WF, Grows, Vouched;
    forall v | v in s'.nodes ensures Vouched(s', s'.nodes[v].commitIndex) { CommitIndexMoves(c, s, l, s', v); }
    RecordsStayVouched(c, s, l, s');
    CallsStayVouched(c, s, l, s');
  }

  lemma {:induction false} RunKeepsCommit(c: Membership, tr: seq<Cluster>, k: nat)
    requires Run(c, tr) && k < |tr|
    ensures CommitInv(tr[k])
  {
    hide *;
    if k == 0 {
      RunStarts(c, tr);
      InitVouches(c, tr[0]);
    } else {
      RunKeepsCommit(c, tr, k - 1);
      var l := RunLabel(c, tr, k - 1);
      var f := RunEffect(c, tr, k - 1);
      StepKeepsCommit(c, tr[k - 1], l, tr[k]);
    }
  }

  /** In every run, an index that any node takes for committed was reached by a
      commit_majority: nobody makes a commit up. */
  lemma CommitsAreVouched(c: Membership, tr: seq<Cluster>, k: nat, v: NodeId)
    requires Run(c, tr) && k < |tr| && v in tr[k].nodes && tr[k].nodes[v].commitIndex > 0
    ensures exists x :: CommittedTo(tr[k], x, tr[k].nodes[v].commitIndex)
  {
    hide Run, CommittedTo;
    RunKeepsCommit(c, tr, k);
    assert Vouched(tr[k], tr[k].nodes[v].commitIndex);
  }
}
