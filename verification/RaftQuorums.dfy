// Counting. The counters of Propose and runElectionRound are plain integers; here they
// are shown to count distinct nodes, so that passing the majority test means a quorum.
module RaftQuorums {
  import opened RaftTypes
  import opened RaftHandlers
  import opened RaftCluster
  import opened RaftEffects
  import opened RaftVotes

  ghost predicate Quorum(c: Membership, q: set<NodeId>) {
    q <= c.ids && 2 * |q| > |c.ids|
  }

  lemma QuorumsMeet(c: Membership, q: set<NodeId>, p: set<NodeId>) returns (u: NodeId)
    requires Quorum(c, q) && Quorum(c, p)
    ensures u in q && u in p
  {
    SubsetSize(q + p, c.ids);
    assert |q + p| == |q| + |p| - |q * p|;
    u :| u in q * p;
  }

  lemma {:induction false} SubsetSize<T>(a: set<T>, b: set<T>)
    requires a <= b
    ensures |a| <= |b|
    decreases |a|
  {
    if a != {} {
      var x :| x in a;
      SubsetSize(a - {x}, b - {x});
    }
  }

  ghost function Elements(s: seq<NodeId>): set<NodeId> {
    set x | x in s
  }

  lemma {:induction false} ElementsSize(s: seq<NodeId>)
    ensures |Elements(s)| <= |s|
  {
    if s != [] {
      var rest := s[..|s| - 1];
      ElementsSize(rest);
      assert s == rest + [s[|s| - 1]];
      assert Elements(s) == Elements(rest) + {s[|s| - 1]};
    }
  }

  /** The majority test, on a set that has as many members as were counted. */
  lemma MajorityIsQuorum(c: Membership, v: NodeId, q: set<NodeId>)
    requires v in c.ids && q <= c.ids && |q| >= Majority(c, v)
    ensures Quorum(c, q)
  {
    ElementsSize(c.order[v]);
    SubsetSize(c.ids - {v}, Elements(c.order[v]));
  }

  /** Event x answers proposal p, sent to u, with success. */
  ghost predicate AckedAt(s: Cluster, x: int, u: NodeId, p: nat) {
    && 0 <= x < |s.events| && s.events[x].Answered? && s.events[x].rpc < |s.sent|
    && s.sent[s.events[x].rpc].op == Append(p) && s.sent[s.events[x].rpc].to == u
    && s.events[x].reply.AppendResult? && s.events[x].reply.success
  }

  ghost predicate Supports(s: Cluster, op: Op, u: NodeId) {
    match op
    case Vote(e) => exists x :: Granted(s, x, u, e)
    case Append(p) => exists x :: AckedAt(s, x, u, p)
    case Beat(_, _, _) => false
  }

  /** A call has counted itself and, among the peers already passed, each supporter once. */
  ghost predicate Tallied(c: Membership, s: Cluster, call: Call, peers: seq<NodeId>)
    requires call.next <= |peers|
  {
    && call.from <= Elements(peers[..call.next])
    && call.count == 1 + |call.from|
    && (forall u :: u in call.from ==> Supports(s, call.op, u))
  }

  ghost predicate PendingOk(s: Cluster, call: Call, peers: seq<NodeId>) {
    call.pending.Some? ==>
      && call.next < |peers| && call.pending.value < |s.sent|
      && s.sent[call.pending.value].op == call.op
      && s.sent[call.pending.value].to == peers[call.next]
  }

  ghost predicate CallInv(c: Membership, s: Cluster, k: nat)
    requires WF(c, s) && k < |s.calls|
  {
    var peers := c.order[OpNode(c, s, s.calls[k].op)];
    && CallOk(c, s, s.calls[k])
    && Tallied(c, s, s.calls[k], peers) && PendingOk(s, s.calls[k], peers)
  }

  ghost predicate TallyInv(c: Membership, s: Cluster)
    requires WF(c, s)
  {
    forall k :: 0 <= k < |s.calls| ==> CallInv(c, s, k)
  }

  lemma SupportStays(s: Cluster, s': Cluster, op: Op, u: NodeId)
    requires Grows(s, s') && Supports(s, op, u)
    ensures Supports(s', op, u)
  {
    match op
    case Vote(e) =>
      var x :| Granted(s, x, u, e);
      assert Granted(s', x, u, e);
    case Append(p) =>
      var x :| AckedAt(s, x, u, p);
      assert AckedAt(s', x, u, p);
  }

  lemma UntouchedCall(c: Membership, s: Cluster, s': Cluster, k: nat)
    requires WF(c, s) && WF(c, s') && Grows(s, s')
    requires k < |s.calls| && k < |s'.calls| && s'.calls[k] == s.calls[k] && CallInv(c, s, k)
    ensures CallInv(c, s', k)
  {
    var call := s.calls[k];
    assert CallOk(c, s, call) && CallOk(c, s', call);
    assert OpNode(c, s', call.op) == OpNode(c, s, call.op);
    forall u | u in call.from ensures Supports(s', call.op, u) {
      SupportStays(s, s', call.op, u);
    }
  }

  /** A peer that answered positively is a new supporter: it was not passed before. */
  lemma ReturnTallies(c: Membership, s: Cluster, k: nat, reply: Message, now: int, s': Cluster)
    requires Step(c, s, Return(k, reply, now), s') && WF(c, s') && CallInv(c, s, k)
    ensures CallInv(c, s', k)
  {
    var call := s.calls[k];
    var v := OpNode(c, s, call.op);
    var peers := c.order[v];
    var r := call.pending.value;
    var x :| 0 <= x < |s.events| && s.events[x] == Answered(r, reply);
    var u := peers[call.next];
    assert s'.events == s.events && s'.sent == s.sent && SameRecords(s, s');
    assert CallOk(c, s', s'.calls[k]);
    if Counts(call.op, reply) {
      assert call.op.Vote? ==> Granted(s', x, u, call.op.e);
      assert call.op.Append? ==> AckedAt(s', x, u, call.op.p);
      assert Supports(s', call.op, u);
    }
    assert u !in peers[..call.next] by {
      forall i | 0 <= i < call.next ensures peers[i] != u { }
    }
    assert u !in call.from;
    TallyMore(peers, call.next);
    forall w | w in call.from ensures Supports(s', call.op, w) { SupportStays(s, s', call.op, w); }
  }

  lemma TallyMore(peers: seq<NodeId>, n: nat)
    requires n < |peers|
    ensures Elements(peers[..n + 1]) == Elements(peers[..n]) + {peers[n]}
  {
    assert peers[..n + 1] == peers[..n] + [peers[n]];
  }

  lemma CallStepTallies(c: Membership, s: Cluster, l: Label, s': Cluster)
    requires Step(c, s, l, s') && WF(c, s') && Grows(s, s')
    requires l.Tick? || l.Send? || l.Return? || l.Fail? || l.Finish?
    requires CallInv(c, s, l.k)
    ensures CallInv(c, s', l.k)
  {
    match l
    case Return(k, reply, now) => ReturnTallies(c, s, k, reply, now, s');
    case Finish(k, now) => FinishTallies(c, s, k, now, s');
    case _ => OtherTallies(c, s, l, s');
  }

  lemma FinishTallies(c: Membership, s: Cluster, k: nat, now: int, s': Cluster)
    requires Step(c, s, Finish(k, now), s') && WF(c, s') && Grows(s, s') && CallInv(c, s, k)
    ensures CallInv(c, s', k)
  {
    var call := s.calls[k];
    assert s'.calls[k] == call.(done := true);
    hide Step;
    assert CallOk(c, s', s'.calls[k]);
    forall u | u in call.from ensures Supports(s', call.op, u) { SupportStays(s, s', call.op, u); }
  }

  lemma OtherTallies(c: Membership, s: Cluster, l: Label, s': Cluster)
    requires Step(c, s, l, s') && WF(c, s') && Grows(s, s') && (l.Tick? || l.Send? || l.Fail?)
    requires CallInv(c, s, l.k)
    ensures CallInv(c, s', l.k)
  {
    var call := s.calls[l.k];
    assert CallOk(c, s', s'.calls[l.k]);
    if l.Fail? { TallyMore(c.order[OpNode(c, s, call.op)], call.next); }
    forall u | u in call.from ensures Supports(s', call.op, u) { SupportStays(s, s', call.op, u); }
  }

  predicate Touches(l: Label, k: nat) {
    (l.Tick? || l.Send? || l.Return? || l.Fail? || l.Finish?) && l.k == k
  }

  /** The only call a step changes is its own; a call it creates starts from scratch. */
  ghost predicate CallsFrame(c: Membership, s: Cluster, l: Label, s': Cluster)
    requires WF(c, s')
  {
    && |s.calls| <= |s'.calls|
    && (forall k :: 0 <= k < |s.calls| && !Touches(l, k) ==> s'.calls[k] == s.calls[k])
    && (forall k :: |s.calls| <= k < |s'.calls| ==>
          s'.calls[k].from == {} && s'.calls[k].count == 1 && s'.calls[k].pending.None?)
  }

  lemma CallsAreFramed(c: Membership, s: Cluster, l: Label, s': Cluster)
    requires Step(c, s, l, s') && WF(c, s')
    ensures CallsFrame(c, s, l, s')
    ensures l.Tick? || l.Send? || l.Return? || l.Fail? || l.Finish? ==> l.k < |s.calls|
  {
  }

  lemma StepKeepsTally(c: Membership, s: Cluster, l: Label, s': Cluster)
    requires Step(c, s, l, s') && WF(c, s') && Grows(s, s') && TallyInv(c, s)
    ensures TallyInv(c, s')
  {
    CallsAreFramed(c, s, l, s');
    hide Step, WF, Grows, CallInv;
    forall k | 0 <= k < |s'.calls| ensures CallInv(c, s', k) {
      if k >= |s.calls| { FreshCall(c, s', k); }
      else if s'.calls[k] == s.calls[k] { UntouchedCall(c, s, s', k); }
      else { CallStepTallies(c, s, l, s'); }
    }
  }

  lemma FreshCall(c: Membership, s: Cluster, k: nat)
    requires WF(c, s) && k < |s.calls|
    requires s.calls[k].from == {} && s.calls[k].count == 1 && s.calls[k].pending.None?
    ensures CallInv(c, s, k)
  {
    assert CallOk(c, s, s.calls[k]);
  }

  lemma {:induction false} RunKeepsTally(c: Membership, tr: seq<Cluster>, k: nat)
    requires Run(c, tr) && k < |tr|
    ensures WF(c, tr[k]) && TallyInv(c, tr[k])
  {
    if k > 0 {
      hide TallyInv, Run, WF, Step, Next, Grows;
      RunKeepsTally(c, tr, k - 1);
      var l := RunLabel(c, tr, k - 1);
      RunMoves(c, tr, k - 1);
      StepKeepsTally(c, tr[k - 1], l, tr[k]);
    }
  }

  lemma RunLabel(c: Membership, tr: seq<Cluster>, k: nat) returns (l: Label)
    requires Run(c, tr) && k + 1 < |tr|
    ensures Step(c, tr[k], l, tr[k + 1])
  {
    hide Step;
    assert Next(c, tr[k], tr[k + 1]);
    l :| Step(c, tr[k], l, tr[k + 1]);
  }

  /** A noted victory or commit names a quorum, every member of which (other than the
      winner or proposer itself) had answered in favour before. */
  ghost predicate BackedAt(c: Membership, s: Cluster, x: int)
    requires WF(c, s) && 0 <= x < |s.events|
  {
    match s.events[x]
    case Elected(e, _, q) =>
      && Quorum(c, q)
      && forall u :: u in q && u != s.elections[e].node ==> exists y :: y < x && Granted(s, y, u, e)
    case Committed(p, q) =>
      && Quorum(c, q)
      && forall u :: u in q && u != s.proposals[p].node ==> exists y :: y < x && AckedAt(s, y, u, p)
    case _ => true
  }

  ghost predicate BackedInv(c: Membership, s: Cluster)
    requires WF(c, s)
  {
    forall x :: 0 <= x < |s.events| ==> BackedAt(c, s, x)
  }

  lemma BackedStays(c: Membership, s: Cluster, s': Cluster, x: int)
    requires WF(c, s) && WF(c, s') && Grows(s, s') && 0 <= x < |s.events| && BackedAt(c, s, x)
    ensures BackedAt(c, s', x)
  {
    assert s'.events[x] == s.events[x] && EventOk(s, s.events[x]);
    match s.events[x]
    case Elected(e, _, q) =>
      forall u | u in q && u != s.elections[e].node ensures exists y :: y < x && Granted(s', y, u, e) {
        var y :| y < x && Granted(s, y, u, e);
        assert Granted(s', y, u, e);
      }
    case Committed(p, q) =>
      forall u | u in q && u != s.proposals[p].node ensures exists y :: y < x && AckedAt(s', y, u, p) {
        var y :| y < x && AckedAt(s, y, u, p);
        assert AckedAt(s', y, u, p);
      }
    case _ =>
  }

  lemma FinishIsBacked(c: Membership, s: Cluster, k: nat, now: int, s': Cluster)
    requires Step(c, s, Finish(k, now), s') && WF(c, s') && CallInv(c, s, k)
    requires |s'.events| > |s.events|
    ensures BackedAt(c, s', |s.events|)
  {
    var call := s.calls[k];
    var v := OpNode(c, s, call.op);
    var x, q := |s.events|, call.from + {v};
    var peers := c.order[v];
    assert call.from <= c.ids - {v} by {
      forall u | u in call.from ensures u in c.ids - {v} { assert u in peers[..call.next]; }
    }
    MajorityIsQuorum(c, v, q);
    forall u | u in q && u != v ensures SupportedBefore(s', x, call.op, u) {
      SupportWasBefore(s, s', call.op, u);
    }
  }

  ghost predicate SupportedBefore(s: Cluster, x: int, op: Op, u: NodeId) {
    match op
    case Vote(e) => exists y :: y < x && Granted(s, y, u, e)
    case Append(p) => exists y :: y < x && AckedAt(s, y, u, p)
    case Beat(_, _, _) => false
  }

  lemma SupportWasBefore(s: Cluster, s': Cluster, op: Op, u: NodeId)
    requires s.events <= s'.events && s.sent <= s'.sent && Supports(s, op, u)
    ensures SupportedBefore(s', |s.events|, op, u)
  {
    match op
    case Vote(e) =>
      var y :| Granted(s, y, u, e);
      assert Granted(s', y, u, e);
    case Append(p) =>
      var y :| AckedAt(s, y, u, p);
      assert AckedAt(s', y, u, p);
  }

  lemma OnlyFinishNotes(c: Membership, s: Cluster, l: Label, s': Cluster)
    requires Step(c, s, l, s') && WF(c, s')
    ensures WF(c, s) && |s.events| <= |s'.events| <= |s.events| + 1
    ensures |s'.events| > |s.events| && !l.Finish? ==> s'.events[|s.events|].Started? || s'.events[|s.events|].Answered?
    ensures l.Finish? ==> l.k < |s.calls|
  {
  }

  lemma StepKeepsBacked(c: Membership, s: Cluster, l: Label, s': Cluster)
    requires Step(c, s, l, s') && WF(c, s') && Grows(s, s') && TallyInv(c, s) && BackedInv(c, s)
    ensures BackedInv(c, s')
  {
    hide Step, WF, Grows, CallInv, BackedAt;
    OnlyFinishNotes(c, s, l, s');
    forall x | 0 <= x < |s'.events| ensures BackedAt(c, s', x) {
      if x < |s.events| { BackedStays(c, s, s', x); }
      else if l.Finish? { FinishIsBacked(c, s, l.k, l.now, s'); }
      else { OthersNeedNoBacking(c, s', x); }
    }
  }

  lemma OthersNeedNoBacking(c: Membership, s: Cluster, x: int)
    requires WF(c, s) && 0 <= x < |s.events| && (s.events[x].Started? || s.events[x].Answered?)
    ensures BackedAt(c, s, x)
  {
  }

  lemma {:induction false} RunKeepsBacked(c: Membership, tr: seq<Cluster>, k: nat)
    requires Run(c, tr) && k < |tr|
    ensures WF(c, tr[k]) && BackedInv(c, tr[k])
  {
    if k > 0 {
      hide BackedInv, TallyInv, Run, WF, Step, Next, Grows;
      RunKeepsBacked(c, tr, k - 1);
      RunKeepsTally(c, tr, k - 1);
      var l := RunLabel(c, tr, k - 1);
      RunMoves(c, tr, k - 1);
      StepKeepsBacked(c, tr[k - 1], l, tr[k]);
    }
  }
}
