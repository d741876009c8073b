// Concrete runs of three nodes: why the two conditions of a well-timed run are needed, and
// a well-timed run after which two nodes disagree on a committed entry.
module RaftWitness {
  import opened RaftTypes
  import opened RaftHandlers
  import opened RaftCluster
  import opened RaftEffects
  import opened RaftVotes
  import opened RaftElection

  ghost predicate Reachable(c: Membership, s: Cluster) {
    exists tr :: Run(c, tr) && tr[|tr| - 1] == s
  }

  lemma ReachNext(c: Membership, s: Cluster, l: Label)
    requires Reachable(c, s) && WF(c, s) && Enabled(c, s, l)
    ensures WF(c, Do(c, s, l)) && Reachable(c, Do(c, s, l))
  {
    hide WF, Enabled, Do;
    var s' := Do(c, s, l);
    assert Step(c, s, l, s');
    StepKeepsWF(c, s, l, s');
    var tr :| Run(c, tr) && tr[|tr| - 1] == s;
    var more := tr + [s'];
    forall i | 0 <= i < |more| - 1 ensures Next(c, more[i], more[i + 1]) {
      if i < |tr| - 1 { assert Next(c, tr[i], tr[i + 1]); }
      else { assert Step(c, more[i], l, more[i + 1]); }
    }
    assert Run(c, more);
  }

  const Three := Config({"a", "b", "c"}, map["a" := ["b", "c"], "b" := ["c", "a"], "c" := ["b", "a"]])

  lemma ThreeIsValid()
    ensures ValidConfig(Three)
  {
    assert {"a", "b", "c"} - {"a"} == {"b", "c"};
    assert {"a", "b", "c"} - {"b"} == {"c", "a"};
    assert {"a", "b", "c"} - {"c"} == {"b", "a"};
    assert ["b", "c"][0] == "b" && ["c", "a"][0] == "c" && ["b", "a"][0] == "b";
    assert ["b", "c"][1] == "c" && ["c", "a"][1] == "a" && ["b", "a"][1] == "a";
    assert Three.order["a"] == ["b", "c"] && Three.order["b"] == ["c", "a"] && Three.order["c"] == ["b", "a"];
  }

  /** Call k of node v may send its next request, to u. */
  ghost predicate CanSend(c: Membership, s: Cluster, k: nat, v: NodeId, u: NodeId)
    requires WF(c, s)
  {
    && k < |s.calls| && !s.calls[k].done && s.calls[k].pending == None
    && OpNode(c, s, s.calls[k].op) == v
    && s.calls[k].next < |c.order[v]| && c.order[v][s.calls[k].next] == u && u in s.nodes
  }

  /** Call k sends its next request and gives up on it before it arrives. */
  lemma Lose(c: Membership, s: Cluster, k: nat, v: NodeId, u: NodeId) returns (s': Cluster)
    requires Reachable(c, s) && WF(c, s) && CanSend(c, s, k, v, u)
    ensures Reachable(c, s') && WF(c, s')
    ensures s' == s.(sent := s.sent + [Rpc(k, s.calls[k].op, u)],
                     calls := s.calls[k := s.calls[k].(next := s.calls[k].next + 1, pending := None)])
  {
    hide Reachable, WF;
    ReachNext(c, s, Send(k));
    var s1 := Do(c, s, Send(k));
    ReachNext(c, s1, Fail(k));
    s' := Do(c, s1, Fail(k));
  }

  /** Call k sends its next request, which is handled at once; the answer stays under way. */
  lemma Hit(c: Membership, s: Cluster, k: nat, v: NodeId, u: NodeId) returns (s': Cluster)
    requires Reachable(c, s) && WF(c, s) && CanSend(c, s, k, v, u)
    ensures Reachable(c, s') && WF(c, s')
    ensures var (n, reply) := Dispatch(s.nodes[u], Request(s, s.calls[k].op), 0);
            s' == s.(nodes := s.nodes[u := n], sent := s.sent + [Rpc(k, s.calls[k].op, u)],
                     calls := s.calls[k := s.calls[k].(pending := Some(|s.sent|))],
                     events := s.events + [Answered(|s.sent|, reply)])
  {
    hide Reachable, WF, Dispatch;
    ReachNext(c, s, Send(k));
    var s1 := Do(c, s, Send(k));
    ReachNext(c, s1, Deliver(|s.sent|, 0));
    s' := Do(c, s1, Deliver(|s.sent|, 0));
  }

  /** Call k sends its next vote request, which is granted and answered at once. */
  lemma Ask(c: Membership, s: Cluster, k: nat, v: NodeId, u: NodeId, m: NodeState, reply: Message)
    returns (s': Cluster)
    requires Reachable(c, s) && WF(c, s) && CanSend(c, s, k, v, u) && CanAsk(s, k, u, m, reply)
    ensures Reachable(c, s') && WF(c, s')
    ensures s' == s.(nodes := s.nodes[u := m], sent := s.sent + [Rpc(k, s.calls[k].op, u)],
                     calls := s.calls[k := s.calls[k].(next := s.calls[k].next + 1, pending := None,
                                                       count := s.calls[k].count + 1,
                                                       from := s.calls[k].from + {u})],
                     events := s.events + [Answered(|s.sent|, reply)])
  {
    hide Reachable, WF, HandleVote;
    var s1 := Hit(c, s, k, v, u);
    assert s1.calls[k] == s.calls[k].(pending := Some(|s.sent|));
    assert s1.events[|s.events|] == Answered(|s.sent|, reply);
    ReachNext(c, s1, Return(k, reply, 0));
    s' := Do(c, s1, Return(k, reply, 0));
  }

  lemma Campaigns(c: Membership, s: Cluster, v: NodeId) returns (s': Cluster)
    requires Reachable(c, s) && WF(c, s) && v in c.ids && s.nodes[v].role != Leader
    ensures Reachable(c, s') && WF(c, s')
    ensures Campaigned(s, s', v)
  {
    hide Reachable, WF;
    ReachNext(c, s, Campaign(v, 0));
    s' := Do(c, s, Campaign(v, 0));
  }

  /** A round that has asked everybody and got enough votes. */
  lemma Wins(c: Membership, s: Cluster, k: nat, e: nat, v: NodeId) returns (s': Cluster)
    requires Reachable(c, s) && WF(c, s) && k < |s.calls| && e < |s.elections| && s.elections[e].node == v
    requires s.calls[k].op == Vote(e) && !s.calls[k].done && s.calls[k].pending == None
    requires s.calls[k].next == |c.order[v]| && s.calls[k].count >= Majority(c, v)
    ensures Reachable(c, s') && WF(c, s')
    ensures s' == s.(nodes := s.nodes[v := FinishElection(s.nodes[v], v, true, 0)],
                     calls := s.calls[k := s.calls[k].(done := true)]
                              + [NewCall(Beat(v, s.elections[e].term, 0), |c.order[v]|)],
                     events := s.events + [Elected(e, s.nodes[v].term, s.calls[k].from + {v})])
  {
    hide Reachable, WF;
    ReachNext(c, s, Finish(k, 0));
    s' := Do(c, s, Finish(k, 0));
  }

  const Fresh := NewNode(0)

  ghost const Start: Cluster := Cluster(map["a" := Fresh, "b" := Fresh, "c" := Fresh], [], [], [], [], [])

  lemma StartIsReachable()
    ensures ValidConfig(Three) && WF(Three, Start) && Reachable(Three, Start)
  {
    ThreeIsValid();
    assert Start.nodes.Keys == Three.ids;
    assert forall v :: v in Three.ids ==> Start.nodes[v] == NewNode(0);
    assert Run(Three, [Start]);
    assert [Start][|[Start]| - 1] == Start;
  }

  /** u grants v's next candidacy and becomes m. */
  ghost predicate WouldGrant(s: Cluster, v: NodeId, u: NodeId, m: NodeState)
    requires v in s.nodes && u in s.nodes
  {
    var n := StartElection(s.nodes[v], v, 0);
    HandleVote(s.nodes[u], VoteRequest(Election(v, n.term, n.log)), 0) == (m, VoteResponse(n.term, true, ""))
  }

  ghost predicate Canvassed(s: Cluster, s': Cluster, v: NodeId, u: NodeId, m: NodeState)
    requires v in s.nodes
  {
    var n, e, k := StartElection(s.nodes[v], v, 0), |s.elections|, |s.calls|;
    && s'.nodes == s.nodes[v := n][u := m]
    && s'.elections == s.elections + [Election(v, n.term, n.log)] && s'.proposals == s.proposals
    && s'.calls == s.calls + [Call(Vote(e), 1, None, 2, {u}, false)]
    && s'.sent == s.sent + [Rpc(k, Vote(e), u)]
    && s'.events == s.events + [Started(e), Answered(|s.sent|, VoteResponse(n.term, true, ""))]
  }

  ghost predicate Polled(s: Cluster, s': Cluster, v: NodeId, u: NodeId, w: NodeId, m: NodeState)
    requires v in s.nodes
  {
    var n, e, k := StartElection(s.nodes[v], v, 0), |s.elections|, |s.calls|;
    && s'.nodes == s.nodes[v := n][u := m]
    && s'.elections == s.elections + [Election(v, n.term, n.log)] && s'.proposals == s.proposals
    && s'.calls == s.calls + [Call(Vote(e), 2, None, 2, {u}, false)]
    && s'.sent == s.sent + [Rpc(k, Vote(e), u), Rpc(k, Vote(e), w)]
    && s'.events == s.events + [Started(e), Answered(|s.sent|, VoteResponse(n.term, true, ""))]
  }

  ghost predicate Elects(s: Cluster, s': Cluster, v: NodeId, u: NodeId, w: NodeId, m: NodeState)
    requires v in s.nodes
  {
    var n, e, k := StartElection(s.nodes[v], v, 0), |s.elections|, |s.calls|;
    && s'.nodes == s.nodes[v := FinishElection(n, v, true, 0)][u := m]
    && s'.elections == s.elections + [Election(v, n.term, n.log)] && s'.proposals == s.proposals
    && s'.calls == s.calls + [Call(Vote(e), 2, None, 2, {u}, true), NewCall(Beat(v, n.term, 0), 2)]
    && s'.sent == s.sent + [Rpc(k, Vote(e), u), Rpc(k, Vote(e), w)]
    && s'.events == s.events + [Started(e), Answered(|s.sent|, VoteResponse(n.term, true, "")),
                                        Elected(e, n.term, {u, v})]
  }

  /** v campaigns; u, its first peer, grants. */
  lemma Canvass(c: Membership, s: Cluster, v: NodeId, u: NodeId, m: NodeState) returns (s': Cluster)
    requires Reachable(c, s) && WF(c, s) && v in c.ids && |c.order[v]| == 2 && c.order[v][0] == u
    requires s.nodes[v].role != Leader && u in c.ids && u != v
    requires WouldGrant(s, v, u, m)
    ensures Reachable(c, s') && WF(c, s')
    ensures Canvassed(s, s', v, u, m)
  {
    hide Reachable, HandleVote, WouldGrant, RecordsOk, CallOk, RpcOk, EventOk;
    var s1 := Campaigns(c, s, v);
    CampaignCanAsk(c, s, s1, v, u, m);
    hide *;
    s' := Ask(c, s1, |s.calls|, v, u, m, VoteResponse(s.nodes[v].term + 1, true, ""));
    CanvassFrame(s, s1, s', v, u, m);
  }

  ghost predicate Campaigned(s: Cluster, s1: Cluster, v: NodeId)
    requires v in s.nodes
  {
    var n := StartElection(s.nodes[v], v, 0);
    s1 == s.(nodes := s.nodes[v := n], elections := s.elections + [Election(v, n.term, n.log)],
             calls := s.calls + [NewCall(Vote(|s.elections|), 0)],
             events := s.events + [Started(|s.elections|)])
  }

  /** Call k's next request would be answered positively, with `reply`, by u becoming m. */
  ghost predicate CanAsk(s: Cluster, k: nat, u: NodeId, m: NodeState, reply: Message) {
    && k < |s.calls| && u in s.nodes && s.calls[k].op.Vote? && s.calls[k].op.e < |s.elections|
    && HandleVote(s.nodes[u], VoteRequest(s.elections[s.calls[k].op.e]), 0) == (m, reply)
    && reply.VoteResponse? && reply.voteGranted && reply.term == s.elections[s.calls[k].op.e].term
  }

  lemma CampaignCanAsk(c: Membership, s: Cluster, s1: Cluster, v: NodeId, u: NodeId, m: NodeState)
    requires WF(c, s) && WF(c, s1) && v in c.ids && u in c.ids && u != v && |c.order[v]| == 2 && c.order[v][0] == u
    requires Campaigned(s, s1, v) && WouldGrant(s, v, u, m)
    ensures CanSend(c, s1, |s.calls|, v, u)
    ensures CanAsk(s1, |s.calls|, u, m, VoteResponse(s.nodes[v].term + 1, true, ""))
  {
    hide HandleVote;
  }

  lemma CanvassFrame(s: Cluster, s1: Cluster, s': Cluster, v: NodeId, u: NodeId, m: NodeState)
    requires v in s.nodes && u in s.nodes && Campaigned(s, s1, v)
    requires var k, reply := |s.calls|, VoteResponse(s.nodes[v].term + 1, true, "");
             && CanAsk(s1, k, u, m, reply)
             && s' == s1.(nodes := s1.nodes[u := m], sent := s1.sent + [Rpc(k, s1.calls[k].op, u)],
                          calls := s1.calls[k := s1.calls[k].(next := s1.calls[k].next + 1, pending := None,
                                                             count := s1.calls[k].count + 1,
                                                             from := s1.calls[k].from + {u})],
                          events := s1.events + [Answered(|s1.sent|, reply)])
    ensures Canvassed(s, s', v, u, m)
  {
    hide CanAsk;
    var e, k := |s.elections|, |s.calls|;
    assert s1.calls[k] == NewCall(Vote(e), 0) && {} + {u} == {u};
    assert s'.calls == s.calls + [Call(Vote(e), 1, None, 2, {u}, false)];
  }

  /** Then the request to w, its second peer, is lost. */
  lemma Poll(c: Membership, s: Cluster, v: NodeId, u: NodeId, w: NodeId, m: NodeState) returns (s': Cluster)
    requires Reachable(c, s) && WF(c, s) && v in c.ids && c.order[v] == [u, w] && s.nodes[v].role != Leader
    requires u in c.ids && w in c.ids && u != v
    requires WouldGrant(s, v, u, m)
    ensures Reachable(c, s') && WF(c, s')
    ensures Polled(s, s', v, u, w, m)
  {
    var s1 := Canvass(c, s, v, u, m);
    CanvassedCanSend(c, s, s1, v, u, w, m);
    hide *;
    s' := Lose(c, s1, |s.calls|, v, w);
    PollFrame(s, s1, s', v, u, w, m);
  }

  lemma CanvassedCanSend(c: Membership, s: Cluster, s1: Cluster, v: NodeId, u: NodeId, w: NodeId, m: NodeState)
    requires WF(c, s1) && v in c.ids && w in c.ids && c.order[v] == [u, w]
    requires v in s.nodes && Canvassed(s, s1, v, u, m)
    ensures CanSend(c, s1, |s.calls|, v, w)
  {
    assert s1.calls[|s.calls|] == Call(Vote(|s.elections|), 1, None, 2, {u}, false);
    assert s1.elections[|s.elections|].node == v;
  }

  lemma PollFrame(s: Cluster, s1: Cluster, s': Cluster, v: NodeId, u: NodeId, w: NodeId, m: NodeState)
    requires v in s.nodes && Canvassed(s, s1, v, u, m) && |s.calls| < |s1.calls|
    requires var k := |s.calls|;
             s' == s1.(sent := s1.sent + [Rpc(k, s1.calls[k].op, w)],
                       calls := s1.calls[k := s1.calls[k].(next := s1.calls[k].next + 1, pending := None)])
    ensures Polled(s, s', v, u, w, m)
  {
    var e, k := |s.elections|, |s.calls|;
    assert s1.calls[k] == Call(Vote(e), 1, None, 2, {u}, false);
    assert s'.calls == s.calls + [Call(Vote(e), 2, None, 2, {u}, false)];
  }

  /** The same, and the round is finished: v wins. */
  lemma Elect(c: Membership, s: Cluster, v: NodeId, u: NodeId, w: NodeId, m: NodeState) returns (s': Cluster)
    requires Reachable(c, s) && WF(c, s) && v in c.ids && c.order[v] == [u, w] && s.nodes[v].role != Leader
    requires u in c.ids && w in c.ids && u != v
    requires WouldGrant(s, v, u, m)
    ensures Reachable(c, s') && WF(c, s')
    ensures Elects(s, s', v, u, w, m)
  {
    var e, k := |s.elections|, |s.calls|;
    hide Reachable, WF, HandleVote;
    var s1 := Poll(c, s, v, u, w, m);
    assert s1.calls[k] == Call(Vote(e), 2, None, 2, {u}, false);
    s' := Wins(c, s1, k, e, v);
    assert {u} + {v} == {u, v};
    assert s1.calls[k := s1.calls[k].(done := true)] == s.calls + [Call(Vote(e), 2, None, 2, {u}, true)];
  }

  /** Without (a): b votes for a in term 1, forgets it on a's heartbeat, votes for c. */
  lemma ForgottenVote() returns (s: Cluster)
    ensures ValidConfig(Three) && WF(Three, s) && Reachable(Three, s)
    ensures TimelyPromotion(s) && !NoLateGrant(s)
    ensures s.nodes["a"].role == Leader && s.nodes["c"].role == Leader
    ensures s.nodes["a"].term == 1 && s.nodes["c"].term == 1
  {
    StartIsReachable();
    hide Reachable, WF, ValidConfig;
    var s1 := Elect(Three, Start, "a", "b", "c", Fresh.(term := 1, votedFor := "a"));
    assert s1.calls[1] == NewCall(Beat("a", 1, 0), 2);
    ReachNext(Three, s1, Tick(1));
    var s2 := Do(Three, s1, Tick(1));
    assert s2 == s1.(calls := s1.calls[1 := s1.calls[1].(next := 0)]);
    var s3 := Hit(Three, s2, 1, "a", "b");
    s := Elect(Three, s3, "c", "b", "a", Fresh.(term := 1, votedFor := "c", leaderID := "a"));
    assert s.events[3] == Answered(2, AppendResult(1, true, 0, ""));
    assert Granted(s, 5, "b", 1) && HeardAt(s, 3, "b", s.elections[1].term);
  }

  /** Without (b): a and c win terms 1 and 2, are both moved on to term 5 before they notice,
      and promote themselves there. */
  lemma LatePromotion() returns (s: Cluster)
    ensures ValidConfig(Three) && WF(Three, s) && Reachable(Three, s)
    ensures NoLateGrant(s) && !TimelyPromotion(s)
    ensures s.nodes["a"].role == Leader && s.nodes["c"].role == Leader
    ensures s.nodes["a"].term == 5 && s.nodes["c"].term == 5
  {
    StartIsReachable();
    hide Reachable, WF, ValidConfig;
    var s1 := Poll(Three, Start, "a", "b", "c", Fresh.(term := 1, votedFor := "a"));
    var s2 := Bumps(Three, s1, "c", 1);
    var s3 := Poll(Three, s2, "c", "b", "a", Fresh.(term := 2, votedFor := "c"));
    var s4 := Bumps(Three, s3, "a", 5);
    var s5 := Bumps(Three, s4, "c", 5);
    assert s5.calls == [Call(Vote(0), 2, None, 2, {"b"}, false), Call(Vote(1), 2, None, 2, {"b"}, false)];
    var s6 := Wins(Three, s5, 0, 0, "a");
    s := Wins(Three, s6, 1, 1, "c");
    assert s.events == [Started(0), Answered(0, VoteResponse(1, true, "")),
                        Started(1), Answered(2, VoteResponse(2, true, "")),
                        Elected(0, 5, {"b"} + {"a"}), Elected(1, 5, {"b"} + {"c"})];
    assert s.events[4].nodeTerm != s.elections[0].term;
  }

  lemma Bumps(c: Membership, s: Cluster, v: NodeId, term: int) returns (s': Cluster)
    requires Reachable(c, s) && WF(c, s) && v in c.ids
    ensures Reachable(c, s') && WF(c, s')
    ensures s' == s.(nodes := s.nodes[v := BumpTerm(s.nodes[v], term)])
  {
    hide Reachable, WF;
    ReachNext(c, s, Bump(v, term));
    s' := Do(c, s, Bump(v, term));
  }

  /** An append of call k to u succeeds and its answer is counted. */
  lemma Ack(c: Membership, s: Cluster, k: nat, v: NodeId, u: NodeId, m: NodeState, reply: Message)
    returns (s': Cluster)
    requires Reachable(c, s) && WF(c, s) && CanSend(c, s, k, v, u) && s.calls[k].op.Append?
    requires Dispatch(s.nodes[u], Request(s, s.calls[k].op), 0) == (m, reply)
    requires reply.AppendResult? && reply.success && reply.term == OpTerm(s, s.calls[k].op)
    ensures Reachable(c, s') && WF(c, s')
    ensures s' == s.(nodes := s.nodes[u := m], sent := s.sent + [Rpc(k, s.calls[k].op, u)],
                     calls := s.calls[k := s.calls[k].(next := s.calls[k].next + 1, pending := None,
                                                       count := s.calls[k].count + 1,
                                                       from := s.calls[k].from + {u})],
                     events := s.events + [Answered(|s.sent|, reply)])
  {
    hide Reachable, WF, Dispatch;
    var s1 := Hit(c, s, k, v, u);
    assert s1.calls[k] == s.calls[k].(pending := Some(|s.sent|));
    assert s1.events[|s.events|] == Answered(|s.sent|, reply);
    ReachNext(c, s1, Return(k, reply, 0));
    s' := Do(c, s1, Return(k, reply, 0));
  }

  lemma Proposes(c: Membership, s: Cluster, v: NodeId, payload: string) returns (s': Cluster)
    requires Reachable(c, s) && WF(c, s) && v in c.ids && s.nodes[v].role == Leader
    ensures Reachable(c, s') && WF(c, s')
    ensures var n := ProposeAppend(s.nodes[v], payload);
            s' == s.(nodes := s.nodes[v := n],
                     proposals := s.proposals + [Proposal(v, n.term, n.log, n.commitIndex)],
                     calls := s.calls + [NewCall(Append(|s.proposals|), 0)])
  {
    hide Reachable, WF;
    ReachNext(c, s, Propose(v, payload));
    s' := Do(c, s, Propose(v, payload));
  }

  lemma Commits(c: Membership, s: Cluster, k: nat, p: nat, v: NodeId) returns (s': Cluster)
    requires Reachable(c, s) && WF(c, s) && k < |s.calls| && p < |s.proposals| && s.proposals[p].node == v
    requires s.calls[k].op == Append(p) && !s.calls[k].done && s.calls[k].pending == None
    requires s.calls[k].next == |c.order[v]| && s.calls[k].count >= Majority(c, v)
    ensures Reachable(c, s') && WF(c, s')
    ensures s' == s.(nodes := s.nodes[v := s.nodes[v].(commitIndex := |s.proposals[p].prefix|)],
                     calls := s.calls[k := s.calls[k].(done := true)],
                     events := s.events + [Committed(p, s.calls[k].from + {v})])
  {
    hide Reachable, WF;
    ReachNext(c, s, Finish(k, 0));
    s' := Do(c, s, Finish(k, 0));
  }

  lemma Ticks(c: Membership, s: Cluster, k: nat, v: NodeId, commit: int) returns (s': Cluster)
    requires Reachable(c, s) && WF(c, s) && v in c.ids && k < |s.calls|
    requires s.calls[k] == NewCall(Beat(v, s.nodes[v].term, commit), |c.order[v]|) && s.nodes[v].role == Leader
    ensures Reachable(c, s') && WF(c, s')
    ensures s' == s.(calls := s.calls[k := NewCall(Beat(v, s.nodes[v].term, s.nodes[v].commitIndex), 0)])
  {
    hide Reachable, WF;
    ReachNext(c, s, Tick(k));
    s' := Do(c, s, Tick(k));
  }

  const X := LogEntry(1, 1, "x")
  const Y := LogEntry(1, 2, "y")

  /** a leads term 1 and holds x; b leads term 2, elected by c, and holds y. */
  ghost predicate BothProposed(s: Cluster) {
    && s.nodes == map["a" := NodeState(Leader, 1, "a", "a", 0, [X], 0),
                      "b" := NodeState(Leader, 2, "b", "b", 0, [Y], 0),
                      "c" := NodeState(Follower, 2, "b", "", 0, [], 0)]
    && s.elections == [Election("a", 1, []), Election("b", 2, [])]
    && s.proposals == [Proposal("a", 1, [X], 0), Proposal("b", 2, [Y], 0)]
    && |s.calls| == 6 && s.calls[4] == NewCall(Beat("b", 2, 0), 2) && s.calls[5] == NewCall(Append(1), 0)
    && s.sent == [Rpc(0, Vote(0), "b"), Rpc(0, Vote(0), "c"), Rpc(3, Vote(1), "c"), Rpc(3, Vote(1), "a")]
    && s.events == [Started(0), Answered(0, VoteResponse(1, true, "")), Elected(0, 1, {"b", "a"}),
                    Started(1), Answered(2, VoteResponse(2, true, "")), Elected(1, 2, {"c", "b"})]
  }

  lemma ReachBothProposed() returns (s: Cluster)
    ensures ValidConfig(Three) && WF(Three, s) && Reachable(Three, s) && BothProposed(s)
  {
    StartIsReachable();
    hide Reachable, WF, ValidConfig;
    var s1 := Elect(Three, Start, "a", "b", "c", Fresh.(term := 1, votedFor := "a"));
    var s2 := Proposes(Three, s1, "a", "x");
    assert s2.nodes["a"] == NodeState(Leader, 1, "a", "a", 0, [X], 0);
    assert s2.nodes["b"] == Fresh.(term := 1, votedFor := "a");
    var s3 := Elect(Three, s2, "b", "c", "a", Fresh.(term := 2, votedFor := "b"));
    s := Proposes(Three, s3, "b", "y");
    assert s.nodes["b"] == NodeState(Leader, 2, "b", "b", 0, [Y], 0);
  }

  /** From there: c acknowledges y, b commits it, and b's next heartbeat makes a take its
      own, different entry at that position for committed. */
  lemma CommittedDivergence() returns (s: Cluster)
    ensures ValidConfig(Three) && WF(Three, s) && Reachable(Three, s) && WellTimed(s)
    ensures s.nodes["a"].commitIndex == 1 && s.nodes["b"].commitIndex == 1
    ensures s.nodes["a"].log == [X] && s.nodes["b"].log == [Y]
  {
    var s0 := ReachBothProposed();
    hide Reachable, WF, ValidConfig;
    assert s0.proposals[1].prefix[..0] == [];
    assert Request(s0, Append(1)) == AppendEntries("b", 2, "b", 0, 0, [Y], 0);
    assert [] + [Y] == [Y] && [Y][1..] == [];
    assert MergeEntries([], [Y]) == MergeEntries([Y], []);
    var s1 := Ack(Three, s0, 5, "b", "c", NodeState(Follower, 2, "", "b", 0, [Y], 0), AppendResult(2, true, 1, ""));
    var s2 := Lose(Three, s1, 5, "b", "a");
    var s3 := Commits(Three, s2, 5, 1, "b");
    var s4 := Ticks(Three, s3, 4, "b", 0);
    var s5 := Lose(Three, s4, 4, "b", "c");
    s := Hit(Three, s5, 4, "b", "a");
    assert s.events == s0.events + [Answered(4, AppendResult(2, true, 1, "")), Committed(1, s2.calls[5].from + {"b"}),
                                    Answered(7, AppendResult(2, true, 1, ""))];
    EndIsWellTimed(s0, s);
  }

  lemma EndIsWellTimed(s0: Cluster, s: Cluster)
    requires BothProposed(s0) && s.elections == s0.elections && s0.sent <= s.sent
    requires |s.events| == 9 && s.events[..6] == s0.events && s.events[7].Committed?
    requires s.events[6].Answered? && s.events[6].reply.AppendResult?
    requires s.events[8].Answered? && s.events[8].reply.AppendResult?
    ensures WellTimed(s)
  {
    assert forall i :: 0 <= i < 6 ==> s.events[i] == s0.events[i];
    assert forall y, u, t :: HeardAt(s, y, u, t) ==> y >= 6;
    assert forall z, u, e: nat :: Granted(s, z, u, e) ==> z < 6;
  }
}
