// The rounds a node makes through its peers: what an answer adds, when a round succeeds, and
// when a heartbeat loop ends.
module RaftRounds {
  import opened RaftTypes
  import opened RaftHandlers
  import opened RaftCluster
  import opened RaftEffects
  import opened RaftQuorums

  // ----- the majority -----

  /** The majority that a node works with is the least number above half of the members. */
  lemma MajorityIsLeast(c: Membership, v: NodeId)
    requires v in c.ids
    ensures 2 * (Majority(c, v) - 1) <= |c.ids| < 2 * Majority(c, v)
  {
    var order := c.order[v];
    DistinctSize(order);
    assert Elements(order) == c.ids - {v};
  }

  lemma {:induction false} DistinctSize(s: seq<NodeId>)
    requires forall i, j :: 0 <= i < j < |s| ==> s[i] != s[j]
    ensures |Elements(s)| == |s|
  {
    if s != [] {
      var rest := s[..|s| - 1];
      DistinctSize(rest);
      assert s == rest + [s[|s| - 1]];
      assert Elements(s) == Elements(rest) + {s[|s| - 1]};
    }
  }

  // ----- answers and results -----

  /** An answer to a call: one of a higher term than both the call's and the node's ends the
      call and the node falls back; any other is counted exactly if it is positive, for the
      peer that was asked, and the call goes on to the next peer. */
  lemma ReturnOutcome(c: Membership, s: Cluster, k: nat, reply: Message, now: int, s': Cluster)
    requires Step(c, s, Return(k, reply, now), s')
    ensures OpOk(c, s, s.calls[k].op)
    ensures var call, call' := s.calls[k], s'.calls[k];
            var v := OpNode(c, s, call.op);
            var n, peer := s.nodes[v], c.order[v][call.next];
            if OpTerm(s, call.op) < reply.term && n.term < reply.term then
              && s'.nodes == s.nodes[v := NodeState(Follower, reply.term, "", "", now, n.log, n.commitIndex)]
              && call'.done && call'.count == call.count
            else
              && s'.nodes == s.nodes && !call'.done && call'.next == call.next + 1 && call'.pending.None?
              && if (call.op.Vote? && reply.VoteResponse? && reply.voteGranted)
                    || (call.op.Append? && reply.AppendResult? && reply.success)
                 then call'.count == call.count + 1 && call'.from == call.from + {peer}
                 else call'.count == call.count && call'.from == call.from
  {
  }

  /** A call asks the peer at its place, with its own request, and waits. */
  lemma SendOutcome(c: Membership, s: Cluster, k: nat, s': Cluster)
    requires Step(c, s, Send(k), s')
    ensures OpOk(c, s, s.calls[k].op)
    ensures var call := s.calls[k];
            && s'.nodes == s.nodes && s'.events == s.events
            && s'.sent == s.sent + [Rpc(k, call.op, c.order[OpNode(c, s, call.op)][call.next])]
            && s'.calls[k] == call.(pending := Some(|s.sent|))
  {
  }

  /** A call that gives up on a peer goes on to the next one with the same count. */
  lemma FailOutcome(c: Membership, s: Cluster, k: nat, s': Cluster)
    requires Step(c, s, Fail(k), s')
    ensures s'.nodes == s.nodes && s'.sent == s.sent && s'.events == s.events
    ensures var call, call' := s.calls[k], s'.calls[k];
            call'.next == call.next + 1 && call'.pending.None? && !call'.done
            && call'.count == call.count && call'.from == call.from && call'.op == call.op
  {
  }

  /** The end of a round: it succeeds exactly if more than half of all members were counted.
      A winner becomes leader and starts its heartbeats, a proposer commits its entry; a
      loser is a candidate again, and a failed proposal leaves no trace. */
  lemma FinishOutcome(c: Membership, s: Cluster, k: nat, now: int, s': Cluster)
    requires Step(c, s, Finish(k, now), s')
    ensures OpOk(c, s, s.calls[k].op)
    ensures var call := s.calls[k];
            var v := OpNode(c, s, call.op);
            var n := s.nodes[v];
            && s'.calls[k].done && s'.sent == s.sent
            && (call.op.Vote? && 2 * call.count > |c.ids| ==>
                  && s'.nodes == s.nodes[v := n.(role := Leader, leaderID := v, lastHeartbeat := now)]
                  && s'.events == s.events + [Elected(call.op.e, n.term, call.from + {v})]
                  && |s'.calls| == |s.calls| + 1
                  && s'.calls[|s.calls|].op.Beat? && s'.calls[|s.calls|].op.node == v
                  && s'.calls[|s.calls|].op.term == s.elections[call.op.e].term && !s'.calls[|s.calls|].done)
            && (call.op.Vote? && 2 * call.count <= |c.ids| ==>
                  s'.nodes == s.nodes[v := n.(role := Candidate)] && s'.events == s.events)
            && (call.op.Append? && 2 * call.count > |c.ids| ==>
                  && s'.nodes == s.nodes[v := n.(commitIndex := |s.proposals[call.op.p].prefix|)]
                  && s'.events == s.events + [Committed(call.op.p, call.from + {v})])
            && (call.op.Append? && 2 * call.count <= |c.ids| ==> s'.nodes == s.nodes && s'.events == s.events)
  {
    MajorityIsLeast(c, OpNode(c, s, s.calls[k].op));
  }

  // ----- the heartbeat loop -----

  /** A finished call stays finished and sends nothing more. */
  lemma DoneStaysDone(c: Membership, s: Cluster, l: Label, s': Cluster, k: nat)
    requires Step(c, s, l, s') && k < |s.calls| && s.calls[k].done
    ensures k < |s'.calls| && s'.calls[k].done
    ensures forall r :: |s.sent| <= r < |s'.sent| ==> s'.sent[r].call != k
  {
  }

  lemma TickOutcome(c: Membership, s: Cluster, k: nat, s': Cluster)
    requires Step(c, s, Tick(k), s')
    ensures var op := s.calls[k].op; var n := s.nodes[op.node];
            && s'.sent == s.sent && s'.nodes == s.nodes
            && |s'.calls| == |s.calls|
            && (s'.calls[k].done <==> !(n.role == Leader && n.term == op.term))
            && (!s'.calls[k].done ==>
                  s'.calls[k].next == 0 && s'.calls[k].op == Beat(op.node, n.term, n.commitIndex))
  {
  }

  lemma {:induction false} DoneIsForGood(c: Membership, tr: seq<Cluster>, i: nat, j: nat, k: nat)
    requires Run(c, tr) && i <= j < |tr| && k < |tr[i].calls| && tr[i].calls[k].done
    ensures k < |tr[j].calls| && tr[j].calls[k].done
    ensures |tr[i].sent| <= |tr[j].sent|
    ensures forall r :: |tr[i].sent| <= r < |tr[j].sent| ==> tr[j].sent[r].call != k
    decreases j
  {
    hide Run, Step, WF, Has;
    if i < j {
      DoneIsForGood(c, tr, i, j - 1, k);
      var l := RunLabel(c, tr, j - 1);
      var f := RunEffect(c, tr, j - 1);
      DoneStaysDone(c, tr[j - 1], l, tr[j], k);
      assert forall r :: 0 <= r < |tr[j - 1].sent| ==> tr[j].sent[r] == tr[j - 1].sent[r];
    }
  }

  /** In every run, a heartbeat loop whose tick finds its node out of the role or the term
      is over: it never sends again. */
  lemma HeartbeatsEnd(c: Membership, tr: seq<Cluster>, i: nat, j: nat, k: nat)
    requires Run(c, tr) && i < j < |tr| && Step(c, tr[i], Tick(k), tr[i + 1])
    requires var op := tr[i].calls[k].op;
             tr[i].nodes[op.node].role != Leader || tr[i].nodes[op.node].term != op.term
    ensures forall r :: |tr[i].sent| <= r < |tr[j].sent| ==> tr[j].sent[r].call != k
  {
    TickOutcome(c, tr[i], k, tr[i + 1]);
    hide Run, Step, WF;
    DoneIsForGood(c, tr, i + 1, j, k);
  }
}
