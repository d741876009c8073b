// Log matching. Every prefix of every log, ending in an entry of term t, is a prefix that
// some Propose of term t had in its leader's log; with one proposer per term these form a
// chain, so equal terms at equal positions mean equal logs up to there.
module RaftLedger {
  import opened RaftTypes
  import opened RaftHandlers
  import opened RaftAppend
  import opened RaftCluster
  import opened RaftEffects
  import opened RaftShape

  /** Each term has at most one proposing node. */
  ghost predicate OneProposer(s: Cluster) {
    forall p, q :: 0 <= p < |s.proposals| && 0 <= q < |s.proposals|
                   && s.proposals[p].term == s.proposals[q].term ==>
                     s.proposals[p].node == s.proposals[q].node
  }

  ghost predicate InLedger(s: Cluster, prefix: Log) {
    exists p :: 0 <= p < |s.proposals| && s.proposals[p].prefix == prefix
  }

  ghost predicate Ledgered(s: Cluster, log: Log) {
    forall k :: 0 < k <= |log| ==> InLedger(s, log[..k])
  }

  ghost predicate Comparable(a: Log, b: Log) {
    a <= b || b <= a
  }

  ghost predicate ChainInv(s: Cluster) {
    forall p, q :: 0 <= p < |s.proposals| && 0 <= q < |s.proposals|
                   && s.proposals[p].term == s.proposals[q].term ==>
                     Comparable(s.proposals[p].prefix, s.proposals[q].prefix)
  }

  /** A proposer still in the term of its proposal still has the proposed prefix. */
  ghost predicate ProposerKeeps(s: Cluster) {
    forall p :: 0 <= p < |s.proposals| && s.proposals[p].node in s.nodes
                && s.nodes[s.proposals[p].node].term == s.proposals[p].term ==>
                  s.proposals[p].prefix <= s.nodes[s.proposals[p].node].log
  }

  ghost predicate LedgerInv(c: Membership, s: Cluster) {
    && ChainInv(s) && ProposerKeeps(s)
    && (forall v :: v in s.nodes ==> Ledgered(s, s.nodes[v].log))
    && (forall p :: 0 <= p < |s.proposals| ==> Ledgered(s, s.proposals[p].prefix))
    && (forall e :: 0 <= e < |s.elections| ==> Ledgered(s, s.elections[e].log))
  }

  lemma LedgeredStays(s: Cluster, s': Cluster, log: Log)
    requires s.proposals <= s'.proposals && Ledgered(s, log)
    ensures Ledgered(s', log)
  {
    forall k | 0 < k <= |log| ensures InLedger(s', log[..k]) {
      assert InLedger(s, log[..k]);
      var p :| 0 <= p < |s.proposals| && s.proposals[p].prefix == log[..k];
      assert s'.proposals[p].prefix == log[..k];
    }
  }

  /** Two ledgered prefixes whose last entries have the same term are comparable. */
  lemma LedgerMeets(c: Membership, s: Cluster, a: Log, b: Log)
    requires WF(c, s) && ShapeInv(c, s) && ChainInv(s)
    requires a != [] && b != [] && InLedger(s, a) && InLedger(s, b)
    requires a[|a| - 1].term == b[|b| - 1].term
    ensures Comparable(a, b)
  {
    hide Shape;
    var p :| 0 <= p < |s.proposals| && s.proposals[p].prefix == a;
    var q :| 0 <= q < |s.proposals| && s.proposals[q].prefix == b;
    assert ProposalShape(s, s.proposals[p]) && ProposalShape(s, s.proposals[q]);
  }

  lemma SameTermSamePrefix(c: Membership, s: Cluster, a: Log, b: Log, k: nat)
    requires WF(c, s) && ShapeInv(c, s) && ChainInv(s) && Ledgered(s, a) && Ledgered(s, b)
    requires 0 < k <= |a| && k <= |b| && a[k - 1].term == b[k - 1].term
    ensures a[..k] == b[..k]
  {
    hide ShapeInv, WF, ChainInv;
    assert InLedger(s, a[..k]) && InLedger(s, b[..k]);
    LedgerMeets(c, s, a[..k], b[..k]);
  }

  /** What a node's log becomes when it accepts proposal p: p's prefix is now in it, and
      it is unchanged if it held that prefix already, and exactly that prefix otherwise. */
  ghost predicate Accepts(p: Proposal, n: NodeState, now: int)
    requires p.prefix != []
  {
    var (m, r) := HandleAppend(n, AppendRequest(p), now);
    && (!r.success ==> m.log == n.log)
    && (r.success ==> && p.prefix <= m.log && m.log == (if p.prefix <= n.log then n.log else p.prefix)
                      && n.term <= m.term == p.term)
  }

  lemma AgreementAccepts(p: Proposal, n: NodeState, now: int)
    requires p.prefix != [] && Contiguous(p.prefix) && Contiguous(n.log)
    requires var k := |p.prefix| - 1;
             PrevMatches(n.log, AppendRequest(p)) ==> n.log[..k] == p.prefix[..k]
    ensures Accepts(p, n, now)
  {
    var req := AppendRequest(p);
    var k := |p.prefix| - 1;
    var e := p.prefix[k];
    assert p.prefix == p.prefix[..k] + [e];
    AppendOutcome(n, req, now);
    if req.term >= n.term && PrevMatches(n.log, req) {
      if Stands(n.log, [e], k + 1) {
        assert n.log[k..k + 1][0] == e;
        assert n.log[..k + 1] == n.log[..k] + [e];
      } else {
        assert k < |n.log| ==> n.log[k..k + 1] == [n.log[k]];
      }
    }
  }

  lemma AcceptedLog(c: Membership, s: Cluster, p: nat, n: NodeState, now: int)
    requires WF(c, s) && ShapeInv(c, s) && LedgerInv(c, s) && p < |s.proposals|
    requires Ledgered(s, n.log) && Contiguous(n.log)
    ensures Accepts(s.proposals[p], n, now)
  {
    var prefix := s.proposals[p].prefix;
    var k := |prefix| - 1;
    assert ProposalShape(s, s.proposals[p]);
    hide LedgerInv, ShapeInv, WF, ProposalShape, Accepts;
    if k > 0 && PrevMatches(n.log, AppendRequest(s.proposals[p])) {
      assert LastTerm(prefix[..k]) == prefix[k - 1].term;
      PrefixMatches(c, s, p, n.log, k);
    }
    AgreementAccepts(s.proposals[p], n, now);
  }

  lemma PrefixMatches(c: Membership, s: Cluster, p: nat, log: Log, k: nat)
    requires WF(c, s) && ShapeInv(c, s) && LedgerInv(c, s) && p < |s.proposals| && Ledgered(s, log)
    requires 0 < k < |s.proposals[p].prefix| && k <= |log| && log[k - 1].term == s.proposals[p].prefix[k - 1].term
    ensures log[..k] == s.proposals[p].prefix[..k]
  {
    hide ShapeInv, WF, ChainInv, Ledgered;
    SameTermSamePrefix(c, s, log, s.proposals[p].prefix, k);
  }

  lemma DeliverLedgers(c: Membership, s: Cluster, r: nat, now: int)
    requires WF(c, s) && ShapeInv(c, s) && LedgerInv(c, s) && r < |s.sent|
    ensures var u, op := s.sent[r].to, s.sent[r].op;
            var n := s.nodes[u];
            var (m, reply) := Dispatch(n, Request(s, op), now);
            && Ledgered(s, m.log) && n.term <= m.term
            && (m.log != n.log ==> op.Append? && reply.success && m.term == s.proposals[op.p].term)
  {
    DeliverKeepsNodeShape(c, s, r, now);
    var op, n := s.sent[r].op, s.nodes[s.sent[r].to];
    assert OpOk(c, s, op);
    assert Contiguous(n.log);
    hide Shape, InLedger, WF;
    match op
    case Vote(_) =>
    case Beat(_, _, _) => AppendOutcome(n, Request(s, op), now);
    case Append(p) => AcceptedLog(c, s, p, n, now);
  }

  lemma ProposalJoinsChain(c: Membership, s: Cluster, s': Cluster, v: NodeId, entry: LogEntry)
    requires WF(c, s) && ShapeInv(c, s) && LedgerInv(c, s) && NewProposalEffect(c, s, s', v, entry)
    requires OneProposer(s')
    ensures ChainInv(s')
  {
    hide WF, Shape, Ledgered;
    var z := |s.proposals|;
    forall p | 0 <= p < z && s.proposals[p].term == s.nodes[v].term
      ensures s.proposals[p].prefix <= s'.proposals[z].prefix
    {
      assert s'.proposals[p] == s.proposals[p];
      assert s'.proposals[p].node == s'.proposals[z].node;
    }
    assert forall p :: 0 <= p < z ==> s'.proposals[p] == s.proposals[p];
    assert Comparable(s'.proposals[z].prefix, s'.proposals[z].prefix);
  }

  lemma NewPrefixIsLedgered(s: Cluster, s': Cluster, log: Log, entry: LogEntry)
    requires Ledgered(s, log) && s.proposals <= s'.proposals
    requires |s'.proposals| == |s.proposals| + 1 && s'.proposals[|s.proposals|].prefix == log + [entry]
    ensures Ledgered(s', log + [entry])
  {
    LedgeredStays(s, s', log);
    forall k | 0 < k <= |log| + 1 ensures InLedger(s', (log + [entry])[..k]) {
      if k <= |log| {
        assert (log + [entry])[..k] == log[..k];
        assert InLedger(s', log[..k]);
      } else {
        assert (log + [entry])[..k] == log + [entry];
        assert s'.proposals[|s.proposals|].prefix == log + [entry];
      }
    }
  }

  lemma EffectKeepsLogs(c: Membership, s: Cluster, s': Cluster, f: Effect)
    requires WF(c, s) && WF(c, s') && Has(c, s, s', f) && Grows(s, s')
    requires ShapeInv(c, s) && LedgerInv(c, s)
    ensures forall v :: v in s'.nodes ==> Ledgered(s', s'.nodes[v].log)
    ensures forall p :: 0 <= p < |s'.proposals| ==> Ledgered(s', s'.proposals[p].prefix)
    ensures forall e :: 0 <= e < |s'.elections| ==> Ledgered(s', s'.elections[e].log)
  {
    if f.Delivery? { DeliverLedgers(c, s, f.r, f.now); }
    if f.NewProposal? { NewPrefixIsLedgered(s, s', s.nodes[f.v].log, f.entry); }
    hide ShapeInv, WF, Ledgered, ChainInv, ProposerKeeps, Dispatch;
    forall v | v in s'.nodes ensures Ledgered(s', s'.nodes[v].log) {
      if Ledgered(s, s'.nodes[v].log) { LedgeredStays(s, s', s'.nodes[v].log); }
    }
    forall p | 0 <= p < |s'.proposals| ensures Ledgered(s', s'.proposals[p].prefix) {
      if p < |s.proposals| {
        assert s'.proposals[p] == s.proposals[p];
        LedgeredStays(s, s', s.proposals[p].prefix);
      }
    }
    forall e | 0 <= e < |s'.elections| ensures Ledgered(s', s'.elections[e].log) {
      if e < |s.elections| { assert s'.elections[e] == s.elections[e]; }
      LedgeredStays(s, s', s'.elections[e].log);
    }
  }

  lemma EffectKeepsChain(c: Membership, s: Cluster, s': Cluster, f: Effect)
    requires WF(c, s) && WF(c, s') && Has(c, s, s', f) && Grows(s, s')
    requires ShapeInv(c, s) && LedgerInv(c, s) && OneProposer(s')
    ensures ChainInv(s') && ProposerKeeps(s')
  {
    if f.NewProposal? { hide *; ProposalKeepsChain(c, s, s', f); }
    else if f.Delivery? { DeliveryKeepsChain(c, s, s', f.r, f.now); }
    else { hide Ledgered, Shape, OneProposer; }
  }

  lemma ProposalKeepsChain(c: Membership, s: Cluster, s': Cluster, f: Effect)
    requires WF(c, s) && WF(c, s') && Has(c, s, s', f) && f.NewProposal?
    requires ShapeInv(c, s) && LedgerInv(c, s) && OneProposer(s')
    ensures ChainInv(s') && ProposerKeeps(s')
  {
    ProposalJoinsChain(c, s, s', f.v, f.entry);
    hide Ledgered, Shape, OneProposer, ChainInv;
  }

  lemma DeliveryKeepsChain(c: Membership, s: Cluster, s': Cluster, r: nat, now: int)
    requires WF(c, s) && DeliveryEffect(c, s, s', r, now)
    requires ShapeInv(c, s) && LedgerInv(c, s) && OneProposer(s')
    ensures ChainInv(s') && ProposerKeeps(s')
  {
    DeliverLedgers(c, s, r, now);
    assert RpcOk(c, s, s.sent[r]);
    hide Ledgered, Shape, Dispatch;
    forall p | 0 <= p < |s'.proposals| && s'.proposals[p].node in s'.nodes
               && s'.nodes[s'.proposals[p].node].term == s'.proposals[p].term
      ensures s'.proposals[p].prefix <= s'.nodes[s'.proposals[p].node].log
    {
      assert ProposalShape(s, s.proposals[p]);
    }
  }

  lemma EffectKeepsLedger(c: Membership, s: Cluster, s': Cluster, f: Effect)
    requires WF(c, s) && WF(c, s') && Has(c, s, s', f) && Grows(s, s')
    requires ShapeInv(c, s) && LedgerInv(c, s) && OneProposer(s')
    ensures LedgerInv(c, s')
  {
    hide WF, Has, Grows, ShapeInv, OneProposer, ChainInv, ProposerKeeps, Ledgered;
    EffectKeepsLogs(c, s, s', f);
    EffectKeepsChain(c, s, s', f);
  }

  lemma OneProposerBefore(s: Cluster, s': Cluster)
    requires Grows(s, s') && OneProposer(s')
    ensures OneProposer(s)
  {
    forall p, q | 0 <= p < |s.proposals| && 0 <= q < |s.proposals|
                  && s.proposals[p].term == s.proposals[q].term
      ensures s.proposals[p].node == s.proposals[q].node
    {
      assert s'.proposals[p] == s.proposals[p] && s'.proposals[q] == s.proposals[q];
    }
  }

  lemma {:induction false} RunKeepsLedger(c: Membership, tr: seq<Cluster>, k: nat)
    requires Run(c, tr) && k < |tr| && OneProposer(tr[k])
    ensures LedgerInv(c, tr[k])
  {
    if k > 0 {
      hide LedgerInv, ShapeInv, Run, WF, Has, OneProposer;
      RunMoves(c, tr, k - 1);
      OneProposerBefore(tr[k - 1], tr[k]);
      RunKeepsLedger(c, tr, k - 1);
      RunKeepsShape(c, tr, k - 1);
      var f :| Has(c, tr[k - 1], tr[k], f);
      EffectKeepsLedger(c, tr[k - 1], tr[k], f);
    }
  }

  /** Log Matching: if each term has at most one proposing node, two logs that hold the
      same term at the same index are identical up to and including that index. */
  lemma LogMatching(c: Membership, tr: seq<Cluster>, k: nat, v: NodeId, w: NodeId, i: nat)
    requires Run(c, tr) && k < |tr| && OneProposer(tr[k])
    requires v in tr[k].nodes && w in tr[k].nodes
    requires i < |tr[k].nodes[v].log| && i < |tr[k].nodes[w].log|
    ensures tr[k].nodes[v].log[i].term == tr[k].nodes[w].log[i].term <==>
              tr[k].nodes[v].log[..i + 1] == tr[k].nodes[w].log[..i + 1]
  {
    var a, b := tr[k].nodes[v].log, tr[k].nodes[w].log;
    if a[i].term == b[i].term {
      RunKeepsLedger(c, tr, k);
      RunKeepsShape(c, tr, k);
      hide Run, ShapeInv, WF, Ledgered, ChainInv, OneProposer;
      SameTermSamePrefix(c, tr[k], a, b, i + 1);
    } else {
      assert a[..i + 1][i] != b[..i + 1][i];
    }
  }

  /** Follower commit indexes carry no such guarantee by themselves (heartbeats have no
      prev-log check). Two nodes agree on what both consider committed exactly when they hold
      the same term at the last common committed position. */
  lemma CommitsAgreeIff(c: Membership, tr: seq<Cluster>, k: nat, v: NodeId, w: NodeId)
    requires Run(c, tr) && k < |tr| && OneProposer(tr[k])
    requires v in tr[k].nodes && w in tr[k].nodes
    requires var m := Min(tr[k].nodes[v].commitIndex, tr[k].nodes[w].commitIndex);
             1 <= m <= |tr[k].nodes[v].log| && m <= |tr[k].nodes[w].log|
    ensures var m := Min(tr[k].nodes[v].commitIndex, tr[k].nodes[w].commitIndex);
            tr[k].nodes[v].log[..m] == tr[k].nodes[w].log[..m] <==>
              tr[k].nodes[v].log[m - 1].term == tr[k].nodes[w].log[m - 1].term
  {
    var m := Min(tr[k].nodes[v].commitIndex, tr[k].nodes[w].commitIndex);
    LogMatching(c, tr, k, v, w, m - 1);
  }
}
