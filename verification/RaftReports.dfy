// From the protocol to the oracle: which victory lines a run prints, and what the oracle's
// leader check makes of them.
module RaftReports {
  import opened RaftTypes
  import opened RaftAppend
  import opened RaftCluster
  import opened RaftShape
  import opened RaftVotes
  import opened RaftQuorums
  import opened RaftLedger
  import opened RaftElection
  import opened Text
  import opened Oracle

  /** The line that runElectionRound prints for a victory of this run. */
  ghost predicate VictoryLine(s: Cluster, line: string) {
    exists x, node, t, q :: WonAt(s, x, node, t, q) && line == ElectedLine(node, t, |q|)
  }

  /** The recorded lines: every victory is there, and every line that mentions
      leader_elected is one. */
  ghost predicate Records(s: Cluster, lines: seq<string>) {
    && (forall x, node, t, q :: WonAt(s, x, node, t, q) ==> ElectedLine(node, t, |q|) in lines)
    && (forall e :: e in lines && Contains(e, "leader_elected") ==> VictoryLine(s, e))
  }

  /** Ids hold no white space, and terms fit Go's int. */
  ghost predicate Printable(c: Membership, s: Cluster) {
    && (forall v :: v in c.ids ==> NoSpace(v))
    && (forall e :: 0 <= e < |s.elections| ==> s.elections[e].term < 0x8000_0000_0000_0000)
  }

  ghost predicate Wins(s: Cluster, t: int, node: NodeId) { exists x, q :: WonAt(s, x, node, t, q) }

  lemma WinnersAreMembers(c: Membership, s: Cluster, x: int, node: NodeId, t: int, q: set<NodeId>)
    requires WF(c, s) && ShapeInv(c, s) && WonAt(s, x, node, t, q)
    ensures node in c.ids && node != "" && t > 0
  {
    assert ElectionShape(s, s.elections[s.events[x].e]);
  }

  lemma LineAnnounces(c: Membership, s: Cluster, x: int, node: NodeId, t: int, q: set<NodeId>, u: int, a: string)
    requires WF(c, s) && ShapeInv(c, s) && Printable(c, s) && WonAt(s, x, node, t, q)
    ensures Announces(ElectedLine(node, t, |q|), u, a) <==> u == t && a == node
  {
    WinnersAreMembers(c, s, x, node, t, q);
    hide ShapeInv, WF;
    ElectedLineRoundTrip(node, t, |q|);
  }

  /** The oracle reads out of the lines exactly who won what. */
  lemma LinesShowWinners(c: Membership, s: Cluster, lines: seq<string>, t: int, a: string)
    requires WF(c, s) && ShapeInv(c, s) && Printable(c, s) && Records(s, lines)
    ensures Announced(lines, t, a) <==> Wins(s, t, a)
  {
    hide WF, ShapeInv, Printable, WonAt, ElectedLine;
    if Announced(lines, t, a) {
      var e :| e in lines && Announces(e, t, a);
      assert VictoryLine(s, e);
      var x, node, u, q :| WonAt(s, x, node, u, q) && e == ElectedLine(node, u, |q|);
      LineAnnounces(c, s, x, node, u, q, t, a);
    }
    if Wins(s, t, a) {
      var x, q :| WonAt(s, x, a, t, q);
      LineAnnounces(c, s, x, a, t, q, t, a);
    }
  }

  /** The oracle flags a term exactly when two different nodes won it. */
  lemma OracleSeesDoubleWins(c: Membership, tr: seq<Cluster>, k: nat, lines: seq<string>, t: int)
    requires Run(c, tr) && k < |tr| && Printable(c, tr[k]) && Records(tr[k], lines)
    ensures MultiLeader(lines, t) <==> exists a, b :: Wins(tr[k], t, a) && Wins(tr[k], t, b) && a != b
  {
    RunKeepsShape(c, tr, k);
    hide *;
    forall a ensures Announced(lines, t, a) <==> Wins(tr[k], t, a) {
      LinesShowWinners(c, tr[k], lines, t, a);
    }
    AnnouncedTwice(lines, t);
  }

  lemma AnnouncedTwice(lines: seq<string>, t: int)
    ensures MultiLeader(lines, t) <==> exists a, b :: Announced(lines, t, a) && Announced(lines, t, b) && a != b
  {
    hide Announces;
    if MultiLeader(lines, t) {
      var e, f, a, b :| e in lines && f in lines && Announces(e, t, a) && Announces(f, t, b) && a != b;
      assert Announced(lines, t, a) && Announced(lines, t, b);
    }
    if a, b :| Announced(lines, t, a) && Announced(lines, t, b) && a != b {
      var e :| e in lines && Announces(e, t, a);
      var f :| f in lines && Announces(f, t, b);
    }
  }

  /** So on a run without late grants its leader check never fires. */
  lemma NoLateGrantLooksSafe(c: Membership, tr: seq<Cluster>, k: nat, lines: seq<string>, t: int)
    requires Run(c, tr) && k < |tr| && Printable(c, tr[k]) && Records(tr[k], lines) && NoLateGrant(tr[k])
    ensures !MultiLeader(lines, t)
  {
    OracleSeesDoubleWins(c, tr, k, lines, t);
    if MultiLeader(lines, t) {
      RunKeepsVotes(c, tr, k);
      RunKeepsBacked(c, tr, k);
      RunKeepsStarted(c, tr, k);
      hide Run, WF, Printable, Records, WonAt, VotesInv, BackedInv, StartedInv, NoLateGrant, MultiLeader;
      var a, b :| Wins(tr[k], t, a) && Wins(tr[k], t, b) && a != b;
      var x1, q1 :| WonAt(tr[k], x1, a, t, q1);
      var x2, q2 :| WonAt(tr[k], x2, b, t, q2);
      OneWinner(c, tr[k], x1, a, q1, x2, b, q2, t);
    }
  }

  /** The snapshot that the oracle takes of a node. */
  function SnapshotOf(v: NodeId, n: NodeState): Snapshot {
    Snapshot(v, n.commitIndex, n.log)
  }

  /** In every run, the oracle never finds a log misnumbered. */
  lemma RunsHaveNoBadShape(c: Membership, tr: seq<Cluster>, k: nat, v: NodeId)
    requires Run(c, tr) && k < |tr| && v in c.ids
    ensures v in tr[k].nodes && !BadShape(SnapshotOf(v, tr[k].nodes[v]))
  {
    LogShape(c, tr, k, k, v);
  }

  /** In every run with one proposer a term (so in every well-timed run) the oracle reports a
      divergence between two snapshots exactly if they differ in the term at the last position
      that both take for committed. */
  lemma DivergenceIff(c: Membership, tr: seq<Cluster>, k: nat, v: NodeId, w: NodeId)
    requires Run(c, tr) && k < |tr| && OneProposer(tr[k]) && v in tr[k].nodes && w in tr[k].nodes
    requires var m := Min(tr[k].nodes[v].commitIndex, tr[k].nodes[w].commitIndex);
             1 <= m <= |tr[k].nodes[v].log| && m <= |tr[k].nodes[w].log|
    ensures var a, b := SnapshotOf(v, tr[k].nodes[v]), SnapshotOf(w, tr[k].nodes[w]);
            (exists idx :: DivergesAt(a, b, idx)) <==> a.log[Limit(a, b) - 1].term != b.log[Limit(a, b) - 1].term
  {
    CommitsAgreeIff(c, tr, k, v, w);
    hide Run, OneProposer;
    var a, b := SnapshotOf(v, tr[k].nodes[v]), SnapshotOf(w, tr[k].nodes[w]);
    var m := Limit(a, b);
    if a.log[m - 1].term != b.log[m - 1].term {
      var idx := FirstStop(a, b, 1, m);
      assert DivergesAt(a, b, idx);
    } else {
      forall idx | 1 <= idx <= m ensures AgreeAt(a, b, idx) {
        assert a.log[idx - 1] == a.log[..m][idx - 1] && b.log[idx - 1] == b.log[..m][idx - 1];
      }
    }
  }

  lemma NodeCommitsStayNatural(c: Membership, s: Cluster, l: Label, s': Cluster, v: NodeId)
    requires Step(c, s, l, s') && v in s.nodes && v in s'.nodes && s.nodes[v].commitIndex >= 0
    ensures s'.nodes[v].commitIndex >= 0
  {
  }

  lemma StartsAtZero(c: Membership, tr: seq<Cluster>, v: NodeId)
    requires Run(c, tr) && v in c.ids
    ensures v in tr[0].nodes && tr[0].nodes[v].commitIndex == 0
  {
  }

  lemma {:induction false} CommitsAreNatural(c: Membership, tr: seq<Cluster>, k: nat, v: NodeId)
    requires Run(c, tr) && k < |tr| && v in c.ids
    ensures v in tr[k].nodes && tr[k].nodes[v].commitIndex >= 0
  {
    hide *;
    LogShape(c, tr, k, k, v);
    if k == 0 {
      StartsAtZero(c, tr, v);
    } else {
      CommitsAreNatural(c, tr, k - 1, v);
      var l := RunLabel(c, tr, k - 1);
      NodeCommitsStayNatural(c, tr[k - 1], l, tr[k], v);
    }
  }

  /** What the oracle's findings about one node mean in a run: its commit index is past the end
      of its log; at most half of the logs reach that index. And a log is misnumbered exactly
      if it is not contiguous, which no log of a run is. */
  lemma FindingsMean(c: Membership, tr: seq<Cluster>, k: nat, v: NodeId, snaps: seq<Snapshot>)
    requires Run(c, tr) && k < |tr| && v in c.ids
    ensures v in tr[k].nodes
    ensures var s := SnapshotOf(v, tr[k].nodes[v]);
            && (BadCommit(s) <==> |tr[k].nodes[v].log| < tr[k].nodes[v].commitIndex)
            && (BadShape(s) <==> !Contiguous(s.log)) && !BadShape(s)
            && (Unreplicated(snaps, s) <==> s.commitIndex > 0 && 2 * |HoldersSet(snaps, s.commitIndex)| <= |snaps|)
  {
    CommitsAreNatural(c, tr, k, v);
    RunsHaveNoBadShape(c, tr, k, v);
    HoldersIsCount(snaps, tr[k].nodes[v].commitIndex);
  }
}
