// The node as the source has it, bug flags included: an object whose methods update its
// fields. Each method is one critical section and is proved equal to its function of the
// old fields; with all flags off these are the functions of RaftHandlers.
module RaftNode {
  import opened RaftTypes
  import H = RaftHandlers
  import P = RaftPatches
  import C = RaftCluster
  import Q = RaftRequests
  import B = RaftBallots

  /** A peer's answer to one call of a round, or None when the call failed; and the fields
      as the other goroutines have left them when it arrives. */
  datatype Arrival = Arrival(reply: C.Option<Message>, fields: NodeState)

  /** This answer ends the round: the node falls back to follower. */
  predicate Interrupts(bugs: P.Bugs, roundTerm: int, a: Arrival) {
    && a.reply.Some? && a.reply.value.term > roundTerm && a.reply.value.term > a.fields.term
    && !bugs.noStepDownOnHigher
  }

  predicate Undisturbed(bugs: P.Bugs, roundTerm: int, arrivals: seq<Arrival>) {
    forall i :: 0 <= i < |arrivals| ==> !Interrupts(bugs, roundTerm, arrivals[i])
  }

  predicate IsPositive(op: C.Op, a: Arrival) {
    a.reply.Some? && C.Counts(op, a.reply.value)
  }

  /** The votes or acknowledgements among the answers. */
  function Positive(op: C.Op, arrivals: seq<Arrival>): set<nat> {
    set i: nat | i < |arrivals| && IsPositive(op, arrivals[i])
  }

  lemma OneMorePositive(op: C.Op, arrivals: seq<Arrival>, k: nat)
    requires k < |arrivals|
    ensures |Positive(op, arrivals[..k + 1])| ==
              |Positive(op, arrivals[..k])| + (if IsPositive(op, arrivals[k]) then 1 else 0)
  {
    hide IsPositive;
    var before, after := Positive(op, arrivals[..k]), Positive(op, arrivals[..k + 1]);
    assert after == before + (if IsPositive(op, arrivals[k]) then {k} else {});
    assert k !in before;
  }

  class Node {
    const id: NodeId
    const bugs: P.Bugs
    var role: Role
    var term: int
    var votedFor: NodeId
    var leaderID: NodeId
    var lastHeartbeat: int
    var log: Log
    var commitIndex: int

    function View(): NodeState
      reads this
    {
      NodeState(role, term, votedFor, leaderID, lastHeartbeat, log, commitIndex)
    }

    constructor (id: NodeId, bugs: P.Bugs, now: int)
      ensures this.id == id && this.bugs == bugs && View() == H.NewNode(now)
      ensures View() == NodeState(Follower, 0, "", "", now, [], 0)
    {
      this.id, this.bugs := id, bugs;
      role, term, votedFor, leaderID := Follower, 0, "", "";
      lastHeartbeat, log, commitIndex := now, [], 0;
    }

    method BumpTerm(newTerm: int)
      modifies this
      ensures View() == H.BumpTerm(old(View()), newTerm)
      ensures View() == if newTerm <= old(term) then old(View())
                        else NodeState(Follower, newTerm, "", old(leaderID), old(lastHeartbeat), old(log), old(commitIndex))
    {
      if newTerm > term {
        term := newTerm;
        role := Follower;
        votedFor := "";
      }
    }

    method MaybeStepDownOnHigherTerm(observed: int, now: int) returns (stepped: bool)
      modifies this
      ensures (View(), stepped) == P.StepDown(0, bugs, old(View()), observed, now)
      ensures stepped == (observed > old(term) && !bugs.noStepDownOnHigher)
      ensures View() == if stepped then NodeState(Follower, observed, "", "", now, old(log), old(commitIndex))
                        else old(View())
    {
      if observed <= term {
        return false;
      }
      if bugs.noStepDownOnHigher {
        return false;
      }
      term := observed;
      role := Follower;
      votedFor := "";
      leaderID := "";
      lastHeartbeat := now;
      return true;
    }

    /** Propose up to the first unlock. Anything but a leader refuses. */
    method BeginPropose(payload: string)
      returns (ok: bool, entry: LogEntry, prevIndex: int, prevTerm: int, leaderTerm: int, leaderCommit: int)
      modifies this
      ensures ok == (old(role) == Leader)
      ensures View() == if ok then H.ProposeAppend(old(View()), payload) else old(View())
      ensures ok ==> entry == H.NewEntry(old(View()), payload) && log == old(log) + [entry]
      ensures ok ==> prevIndex == |old(log)| && prevTerm == LastTerm(old(log))
      ensures ok ==> leaderTerm == old(term) && leaderCommit == old(commitIndex)
      ensures ok ==> AppendEntries(id, leaderTerm, id, prevIndex, prevTerm, [entry], leaderCommit)
                     == Q.Replication(old(View()), id, payload)
    {
      leaderTerm, leaderCommit := term, commitIndex;
      var nextIndex := |log| + 1;
      entry := LogEntry(nextIndex, term, payload);
      prevIndex, prevTerm := nextIndex - 1, 0;
      if role != Leader {
        return false, entry, prevIndex, prevTerm, leaderTerm, leaderCommit;
      }
      if prevIndex > 0 {
        prevTerm := log[prevIndex - 1].term;
      }
      log := log + [entry];
      ok := true;
    }

    /** Propose from the last lock on. */
    method FinishPropose(index: int, acks: int, peers: nat) returns (ok: bool)
      modifies this
      ensures (View(), ok) == P.FinishPropose(0, bugs, old(View()), index, acks, peers)
    {
      var clusterSize := peers + 1;
      var majority := clusterSize / 2 + 1;
      if bugs.commitOnSingleAck {
        if acks >= 2 {
          commitIndex := index;
          return true;
        }
        return false;
      }
      if acks >= majority {
        commitIndex := index;
        return true;
      }
      return false;
    }

    method BeginElection(now: int) returns (currentTerm: int, lastLogTerm: int, lastLogIndex: int)
      modifies this
      ensures View() == H.StartElection(old(View()), id, now)
      ensures currentTerm == old(term) + 1
      ensures lastLogTerm == LastTerm(log) && lastLogIndex == LastIndex(log)
      ensures View() == NodeState(Candidate, currentTerm, id, "", now, old(log), old(commitIndex))
      ensures old(role) != Leader ==>
                Q.Campaigning(old(View()), id, RequestVote(id, currentTerm, id, lastLogTerm, lastLogIndex))
    {
      role := Candidate;
      term := term + 1;
      currentTerm := term;
      lastLogTerm, lastLogIndex := LocalLastLogMeta();
      votedFor := id;
      leaderID := "";
      lastHeartbeat := now;
    }

    method FinishElection(votes: int, peers: nat, now: int) returns (won: bool)
      modifies this
      ensures won == (votes >= (peers + 1) / 2 + 1)
      ensures View() == H.FinishElection(old(View()), id, won, now)
      ensures won ==> View() == NodeState(Leader, old(term), old(votedFor), id, now, old(log), old(commitIndex))
      ensures !won ==> View() == old(View()).(role := Candidate)
    {
      var total := peers + 1;
      var majority := total / 2 + 1;
      if votes >= majority {
        role := Leader;
        leaderID := id;
        lastHeartbeat := now;
        return true;
      }
      role := Candidate;
      return false;
    }

    /** What the other goroutines do while the lock is not held. */
    method Interfere(n: NodeState)
      modifies this
      ensures View() == n
    {
      role, term, votedFor, leaderID := n.role, n.term, n.votedFor, n.leaderID;
      lastHeartbeat, log, commitIndex := n.lastHeartbeat, n.log, n.commitIndex;
    }

    /** The loop of Propose and of runElectionRound over the peers. It stops at the first
        answer that makes the node step down, and otherwise has counted this node and
        every positive answer. */
    method CollectReplies(op: C.Op, roundTerm: int, arrivals: seq<Arrival>, now: int)
      returns (stepped: bool, count: int)
      modifies this
      ensures stepped == !Undisturbed(bugs, roundTerm, arrivals)
      ensures !stepped ==> count == 1 + |Positive(op, arrivals)|
      ensures stepped ==> exists k ::
                && 0 <= k < |arrivals| && Interrupts(bugs, roundTerm, arrivals[k])
                && Undisturbed(bugs, roundTerm, arrivals[..k])
                && View() == NodeState(Follower, arrivals[k].reply.value.term, "", "", now,
                                       arrivals[k].fields.log, arrivals[k].fields.commitIndex)
      ensures !stepped ==>
                View() == if arrivals == [] then old(View()) else arrivals[|arrivals| - 1].fields
    {
      count := 1;
      assert Positive(op, arrivals[..0]) == {};
      for k := 0 to |arrivals|
        invariant Undisturbed(bugs, roundTerm, arrivals[..k])
        invariant count == 1 + |Positive(op, arrivals[..k])|
        invariant View() == if k == 0 then old(View()) else arrivals[k - 1].fields
      {
        OneMorePositive(op, arrivals, k);
        assert arrivals[..k + 1] == arrivals[..k] + [arrivals[k]];
        Interfere(arrivals[k].fields);
        if arrivals[k].reply.None? {
          continue;
        }
        var resp := arrivals[k].reply.value;
        if resp.term > roundTerm {
          var fell := MaybeStepDownOnHigherTerm(resp.term, now);
          if fell {
            return true, count;
          }
        }
        if C.Counts(op, resp) {
          count := count + 1;
        }
      }
      assert arrivals[..|arrivals|] == arrivals;
      return false, count;
    }

    /** A tick of heartbeatLoop. The loop goes on only while the node leads in the loop's term,
        and then its heartbeats carry the commit index as it is now. */
    method HeartbeatTick(loopTerm: int) returns (goOn: bool, leaderCommit: int)
      ensures goOn == (role == Leader && term == loopTerm)
      ensures goOn ==> Q.Beating(View(), id, AppendEntries(id, loopTerm, id, 0, 0, [], leaderCommit))
    {
      if role != Leader || term != loopTerm {
        return false, 0;
      }
      return true, commitIndex;
    }

    /** Propose, with what arrives during it; `last` is how the other goroutines leave the
        fields before the final lock. Without flags it commits exactly when nothing made the
        node step down and this node and the acknowledging peers are a majority; then it
        sets the commit index in whatever state it finds. */
    method Propose(payload: string, arrivals: seq<Arrival>, last: NodeState, now: int) returns (ok: bool)
      modifies this
      ensures old(role) != Leader ==> !ok && View() == old(View())
      ensures old(role) == Leader && bugs == P.NoBugs ==>
                ok == (Undisturbed(bugs, old(term), arrivals)
                       && 1 + |Positive(C.Append(0), arrivals)| >= (|arrivals| + 1) / 2 + 1)
      ensures old(role) == Leader && Undisturbed(bugs, old(term), arrivals) ==>
                (View(), ok) == P.FinishPropose(0, bugs, last, |old(log)| + 1,
                                                1 + |Positive(C.Append(0), arrivals)|, |arrivals|)
      ensures old(role) == Leader && !Undisturbed(bugs, old(term), arrivals) ==>
                !ok && role == Follower && term > old(term)
    {
      var begun, entry, prevIndex, prevTerm, leaderTerm, leaderCommit := BeginPropose(payload);
      if !begun {
        return false;
      }
      var stepped, acks := CollectReplies(C.Append(0), leaderTerm, arrivals, now);
      if stepped {
        return false;
      }
      Interfere(last);
      ok := FinishPropose(entry.index, acks, |arrivals|);
    }

    /** runElectionRound, in the same way: it wins exactly with a majority and without a
        step-down, and then promotes itself in whatever state it finds. */
    method RunElectionRound(arrivals: seq<Arrival>, last: NodeState, now: int) returns (won: bool)
      modifies this
      ensures var t := old(term) + 1;
              && won == (Undisturbed(bugs, t, arrivals)
                         && 1 + |Positive(C.Vote(0), arrivals)| >= (|arrivals| + 1) / 2 + 1)
              && (Undisturbed(bugs, t, arrivals) ==> View() == H.FinishElection(last, id, won, now))
              && (!Undisturbed(bugs, t, arrivals) ==> role == Follower && term > t)
    {
      var currentTerm, lastLogTerm, lastLogIndex := BeginElection(now);
      var stepped, votes := CollectReplies(C.Vote(0), currentTerm, arrivals, now);
      if stepped {
        return false;
      }
      Interfere(last);
      won := FinishElection(votes, |arrivals|, now);
    }

    method LocalLastLogMeta() returns (lastTerm: int, lastIndex: int)
      ensures lastTerm == LastTerm(log) && lastIndex == LastIndex(log)
    {
      if |log| == 0 {
        return 0, 0;
      }
      var last := log[|log| - 1];
      return last.term, last.index;
    }

    method CandidateUpToDate(candTerm: int, candIndex: int, localTerm: int, localIndex: int) returns (ok: bool)
      ensures ok == P.CandidateUpToDate(0, bugs, candTerm, candIndex, localTerm, localIndex)
      ensures ok <==> if !bugs.voteWrongComparator && localTerm != candTerm then localTerm < candTerm
                      else localIndex <= candIndex
    {
      if bugs.voteWrongComparator {
        return candIndex >= localIndex;
      }
      if candTerm != localTerm {
        return candTerm > localTerm;
      }
      return candIndex >= localIndex;
    }

    method HandleRequestVote(req: Message, now: int) returns (resp: Message)
      requires req.RequestVote?
      modifies this
      ensures (View(), resp) == P.HandleVote(0, bugs, old(View()), req, now)
      ensures bugs == P.NoBugs ==> (View(), resp) == H.HandleVote(old(View()), req, now)
      ensures resp.VoteResponse? && resp.term == term
      ensures bugs == P.NoBugs ==>
                (resp.voteGranted <==>
                   && old(term) <= req.term
                   && (old(term) < req.term || old(votedFor) == "" || old(votedFor) == req.candidateID)
                   && (LastTerm(log) < req.lastLogTerm
                       || (LastTerm(log) == req.lastLogTerm && LastIndex(log) <= req.lastLogIndex)))
      ensures resp.voteGranted ==> term == req.term && votedFor == req.candidateID && lastHeartbeat == now
    {
      B.VoteOutcome(View(), req, now);
      if req.term < term {
        return VoteResponse(term, false, "stale term");
      }
      if req.term > term {
        term := req.term;
        role := Follower;
        votedFor := "";
      }
      var grant := votedFor == "" || votedFor == req.candidateID;
      if grant && !bugs.voteWithoutLogCheck {
        var localTerm, localIndex := LocalLastLogMeta();
        var upToDate := CandidateUpToDate(req.lastLogTerm, req.lastLogIndex, localTerm, localIndex);
        if !upToDate {
          grant := false;
        }
      }
      if grant {
        votedFor := req.candidateID;
        lastHeartbeat := now;
      }
      return VoteResponse(term, grant, "");
    }

    /** The loop over req.Entries; false when it stops at a gap. */
    method MergeEntries(entries: Log) returns (ok: bool)
      modifies this`log
      ensures (log, ok) == P.MergeEntries(0, bugs, old(log), entries)
    {
      assert entries[0..] == entries;
      var i := 0;
      while i < |entries|
        invariant 0 <= i <= |entries|
        invariant P.MergeEntries(0, bugs, log, entries[i..]) == P.MergeEntries(0, bugs, old(log), entries)
      {
        var e := entries[i];
        assert entries[i..][0] == e && entries[i..][1..] == entries[i + 1..];
        if e.index <= 0 {
          i := i + 1;
          continue;
        }
        if e.index > |log| + 1 {
          if !bugs.unsafeLogTruncation {
            return false;
          }
        }
        if e.index <= |log| {
          var existing := log[e.index - 1];
          if existing.term != e.term || existing.data != e.data {
            if bugs.unsafeLogTruncation {
              log := log[e.index - 1 := e];
              i := i + 1;
              continue;
            }
            log := log[..e.index - 1] + entries[i..];
            break;
          }
          i := i + 1;
          continue;
        }
        log := log + [e];
        i := i + 1;
      }
      return true;
    }

    method HandleAppendEntries(req: Message, now: int) returns (resp: Message)
      requires req.AppendEntries?
      modifies this
      ensures (View(), resp) == P.HandleAppend(0, bugs, old(View()), req, now)
      ensures bugs == P.NoBugs ==> (View(), resp) == H.HandleAppend(old(View()), req, now)
    {
      P.MergeWithoutBugs(log, req.entries);
      if req.term < term && !bugs.acceptStaleLeader {
        return AppendResult(term, false, |log|, "stale leader term");
      }
      if req.term >= term {
        term := req.term;
        role := Follower;
        votedFor := "";
      }
      leaderID := req.leaderID;
      if !bugs.noAppendTimerReset {
        lastHeartbeat := now;
      }

      if req.prevLogIndex > |log| {
        if !bugs.unsafeLogTruncation {
          return AppendResult(term, false, |log|, "prev log index missing");
        }
      } else if req.prevLogIndex > 0 && log[req.prevLogIndex - 1].term != req.prevLogTerm {
        if !bugs.unsafeLogTruncation {
          return AppendResult(term, false, |log|, "prev log term mismatch");
        }
      }

      var ok := MergeEntries(req.entries);
      if !ok {
        return AppendResult(term, false, |log|, "log gap in append entries");
      }
      if req.leaderCommit > commitIndex {
        commitIndex := Min(req.leaderCommit, |log|);
      }
      return AppendResult(term, true, |log|, "");
    }
  }
}
