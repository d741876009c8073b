// What the AppendEntries loop computes, said without the loop.
module RaftAppend {
  import opened RaftTypes
  import opened RaftHandlers

  ghost predicate Contiguous(log: Log) {
    forall k :: 0 <= k < |log| ==> log[k].index == k + 1
  }

  /** entries carry the indexes first, first + 1, ... */
  ghost predicate Consecutive(entries: Log, first: int) {
    forall k :: 0 <= k < |entries| ==> entries[k].index == first + k
  }

  /** entries stand in the log at positions first, first + 1, ... (1-based). */
  ghost predicate Stands(log: Log, entries: Log, first: int)
    requires 1 <= first
  {
    first - 1 + |entries| <= |log| && log[first - 1..first - 1 + |entries|] == entries
  }

  /** The result the loop should have: nothing changes if the entries already stand in the
      log, otherwise everything from `first` on is replaced by them. */
  ghost function Spliced(log: Log, entries: Log, first: int): Log
    requires 1 <= first <= |log| + 1
  {
    if Stands(log, entries, first) then log else log[..first - 1] + entries
  }

  lemma {:induction false} MergeIsSplice(log: Log, entries: Log, first: int)
    requires Contiguous(log) && Consecutive(entries, first)
    requires 1 <= first <= |log| + 1
    ensures MergeEntries(log, entries) == (Spliced(log, entries, first), true)
    decreases |entries|
  {
    if entries == [] {
      assert Stands(log, entries, first);
    } else {
      var e, rest := entries[0], entries[1..];
      assert entries == [e] + rest;
      if first <= |log| {
        if log[first - 1].term == e.term && log[first - 1].data == e.data {
          assert log[first - 1] == e;
          MergeIsSplice(log, rest, first + 1);
          assert log[..first] + rest == log[..first - 1] + entries;
          StandsCons(log, e, rest, first);
        } else {
          assert first - 1 + |entries| <= |log| ==> log[first - 1..first - 1 + |entries|][0] != e;
        }
      } else {
        MergeIsSplice(log + [e], rest, first + 1);
        assert (log + [e])[..first] + rest == log[..first - 1] + entries;
        if rest == [] {
          assert log + [e] == log[..first - 1] + entries;
        }
      }
    }
  }

  lemma StandsCons(log: Log, e: LogEntry, rest: Log, first: int)
    requires 1 <= first <= |log| && log[first - 1] == e
    ensures Stands(log, [e] + rest, first) == Stands(log, rest, first + 1)
  {
    if first + |rest| <= |log| {
      assert log[first - 1..first + |rest|] == [e] + log[first..first + |rest|];
      if log[first - 1..first + |rest|] == [e] + rest {
        assert log[first..first + |rest|] == ([e] + rest)[1..] == rest;
      }
    }
  }

  /** Entries with an index of 0 or less are skipped, so a block may also start there. */
  lemma {:induction false} MergeSkipsNonPositive(log: Log, entries: Log, first: int)
    requires Contiguous(log) && Consecutive(entries, first) && first <= 0
    ensures |entries| <= 1 - first ==> MergeEntries(log, entries) == (log, true)
    ensures |entries| > 1 - first ==>
              MergeEntries(log, entries) == (Spliced(log, entries[1 - first..], 1), true)
    decreases |entries|
  {
    if entries != [] {
      var rest := entries[1..];
      if first < 0 {
        MergeSkipsNonPositive(log, rest, first + 1);
        if |entries| > 1 - first {
          assert rest[-first..] == entries[1 - first..];
        }
      } else {
        MergeIsSplice(log, rest, 1);
        if rest == [] { assert Stands(log, rest, 1); }
      }
    }
  }

  /** A block that starts beyond the end is refused at once and leaves the log alone. */
  lemma MergeGap(log: Log, entries: Log, first: int)
    requires Consecutive(entries, first) && entries != [] && first > |log| + 1
    ensures MergeEntries(log, entries) == (log, false)
  {
  }

  lemma SpliceFacts(log: Log, entries: Log, first: int)
    requires Contiguous(log) && Consecutive(entries, first)
    requires 1 <= first <= |log| + 1
    ensures var m := Spliced(log, entries, first);
            && Contiguous(m)
            && Stands(m, entries, first)
            && m[..first - 1] == log[..first - 1]
  {
    var m := Spliced(log, entries, first);
    if !Stands(log, entries, first) {
      assert m[first - 1..first - 1 + |entries|] == entries;
    }
  }

  /** Entries that already stand in the log, or any leading part of them, arriving late
      (again, out of order, after the log has grown) never truncate or change it. */
  lemma LatePrefixKeepsLog(log: Log, entries: Log, first: int, j: nat)
    requires Contiguous(log) && 1 <= first && Stands(log, entries, first)
    requires j <= |entries|
    ensures MergeEntries(log, entries[..j]) == (log, true)
  {
    var part := entries[..j];
    forall k | 0 <= k < |part| ensures part[k].index == first + k {
      assert part[k] == log[first - 1..first - 1 + |entries|][k];
    }
    assert Stands(log, part, first) by {
      assert log[first - 1..first - 1 + j] == log[first - 1..first - 1 + |entries|][..j];
    }
    MergeIsSplice(log, part, first);
  }

  /** A request whose entries continue its prev index, as every Propose builds it
      (and, with no entries, every heartbeat). */
  ghost predicate WellBuilt(req: Message) {
    req.AppendEntries? && req.prevLogIndex >= 0 && Consecutive(req.entries, req.prevLogIndex + 1)
  }

  ghost predicate PrevMatches(log: Log, req: Message)
    requires req.AppendEntries? && req.prevLogIndex >= 0
  {
    && req.prevLogIndex <= |log|
    && (req.prevLogIndex > 0 ==> log[req.prevLogIndex - 1].term == req.prevLogTerm)
  }

  /** The whole handler on a well built request: when it accepts, what log and commit
      index it leaves, and what a refusal leaves alone. */
  lemma AppendOutcome(n: NodeState, req: Message, now: int)
    requires WellBuilt(req) && Contiguous(n.log)
    ensures var (m, r) := HandleAppend(n, req, now);
            && r.AppendResult? && r.matchIndex == |m.log| && r.term == m.term
            && (r.success <==> req.term >= n.term && PrevMatches(n.log, req))
            && (req.term < n.term ==> m == n)
            && (req.term >= n.term ==>
                  m.term == req.term && m.role == Follower && m.votedFor == "" && m.leaderID == req.leaderID
                  && m.lastHeartbeat == now)
            && (r.rejectReason ==
                  if req.term < n.term then "stale leader term"
                  else if |n.log| < req.prevLogIndex then "prev log index missing"
                  else if !PrevMatches(n.log, req) then "prev log term mismatch" else "")
            && (!r.success ==> m.log == n.log && m.commitIndex == n.commitIndex)
            && (r.success ==>
                  && m.log == Spliced(n.log, req.entries, req.prevLogIndex + 1)
                  && Contiguous(m.log)
                  && m.commitIndex == if req.leaderCommit > n.commitIndex
                                      then Min(req.leaderCommit, |m.log|) else n.commitIndex)
  {
    if req.term >= n.term && PrevMatches(n.log, req) {
      MergeIsSplice(n.log, req.entries, req.prevLogIndex + 1);
      SpliceFacts(n.log, req.entries, req.prevLogIndex + 1);
    }
  }

  /** Delivering an accepted request a second time changes nothing but the timer. */
  lemma SecondDelivery(n: NodeState, req: Message, now: int, later: int)
    requires WellBuilt(req) && Contiguous(n.log)
    requires HandleAppend(n, req, now).1.success
    ensures var (m, r) := HandleAppend(n, req, now);
            HandleAppend(m, req, later) == (m.(lastHeartbeat := later), r)
  {
    var (m, r) := HandleAppend(n, req, now);
    var first := req.prevLogIndex + 1;
    AppendOutcome(n, req, now);
    SpliceFacts(n.log, req.entries, first);
    if req.prevLogIndex > 0 {
      assert m.log[..first - 1][req.prevLogIndex - 1] == n.log[..first - 1][req.prevLogIndex - 1];
    }
    AppendOutcome(m, req, later);
  }

  /** The commit index can be left pointing past the end of the log: truncation does not
      lower it. It stays inside exactly when no conflict cuts the log below it. */
  lemma CommitStaysInsideIff(n: NodeState, req: Message, now: int)
    requires WellBuilt(req) && Contiguous(n.log) && n.commitIndex <= |n.log|
    requires HandleAppend(n, req, now).1.success
    ensures var m := HandleAppend(n, req, now).0;
            m.commitIndex <= |m.log| <==>
              || req.leaderCommit > n.commitIndex
              || n.commitIndex <= req.prevLogIndex + |req.entries|
              || Stands(n.log, req.entries, req.prevLogIndex + 1)
  {
    AppendOutcome(n, req, now);
  }

  lemma CommitPastEndExample()
    ensures var n := NodeState(Follower, 1, "", "", 0, [LogEntry(1, 1, "x"), LogEntry(2, 1, "y")], 2);
            var req := AppendEntries("b", 2, "b", 0, 0, [LogEntry(1, 2, "z")], 0);
            var (m, r) := HandleAppend(n, req, 0);
            WellBuilt(req) && Contiguous(n.log) && r.success && |m.log| == 1 && m.commitIndex == 2
  {
    var n := NodeState(Follower, 1, "", "", 0, [LogEntry(1, 1, "x"), LogEntry(2, 1, "y")], 2);
    var req := AppendEntries("b", 2, "b", 0, 0, [LogEntry(1, 2, "z")], 0);
    AppendOutcome(n, req, 0);
    assert n.log[0..1][0] != req.entries[0];
  }
}
