// The node with its eight bug flags, and the eight stage rewrites that take them out.
// A function here has the stage number as its first parameter: the text it uses is the one
// in place after stages 1 to `stage` have been applied (0 is the node as shipped).
module RaftPatches {
  import opened RaftTypes
  import H = RaftHandlers

  datatype Bugs = Bugs(
    fixedElectionTimeout: bool,
    acceptStaleLeader: bool,
    commitOnSingleAck: bool,
    unsafeLogTruncation: bool,
    voteWithoutLogCheck: bool,
    voteWrongComparator: bool,
    noAppendTimerReset: bool,
    noStepDownOnHigher: bool)

  const NoBugs := Bugs(false, false, false, false, false, false, false, false)

  /** The flags that the text after `stage` stages still reads; the others count as off. */
  function Cleared(stage: nat, b: Bugs): Bugs {
    Bugs(b.fixedElectionTimeout && stage < 1, b.acceptStaleLeader && stage < 2,
         b.commitOnSingleAck && stage < 3, b.unsafeLogTruncation && stage < 4,
         b.voteWithoutLogCheck && stage < 5, b.voteWrongComparator && stage < 6,
         b.noAppendTimerReset && stage < 7, b.noStepDownOnHigher && stage < 8)
  }

  /** `draw` is what the node's generator returns for the jitter. */
  function ElectionTimeout(stage: nat, b: Bugs, base: int, jitter: int, draw: int): int {
    if stage >= 1 then
      if jitter <= 0 then base else base + draw
    else
      if b.fixedElectionTimeout then base
      else if jitter <= 0 then base
      else base + draw
  }

  function FinishPropose(stage: nat, b: Bugs, n: NodeState, index: int, acks: int, peers: nat): (NodeState, bool) {
    var majority := (peers + 1) / 2 + 1;
    if stage >= 3 then
      if acks >= majority then (H.ProposeCommit(n, index), true) else (n, false)
    else if b.commitOnSingleAck then
      if acks >= 2 then (n.(commitIndex := index), true) else (n, false)
    else
      if acks >= majority then (H.ProposeCommit(n, index), true) else (n, false)
  }

  function StepDown(stage: nat, b: Bugs, n: NodeState, observed: int, now: int): (NodeState, bool) {
    if observed <= n.term then (n, false)
    else if stage >= 8 then H.StepDown(n, observed, now)
    else if b.noStepDownOnHigher then (n, false)
    else H.StepDown(n, observed, now)
  }

  predicate CandidateUpToDate(stage: nat, b: Bugs, candTerm: int, candIndex: int, localTerm: int, localIndex: int) {
    if stage >= 6 then
      if candTerm != localTerm then candTerm > localTerm else candIndex >= localIndex
    else
      if b.voteWrongComparator then candIndex >= localIndex
      else if candTerm != localTerm then candTerm > localTerm
      else candIndex >= localIndex
  }

  predicate Grants(stage: nat, b: Bugs, n: NodeState, req: Message)
    requires req.RequestVote?
  {
    var grant := n.votedFor == "" || n.votedFor == req.candidateID;
    var upToDate := CandidateUpToDate(stage, b, req.lastLogTerm, req.lastLogIndex, LastTerm(n.log), LastIndex(n.log));
    if stage >= 5 then
      if grant then upToDate else grant
    else
      if grant && !b.voteWithoutLogCheck then upToDate else grant
  }

  function HandleVote(stage: nat, b: Bugs, n: NodeState, req: Message, now: int): (NodeState, Message)
    requires req.RequestVote?
  {
    if req.term < n.term then (n, VoteResponse(n.term, false, "stale term"))
    else
      var m := H.AdoptVoteTerm(n, req.term);
      if Grants(stage, b, m, req)
      then (m.(votedFor := req.candidateID, lastHeartbeat := now), VoteResponse(m.term, true, ""))
      else (m, VoteResponse(m.term, false, ""))
  }

  function MergeEntries(stage: nat, b: Bugs, log: Log, entries: Log): (Log, bool)
    decreases |entries|
  {
    if entries == [] then (log, true)
    else
      var e := entries[0];
      if e.index <= 0 then MergeEntries(stage, b, log, entries[1..])
      else if e.index > |log| + 1 && (stage >= 4 || !b.unsafeLogTruncation) then (log, false)
      else if e.index <= |log| then
        if log[e.index - 1].term != e.term || log[e.index - 1].data != e.data then
          if stage >= 4 then (log[..e.index - 1] + entries, true)
          else if b.unsafeLogTruncation then MergeEntries(stage, b, log[e.index - 1 := e], entries[1..])
          else (log[..e.index - 1] + entries, true)
        else MergeEntries(stage, b, log, entries[1..])
      else MergeEntries(stage, b, log + [e], entries[1..])
  }

  /** The fields after the stale-term check: term and role (unless a stale leader was let
      through), leader and timer. */
  function AdoptLeader(stage: nat, b: Bugs, n: NodeState, req: Message, now: int): NodeState
    requires req.AppendEntries?
  {
    var m := if req.term >= n.term then n.(term := req.term, role := Follower, votedFor := "") else n;
    var k := m.(leaderID := req.leaderID);
    if stage >= 7 then k.(lastHeartbeat := now)
    else if b.noAppendTimerReset then k else k.(lastHeartbeat := now)
  }

  predicate PrevMissing(stage: nat, b: Bugs, n: NodeState, req: Message)
    requires req.AppendEntries?
  {
    req.prevLogIndex > |n.log| && (stage >= 4 || !b.unsafeLogTruncation)
  }

  predicate PrevMismatch(stage: nat, b: Bugs, n: NodeState, req: Message)
    requires req.AppendEntries?
  {
    && 0 < req.prevLogIndex <= |n.log| && n.log[req.prevLogIndex - 1].term != req.prevLogTerm
    && (stage >= 4 || !b.unsafeLogTruncation)
  }

  function HandleAppend(stage: nat, b: Bugs, n: NodeState, req: Message, now: int): (NodeState, Message)
    requires req.AppendEntries?
  {
    if req.term < n.term && (stage >= 2 || !b.acceptStaleLeader) then (n, H.Rejected(n, "stale leader term"))
    else
      var m := AdoptLeader(stage, b, n, req, now);
      if PrevMissing(stage, b, m, req) then (m, H.Rejected(m, "prev log index missing"))
      else if PrevMismatch(stage, b, m, req) then (m, H.Rejected(m, "prev log term mismatch"))
      else
        var (log, ok) := MergeEntries(stage, b, m.log, req.entries);
        var k := m.(log := log);
        if !ok then (k, H.Rejected(k, "log gap in append entries"))
        else
          var a := H.AdvanceCommit(k, req.leaderCommit);
          (a, AppendResult(a.term, true, |a.log|, ""))
  }

  /** With random timeouts (after the first stage, or without the flag) every timeout from
      the base up to the jitter comes out, and no other. */
  lemma TimeoutsSpread(stage: nat, b: Bugs, base: int, jitter: int, timeout: int)
    requires stage >= 1 || !b.fixedElectionTimeout
    ensures (exists draw :: (jitter > 0 ==> 0 <= draw < jitter) && ElectionTimeout(stage, b, base, jitter, draw) == timeout)
            <==> (if jitter > 0 then base <= timeout < base + jitter else timeout == base)
  {
    if jitter > 0 && base <= timeout < base + jitter {
      assert ElectionTimeout(stage, b, base, jitter, timeout - base) == timeout;
    }
    if jitter <= 0 {
      assert ElectionTimeout(stage, b, base, jitter, 0) == base;
    }
  }

  lemma {:induction false} MergeAfterStages(stage: nat, b: Bugs, log: Log, entries: Log)
    ensures MergeEntries(stage, b, log, entries) == MergeEntries(0, Cleared(stage, b), log, entries)
    decreases |entries|
  {
    if entries != [] {
      var e := entries[0];
      MergeAfterStages(stage, b, log, entries[1..]);
      MergeAfterStages(stage, b, log + [e], entries[1..]);
      if 0 < e.index <= |log| {
        MergeAfterStages(stage, b, log[e.index - 1 := e], entries[1..]);
      }
    }
  }

  lemma {:induction false} MergeWithoutBugs(log: Log, entries: Log)
    ensures MergeEntries(0, NoBugs, log, entries) == H.MergeEntries(log, entries)
    decreases |entries|
  {
    if entries != [] {
      MergeWithoutBugs(log, entries[1..]);
      MergeWithoutBugs(log + [entries[0]], entries[1..]);
    }
  }

  /** After any number of stages the node behaves, on every state and message, like the
      shipped node with exactly the flags of those stages switched off. */
  lemma StagesClearFlags(stage: nat, b: Bugs, n: NodeState, now: int, vote: Message, app: Message,
                         observed: int, index: int, acks: int, peers: nat, base: int, jitter: int, draw: int)
    requires vote.RequestVote? && app.AppendEntries?
    ensures var d := Cleared(stage, b);
            && HandleVote(stage, b, n, vote, now) == HandleVote(0, d, n, vote, now)
            && HandleAppend(stage, b, n, app, now) == HandleAppend(0, d, n, app, now)
            && StepDown(stage, b, n, observed, now) == StepDown(0, d, n, observed, now)
            && FinishPropose(stage, b, n, index, acks, peers) == FinishPropose(0, d, n, index, acks, peers)
            && ElectionTimeout(stage, b, base, jitter, draw) == ElectionTimeout(0, d, base, jitter, draw)
  {
    MergeAfterStages(stage, b, n.log, app.entries);
  }

  /** After all eight stages, under any flags, the node is the clean one that the rest of
      this project is about; and so is the shipped node with all flags off. */
  lemma PatchedNodeIsClean(b: Bugs, n: NodeState, now: int, vote: Message, app: Message,
                           observed: int, index: int, acks: int, peers: nat, base: int, jitter: int, draw: int)
    requires vote.RequestVote? && app.AppendEntries?
    ensures HandleVote(8, b, n, vote, now) == HandleVote(0, NoBugs, n, vote, now) == H.HandleVote(n, vote, now)
    ensures HandleAppend(8, b, n, app, now) == HandleAppend(0, NoBugs, n, app, now) == H.HandleAppend(n, app, now)
    ensures StepDown(8, b, n, observed, now) == StepDown(0, NoBugs, n, observed, now) == H.StepDown(n, observed, now)
    ensures FinishPropose(8, b, n, index, acks, peers) == FinishPropose(0, NoBugs, n, index, acks, peers)
    ensures FinishPropose(8, b, n, index, acks, peers) ==
              if acks >= (peers + 1) / 2 + 1 then (H.ProposeCommit(n, index), true) else (n, false)
    ensures ElectionTimeout(8, b, base, jitter, draw) == ElectionTimeout(0, NoBugs, base, jitter, draw)
  {
    StagesClearFlags(8, b, n, now, vote, app, observed, index, acks, peers, base, jitter, draw);
    MergeWithoutBugs(n.log, app.entries);
  }
}
