// Every critical section of a node with all bug flags off, as a function from the
// old field values to the new ones (and the response, where there is one). A time
// that the source reads from the clock is the parameter `now`.
module RaftHandlers {
  import opened RaftTypes

  function NewNode(now: int): NodeState {
    NodeState(Follower, 0, "", "", now, [], 0)
  }

  function BumpTerm(n: NodeState, term: int): NodeState {
    if term > n.term then n.(term := term, role := Follower, votedFor := "") else n
  }

  /** maybeStepDownOnHigherTerm: the new state, and whether the node stepped down. */
  function StepDown(n: NodeState, observed: int, now: int): (NodeState, bool) {
    if observed <= n.term then (n, false)
    else (n.(term := observed, role := Follower, votedFor := "", leaderID := "", lastHeartbeat := now), true)
  }

  function NewEntry(n: NodeState, payload: string): LogEntry {
    LogEntry(|n.log| + 1, n.term, payload)
  }

  /** The first critical section of Propose, on a leader. */
  function ProposeAppend(n: NodeState, payload: string): NodeState {
    n.(log := n.log + [NewEntry(n, payload)])
  }

  /** The last critical section of Propose, once a majority has acknowledged. */
  function ProposeCommit(n: NodeState, index: int): NodeState {
    n.(commitIndex := index)
  }

  function StartElection(n: NodeState, self: NodeId, now: int): NodeState {
    n.(role := Candidate, term := n.term + 1, votedFor := self, leaderID := "", lastHeartbeat := now)
  }

  /** The last critical section of an election round. */
  function FinishElection(n: NodeState, self: NodeId, won: bool, now: int): NodeState {
    if won then n.(role := Leader, leaderID := self, lastHeartbeat := now)
    else n.(role := Candidate)
  }

  predicate CandidateUpToDate(candidateTerm: int, candidateIndex: int, localTerm: int, localIndex: int) {
    if candidateTerm != localTerm then candidateTerm > localTerm else candidateIndex >= localIndex
  }

  function AdoptVoteTerm(n: NodeState, term: int): NodeState {
    if term > n.term then n.(term := term, role := Follower, votedFor := "") else n
  }

  predicate Grants(n: NodeState, req: Message)
    requires req.RequestVote?
  {
    && (n.votedFor == "" || n.votedFor == req.candidateID)
    && CandidateUpToDate(req.lastLogTerm, req.lastLogIndex, LastTerm(n.log), LastIndex(n.log))
  }

  function HandleVote(n: NodeState, req: Message, now: int): (NodeState, Message)
    requires req.RequestVote?
  {
    if req.term < n.term then (n, VoteResponse(n.term, false, "stale term"))
    else
      var m := AdoptVoteTerm(n, req.term);
      if Grants(m, req)
      then (m.(votedFor := req.candidateID, lastHeartbeat := now), VoteResponse(m.term, true, ""))
      else (m, VoteResponse(m.term, false, ""))
  }

  /** The loop over req.Entries: the new log, and false when it stops at a gap. */
  function MergeEntries(log: Log, entries: Log): (Log, bool)
    decreases |entries|
  {
    if entries == [] then (log, true)
    else
      var e := entries[0];
      if e.index <= 0 then MergeEntries(log, entries[1..])
      else if e.index > |log| + 1 then (log, false)
      else if e.index <= |log| then
        if log[e.index - 1].term != e.term || log[e.index - 1].data != e.data
        then (log[..e.index - 1] + entries, true)
        else MergeEntries(log, entries[1..])
      else MergeEntries(log + [e], entries[1..])
  }

  function AdoptLeader(n: NodeState, req: Message, now: int): NodeState
    requires req.AppendEntries?
  {
    n.(term := req.term, role := Follower, votedFor := "", leaderID := req.leaderID, lastHeartbeat := now)
  }

  function AdvanceCommit(n: NodeState, leaderCommit: int): NodeState {
    if leaderCommit > n.commitIndex then n.(commitIndex := Min(leaderCommit, |n.log|)) else n
  }

  function Rejected(n: NodeState, reason: string): Message {
    AppendResult(n.term, false, |n.log|, reason)
  }

  function HandleAppend(n: NodeState, req: Message, now: int): (NodeState, Message)
    requires req.AppendEntries?
  {
    if req.term < n.term then (n, Rejected(n, "stale leader term"))
    else
      var m := AdoptLeader(n, req, now);
      if req.prevLogIndex > |m.log| then (m, Rejected(m, "prev log index missing"))
      else if req.prevLogIndex > 0 && m.log[req.prevLogIndex - 1].term != req.prevLogTerm
      then (m, Rejected(m, "prev log term mismatch"))
      else
        var (log, ok) := MergeEntries(m.log, req.entries);
        var k := m.(log := log);
        if !ok then (k, Rejected(k, "log gap in append entries"))
        else
          var a := AdvanceCommit(k, req.leaderCommit);
          (a, AppendResult(a.term, true, |a.log|, ""))
  }

  function Dispatch(n: NodeState, req: Message, now: int): (NodeState, Message)
    requires req.RequestVote? || req.AppendEntries?
  {
    if req.RequestVote? then HandleVote(n, req, now) else HandleAppend(n, req, now)
  }
}
