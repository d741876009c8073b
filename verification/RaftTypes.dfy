// The messages and the mutex-protected fields of a Raft node.
module RaftTypes {

  type NodeId = string

  datatype Role = Follower | Candidate | Leader

  datatype LogEntry = LogEntry(index: int, term: int, data: string)

  type Log = seq<LogEntry>

  datatype Message =
    | RequestVote(from: NodeId, term: int, candidateID: NodeId, lastLogTerm: int, lastLogIndex: int)
    | AppendEntries(from: NodeId, term: int, leaderID: NodeId,
                    prevLogIndex: int, prevLogTerm: int, entries: Log, leaderCommit: int)
    | VoteResponse(term: int, voteGranted: bool, rejectReason: string)
    | AppendResult(term: int, success: bool, matchIndex: int, rejectReason: string)

  /** The fields that `Node.mu` protects. A votedFor or leaderID of "" means nobody. */
  datatype NodeState = NodeState(
    role: Role,
    term: int,
    votedFor: NodeId,
    leaderID: NodeId,
    lastHeartbeat: int,
    log: Log,
    commitIndex: int)

  function Min(a: int, b: int): int {
    if a < b then a else b
  }

  function LastTerm(log: Log): int {
    if log == [] then 0 else log[|log| - 1].term
  }

  function LastIndex(log: Log): int {
    if log == [] then 0 else log[|log| - 1].index
  }
}
