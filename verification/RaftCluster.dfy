// The cluster as a state machine. Every critical section of every goroutine is one
// step; goroutines interleave freely. Calls may be lost, delayed, delivered late or
// more than once; timers fire at any time.
module RaftCluster {
  import opened RaftTypes
  import opened RaftHandlers

  datatype Option<T> = None | Some(value: T)

  /** The membership: `order[v]` lists the peers of v, each once and never v itself. */
  datatype Config = Config(ids: set<NodeId>, order: map<NodeId, seq<NodeId>>)

  ghost predicate ValidConfig(c: Config) {
    && "" !in c.ids
    && c.order.Keys == c.ids
    && forall v :: v in c.ids ==> PeersOf(c.order[v], c.ids - {v})
  }

  /** No real node is called "": that name means nobody in votedFor. */
  type Membership = c: Config | ValidConfig(c) ghost witness Config({}, map[])

  ghost predicate PeersOf(order: seq<NodeId>, peers: set<NodeId>) {
    && (forall i :: 0 <= i < |order| ==> order[i] in peers)
    && (forall u :: u in peers ==> u in order)
    && (forall i, j :: 0 <= i < j < |order| ==> order[i] != order[j])
  }

  /** One election round. `log` is the candidate's log when the round began, from which
      its requests take the last term and index. */
  datatype Election = Election(node: NodeId, term: int, log: Log)

  /** One Propose call. `prefix` is the leader's log up to and including the new entry. */
  datatype Proposal = Proposal(node: NodeId, term: int, prefix: Log, leaderCommit: int)

  datatype Op = Vote(e: nat) | Append(p: nat) | Beat(node: NodeId, term: int, commit: int)

  /** A goroutine going through its peers: `next` is its place in the order, `pending` the
      call it waits for, `count` its votes or acks, `from` (history) who gave them. */
  datatype Call = Call(op: Op, next: nat, pending: Option<nat>, count: int, from: set<NodeId>, done: bool)

  /** A request that was handed to the transport. */
  datatype Rpc = Rpc(call: nat, op: Op, to: NodeId)

  /** What happened, in order. `nodeTerm` is the node's own term when it promoted itself. */
  datatype Event =
    | Started(e: nat)
    | Answered(rpc: nat, reply: Message)
    | Elected(e: nat, nodeTerm: int, voters: set<NodeId>)
    | Committed(p: nat, ackers: set<NodeId>)

  datatype Cluster = Cluster(
    nodes: map<NodeId, NodeState>,
    elections: seq<Election>,
    proposals: seq<Proposal>,
    calls: seq<Call>,
    sent: seq<Rpc>,
    events: seq<Event>)

  datatype Label =
    | Bump(v: NodeId, term: int)
    | Propose(v: NodeId, payload: string)
    | Campaign(v: NodeId, now: int)
    | Tick(k: nat)
    | Send(k: nat)
    | Return(k: nat, reply: Message, now: int)
    | Fail(k: nat)
    | Finish(k: nat, now: int)
    | Deliver(r: nat, now: int)

  ghost predicate OpOk(c: Membership, s: Cluster, op: Op) {
    match op
    case Vote(e) => e < |s.elections|
    case Append(p) => p < |s.proposals|
    case Beat(v, _, _) => v in c.ids
  }

  ghost predicate CallOk(c: Membership, s: Cluster, call: Call)
    requires RecordsOk(c, s)
  {
    && OpOk(c, s, call.op)
    && call.next <= |c.order[OpNode(c, s, call.op)]|
    && (call.pending.Some? ==> call.pending.value < |s.sent| && call.next < |c.order[OpNode(c, s, call.op)]|)
  }

  ghost predicate EventOk(s: Cluster, ev: Event) {
    match ev
    case Started(e) => e < |s.elections|
    case Answered(r, reply) =>
      r < |s.sent| && if s.sent[r].op.Vote? then reply.VoteResponse? else reply.AppendResult?
    case Elected(e, _, _) => e < |s.elections|
    case Committed(p, _) => p < |s.proposals|
  }

  ghost predicate RecordsOk(c: Membership, s: Cluster) {
    && (forall e :: 0 <= e < |s.elections| ==> s.elections[e].node in c.ids)
    && (forall p :: 0 <= p < |s.proposals| ==> s.proposals[p].node in c.ids && s.proposals[p].prefix != [])
  }

  /** A request goes to a member other than its sender. */
  ghost predicate RpcOk(c: Membership, s: Cluster, rpc: Rpc)
    requires RecordsOk(c, s)
  {
    OpOk(c, s, rpc.op) && rpc.to in c.ids && rpc.to != OpNode(c, s, rpc.op)
  }

  /** Every reference inside the state leads somewhere. */
  ghost predicate WF(c: Membership, s: Cluster)
  {
    && s.nodes.Keys == c.ids
    && RecordsOk(c, s)
    && (forall k :: 0 <= k < |s.calls| ==> CallOk(c, s, s.calls[k]))
    && (forall r :: 0 <= r < |s.sent| ==> RpcOk(c, s, s.sent[r]))
    && (forall x :: 0 <= x < |s.events| ==> EventOk(s, s.events[x]))
  }

  ghost function OpNode(c: Membership, s: Cluster, op: Op): (v: NodeId)
    requires RecordsOk(c, s) && OpOk(c, s, op)
    ensures v in c.ids
  {
    match op
    case Vote(e) => s.elections[e].node
    case Append(p) => s.proposals[p].node
    case Beat(v, _, _) => v
  }

  function OpTerm(s: Cluster, op: Op): int
    requires op.Vote? ==> op.e < |s.elections|
    requires op.Append? ==> op.p < |s.proposals|
  {
    match op
    case Vote(e) => s.elections[e].term
    case Append(p) => s.proposals[p].term
    case Beat(_, t, _) => t
  }

  function AppendRequest(p: Proposal): Message
    requires p.prefix != []
  {
    var prev := p.prefix[..|p.prefix| - 1];
    AppendEntries(p.node, p.term, p.node, |prev|, LastTerm(prev), [p.prefix[|prev|]], p.leaderCommit)
  }

  function VoteRequest(e: Election): Message {
    RequestVote(e.node, e.term, e.node, LastTerm(e.log), LastIndex(e.log))
  }

  /** The message an operation sends to each of its peers. */
  function Request(s: Cluster, op: Op): Message
    requires op.Vote? ==> op.e < |s.elections|
    requires op.Append? ==> op.p < |s.proposals| && s.proposals[op.p].prefix != []
  {
    match op
    case Vote(e) => VoteRequest(s.elections[e])
    case Append(p) => AppendRequest(s.proposals[p])
    case Beat(v, t, commit) => AppendEntries(v, t, v, 0, 0, [], commit)
  }

  function Majority(c: Membership, v: NodeId): int
    requires v in c.order
  {
    (|c.order[v]| + 1) / 2 + 1
  }

  /** Does this response add one to the operation's counter? */
  predicate Counts(op: Op, reply: Message) {
    match op
    case Vote(_) => reply.VoteResponse? && reply.voteGranted
    case Append(_) => reply.AppendResult? && reply.success
    case Beat(_, _, _) => false
  }

  ghost predicate Active(s: Cluster, k: nat) {
    k < |s.calls| && !s.calls[k].done
  }

  ghost predicate Enabled(c: Membership, s: Cluster, l: Label)
    requires WF(c, s)
  {
    match l
    case Bump(v, _) => v in c.ids
    case Propose(v, _) => v in c.ids && s.nodes[v].role == Leader
    case Campaign(v, _) => v in c.ids && s.nodes[v].role != Leader
    case Tick(k) =>
      Active(s, k) && s.calls[k].op.Beat? && s.calls[k].pending.None?
      && s.calls[k].next == |c.order[s.calls[k].op.node]|
    case Send(k) =>
      Active(s, k) && s.calls[k].pending.None?
      && s.calls[k].next < |c.order[OpNode(c, s, s.calls[k].op)]|
    case Return(k, reply, _) =>
      Active(s, k) && s.calls[k].pending.Some? && Answered(s.calls[k].pending.value, reply) in s.events
    case Fail(k) => Active(s, k) && s.calls[k].pending.Some?
    case Finish(k, _) =>
      Active(s, k) && !s.calls[k].op.Beat? && s.calls[k].pending.None?
      && s.calls[k].next == |c.order[OpNode(c, s, s.calls[k].op)]|
    case Deliver(r, _) => r < |s.sent|
  }

  function NewCall(op: Op, next: nat): Call {
    Call(op, next, None, 1, {}, false)
  }

  ghost function DoReturn(c: Membership, s: Cluster, k: nat, reply: Message, now: int): Cluster
    requires WF(c, s) && Enabled(c, s, Return(k, reply, now))
  {
    var call := s.calls[k];
    var v := OpNode(c, s, call.op);
    var (n, stepped) := StepDown(s.nodes[v], reply.term, now);
    if reply.term > OpTerm(s, call.op) && stepped then
      s.(nodes := s.nodes[v := n], calls := s.calls[k := call.(pending := None, done := true)])
    else
      s.(calls := s.calls[k := call.(
                                next := call.next + 1,
                                pending := None,
                                count := call.count + (if Counts(call.op, reply) then 1 else 0),
                                from := call.from + (if Counts(call.op, reply) then {c.order[v][call.next]} else {}))])
  }

  ghost function DoFinish(c: Membership, s: Cluster, k: nat, now: int): Cluster
    requires WF(c, s) && Enabled(c, s, Finish(k, now))
  {
    var call := s.calls[k];
    var v := OpNode(c, s, call.op);
    var n := s.nodes[v];
    var won := call.count >= Majority(c, v);
    var calls := s.calls[k := call.(done := true)];
    if call.op.Vote? then
      var s1 := s.(nodes := s.nodes[v := FinishElection(n, v, won, now)], calls := calls);
      if won then
        s1.(calls := calls + [NewCall(Beat(v, s.elections[call.op.e].term, 0), |c.order[v]|)],
            events := s.events + [Elected(call.op.e, n.term, call.from + {v})])
      else s1
    else if won then
      s.(nodes := s.nodes[v := ProposeCommit(n, |s.proposals[call.op.p].prefix|)], calls := calls,
         events := s.events + [Committed(call.op.p, call.from + {v})])
    else s.(calls := calls)
  }

  ghost function Do(c: Membership, s: Cluster, l: Label): Cluster
    requires WF(c, s) && Enabled(c, s, l)
  {
    match l
    case Bump(v, term) => s.(nodes := s.nodes[v := BumpTerm(s.nodes[v], term)])
    case Propose(v, payload) =>
      var n := ProposeAppend(s.nodes[v], payload);
      s.(nodes := s.nodes[v := n],
         proposals := s.proposals + [Proposal(v, n.term, n.log, n.commitIndex)],
         calls := s.calls + [NewCall(Append(|s.proposals|), 0)])
    case Campaign(v, now) =>
      var n := StartElection(s.nodes[v], v, now);
      s.(nodes := s.nodes[v := n],
         elections := s.elections + [Election(v, n.term, n.log)],
         calls := s.calls + [NewCall(Vote(|s.elections|), 0)],
         events := s.events + [Started(|s.elections|)])
    case Tick(k) =>
      var call := s.calls[k];
      var n := s.nodes[call.op.node];
      if n.role != Leader || n.term != call.op.term then s.(calls := s.calls[k := call.(done := true)])
      else s.(calls := s.calls[k := call.(op := call.op.(commit := n.commitIndex), next := 0)])
    case Send(k) =>
      var call := s.calls[k];
      s.(sent := s.sent + [Rpc(k, call.op, c.order[OpNode(c, s, call.op)][call.next])],
         calls := s.calls[k := call.(pending := Some(|s.sent|))])
    case Return(k, reply, now) => DoReturn(c, s, k, reply, now)
    case Fail(k) =>
      s.(calls := s.calls[k := s.calls[k].(next := s.calls[k].next + 1, pending := None)])
    case Finish(k, now) => DoFinish(c, s, k, now)
    case Deliver(r, now) =>
      var v := s.sent[r].to;
      var (n, reply) := Dispatch(s.nodes[v], Request(s, s.sent[r].op), now);
      s.(nodes := s.nodes[v := n], events := s.events + [Answered(r, reply)])
  }

  ghost predicate Init(c: Membership, s: Cluster) {
    && s.nodes.Keys == c.ids
    && (forall v :: v in c.ids ==> exists now :: s.nodes[v] == NewNode(now))
    && s.elections == [] && s.proposals == [] && s.calls == [] && s.sent == [] && s.events == []
  }

  ghost predicate Step(c: Membership, s: Cluster, l: Label, s': Cluster)
  {
    WF(c, s) && Enabled(c, s, l) && s' == Do(c, s, l)
  }

  ghost predicate Next(c: Membership, s: Cluster, s': Cluster)
  {
    exists l :: Step(c, s, l, s')
  }

  ghost predicate Run(c: Membership, tr: seq<Cluster>)
  {
    && tr != [] && Init(c, tr[0])
    && forall i {:trigger Next(c, tr[i], tr[i + 1])} :: 0 <= i < |tr| - 1 ==> Next(c, tr[i], tr[i + 1])
  }

  /** No step is ever blocked by a dangling reference. */
  lemma StepKeepsWF(c: Membership, s: Cluster, l: Label, s': Cluster)
    requires Step(c, s, l, s')
    ensures WF(c, s')
  {
    if l.Return? { hide *; ReturnKeepsWF(c, s, l, s'); }
    else if l.Finish? { hide *; FinishKeepsWF(c, s, l, s'); }
    else if l.Send? || l.Deliver? { hide *; MessageKeepsWF(c, s, l, s'); }
    else if l.Tick? || l.Fail? || l.Bump? { hide *; SmallStepKeepsWF(c, s, l, s'); }
    else { hide *; StartKeepsWF(c, s, l, s'); }
  }

  lemma StartKeepsWF(c: Membership, s: Cluster, l: Label, s': Cluster)
    requires Step(c, s, l, s') && (l.Propose? || l.Campaign?)
    ensures WF(c, s')
  {
  }

  lemma SmallStepKeepsWF(c: Membership, s: Cluster, l: Label, s': Cluster)
    requires Step(c, s, l, s') && (l.Tick? || l.Fail? || l.Bump?)
    ensures WF(c, s')
  {
  }

  lemma MessageKeepsWF(c: Membership, s: Cluster, l: Label, s': Cluster)
    requires Step(c, s, l, s') && (l.Send? || l.Deliver?)
    ensures WF(c, s')
  {
  }

  lemma ReturnKeepsWF(c: Membership, s: Cluster, l: Label, s': Cluster)
    requires Step(c, s, l, s') && l.Return?
    ensures WF(c, s')
  {
  }

  lemma FinishKeepsWF(c: Membership, s: Cluster, l: Label, s': Cluster)
    requires Step(c, s, l, s') && l.Finish?
    ensures WF(c, s')
  {
  }
}
