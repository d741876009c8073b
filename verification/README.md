# Raft demo, scheduler policy, handshake and safety oracle: a verified model

This project models four parts of the deterministic-scheduler repository in Dafny and proves
properties of the models for every input, every run or every reachable state.

**The Raft demo** (`demos/raftsim/internal/raft`). `RaftNode.Node` is the node as the source
has it: an object whose methods update role, term, vote, leader, log and commit index, with all
eight bug flags. Every critical section is proved equal to a function of the old fields
(`RaftHandlers` with the flags off, `RaftPatches` with them). `RaftCluster` makes a state machine
of these functions: each critical section of each goroutine is one step, steps of all goroutines
interleave freely, timers fire at any moment, and a request handed to the transport may be
handled never, late or any number of times, with its response reaching the call that made it or
getting lost. A state records elections, proposals, calls in progress, requests sent and what
happened in which order, so that a theorem can speak about the whole past. `RaftMembership`
shows that `NewCluster` builds the membership the state machine starts from. The other `Raft*`
files prove invariants over all runs.

Textbook Raft statements do not all hold of this code, even with no bug flag set:

- Accepting an AppendEntries clears `votedFor`, also when the term stays the same
  (`node.go:492-496`), so a node may vote twice in a term.
- A winner promotes itself without checking that it is still in the term it campaigned for
  (`node.go:343-348`).
- Heartbeats carry no prev-log data but advance the follower's commit index, and truncation does
  not lower it (`node.go:376-382`, `node.go:579`, `node.go:586-588`).

The code's own vote and commit rules are proved as exact laws of every run instead: a delivered
vote request is granted if and only if the candidate is neither stale nor behind and the voter
has no standing vote of that term for another node (`RaftBallots.VoteLaw`); every request says
what its sender held at an earlier moment (`RaftRequests.RequestsAreTrue`), and moves the
receiver's commit index accordingly.

`RaftWitness` derives a run for each of these. A run is *well-timed* when (a) no node grants a
vote of term T after taking an AppendEntries of term T, and (b) every promotion happens in the
term of its campaign. The theorems about leaders and leader commits are proved for all
well-timed runs; what is true of every run is proved for every run, including exactly what two
winners of one term imply.

**The scheduler policy** (`new-files/src/runtime/detsched.go` and the scheduler lines of
`patches/detsched.inline.patch`). `Mixer` inverts the 64-bit mixer. `Detsched` gives every
scheduling decision as a function of seed, fuzz counter and, when the policy is off, an arbitrary
ambient stream. `Scheduler.Policy` has the routines as the runtime has them, with in-place loops
over the batch, the ring, the poll order and the seed bytes, each proved equal to its function.
`RunQueue` holds the ring arithmetic and seed facts, `SchedulerReach` what the policy can decide:
every number a draw allows comes from some salt and from some seed, and the shuffle loops reach
every order in exactly one way. `SeedHash` is the seed-hash probe's fold. The model shows that in
deterministic mode `runqput` never reaches its fuzz test, because `next` is already false there.

**The fuzz probe's handshake** (`tests/cmd/fuzzprobe/main.go`). `Handshake` is its two goroutines
and the caller over four channels, in every interleaving. When it returns true is characterized
by the meetings of the two, and both answers are shown possible.

**The oracle and the event hash** (`scenarios.go`, `cluster.go`). `Oracle` has the oracle's loops,
proved to compute a declarative predicate; `Text` the event-line parsing; `EventLog` the event
hash; `Sorting` why a sorted list forgets the order of its input. `RaftReports` closes the circle:
it proves what the oracle's leader check makes of the victory lines of any run of the protocol.

## Model

| member | source | states |
|---|---|---|
| RaftNode.Node.BumpTerm | demos/raftsim/internal/raft/node.go:196-205 | in-place method; its whole new state, unchanged unless the given term is higher |
| RaftNode.Node.MaybeStepDownOnHigherTerm | demos/raftsim/internal/raft/node.go:656-673 | in-place method, flags included; steps down exactly on a term above the node's own, and then every field: follower of that term, no vote, no leader, timer reset, log and commit index kept |
| RaftNode.Node.BeginPropose | demos/raftsim/internal/raft/node.go:207-229 | only a leader appends; the new entry is one past its log, in its term, and the request built from the results is the one the cluster sends, field by field |
| RaftNode.Node.CollectReplies | demos/raftsim/internal/raft/node.go:231-257 | the loop over the peers, with arbitrary interference before each answer: it is cut short exactly by the first answer with a term above both the round's and the node's, which leaves a follower of that term without vote or leader; otherwise it has counted this node plus every positive answer and touched nothing |
| RaftNode.Node.Propose | demos/raftsim/internal/raft/node.go:207-279 | commits exactly when undisturbed and acknowledged by a majority, then sets the commit index in whatever state it finds; a disturbed proposer is a follower of a higher term |
| RaftNode.Node.HeartbeatTick | demos/raftsim/internal/raft/node.go:367-383 | a heartbeat loop goes on exactly while its node leads in the loop's term, and then sends the commit index of that moment |
| RaftNode.Node.FinishPropose | demos/raftsim/internal/raft/node.go:259-278 | the last critical section under any flags; neither role, term nor log is looked at |
| RaftNode.Node.BeginElection | demos/raftsim/internal/raft/node.go:306-314 | the next term, a vote for itself, no leader, and a request with the last-entry data of the log as it is |
| RaftNode.Node.RunElectionRound | demos/raftsim/internal/raft/node.go:305-357 | wins exactly when undisturbed with a majority of votes, and then promotes itself in whatever state it finds |
| RaftNode.Node.FinishElection | demos/raftsim/internal/raft/node.go:343-356 | leader on a majority of votes, candidate otherwise, with no check of the term |
| RaftNode.Node.LocalLastLogMeta | demos/raftsim/internal/raft/node.go:637-643 | term and index of the last entry, zeros for an empty log |
| RaftNode.Node.CandidateUpToDate | demos/raftsim/internal/raft/node.go:645-654 | terms decide first, then indexes (indexes alone under the flag) |
| RaftNode.Node.HandleRequestVote | demos/raftsim/internal/raft/node.go:441-474 | whole new state and response for every message and flag setting; without flags this is the step of the cluster, and the vote is granted exactly to a candidate that is not stale, not second and not behind |
| RaftNode.Node.MergeEntries | demos/raftsim/internal/raft/node.go:541-585 | the loop with its continues and its break on the mutable log computes the recursive merge, under any flags |
| RaftNode.Node.HandleAppendEntries | demos/raftsim/internal/raft/node.go:476-595 | whole new state and response for every message and flag setting; without flags this is the step of the cluster |
| RaftAppend.MergeIsSplice | demos/raftsim/internal/raft/node.go:541-585 | consecutive entries starting inside the log or right after it: the log stays if they agree with it and fit in it, and otherwise becomes what lay before them followed by them |
| RaftAppend.MergeSkipsNonPositive | demos/raftsim/internal/raft/node.go:542-544 | entries numbered 0 or less are passed over and the rest is spliced from 1 on |
| RaftAppend.MergeGap | demos/raftsim/internal/raft/node.go:545-554 | entries that start beyond the end are refused and the log stays |
| RaftAppend.LatePrefixKeepsLog | demos/raftsim/internal/raft/node.go:564-583 | any prefix of entries that the log already holds, arriving late, truncates nothing |
| RaftAppend.AppendOutcome | demos/raftsim/internal/raft/node.go:476-595 | success exactly for a term that is not stale and a matching previous entry; what term, vote, leader, timer, log, commit index and response (with its reason) then are, and that a refusal touches neither log nor commit index |
| RaftAppend.SecondDelivery | demos/raftsim/internal/raft/node.go:476-595 | delivering an accepted request again changes nothing but the timer and gives the same response |
| RaftAppend.CommitStaysInsideIff | demos/raftsim/internal/raft/node.go:564-588 | when the commit index stays within the log: exactly if it is advanced, or was at most the end of the entries, or nothing was truncated |
| RaftAppend.CommitPastEndExample | demos/raftsim/internal/raft/node.go:579-588 | an input after which the commit index points past the log |
| RaftMembership.NewCluster | demos/raftsim/internal/raft/cluster.go:39-96 | refuses fewer than three or repeated ids and nothing else; builds all ids with every node's peers being the others, each once |
| RaftMembership.PeerOrder | demos/raftsim/internal/raft/node.go:161-163 | the order lists each peer exactly once, in whatever order the map is walked |
| RaftCluster.StepKeepsWF | demos/raftsim/internal/raft/node.go:231-243 | no step leaves a request without a sender or an answer without a request, and no node addresses itself |
| RaftEffects.StepEffect | demos/raftsim/internal/raft/node.go:196-394 | every step of every goroutine does one of six things to terms, votes, logs and history |
| RaftShape.LogShape | demos/raftsim/internal/raft/node.go:196-228 | in every run, the entry at position k has index k+1, terms do not decrease along a log or exceed the node's term, and a node's term never goes down |
| RaftShape.RequestsAreWellBuilt | demos/raftsim/internal/raft/node.go:231-242 | every AppendEntries and heartbeat that a node sends carries consecutive entries right after its previous index, so the outcome theorems above apply to it, and the commit index noted when it was built |
| RaftVotes.RunKeepsVotes | demos/raftsim/internal/raft/node.go:441-496 | in every run, a node that votes for two candidates in one term has taken an AppendEntries of that term in between |
| RaftBallots.UpToDateIsTotalPreorder | demos/raftsim/internal/raft/node.go:645-654 | the comparison of last positions is reflexive, transitive, total, and ties only on equal positions |
| RaftBallots.MoreLogKeepsTheVote | demos/raftsim/internal/raft/node.go:645-654 | a longer log never loses a vote that a shorter one gets, and a candidate that holds all of the voter's log is not behind |
| RaftBallots.VoteOutcome | demos/raftsim/internal/raft/node.go:441-474 | granted if and only if not stale, not second in the term and not behind, in terms of the last entries; and every field and the response in each case |
| RaftBallots.FallingBackFreesTheVote | demos/raftsim/internal/raft/node.go:656-673 | a node that has just stepped down or been bumped into a higher term grants the first candidate of that term, or a later one, that is not behind it |
| RaftBallots.RunKeepsVoted | demos/raftsim/internal/raft/node.go:441-474 | in every run, a remembered vote was cast in the node's present term and the node has heard from no leader of that term since |
| RaftBallots.RisingTermForgetsTheVote | demos/raftsim/internal/raft/node.go:196-205 | in every run, a node whose term rises forgets its vote, unless it casts one in that very step |
| RaftBallots.VoteLaw | demos/raftsim/internal/raft/node.go:441-474 | in every run, a delivered vote request is granted if and only if the candidate is neither stale nor behind and the voter has no standing vote of that term for another node |
| RaftBallots.RunKeepsLeaderKnown | demos/raftsim/internal/raft/node.go:344-348 | in every run, a leader's leaderID is itself and any other leaderID was learnt from an AppendEntries of that node |
| RaftRequests.RequestsAreTrue | demos/raftsim/internal/raft/node.go:208-243 | in every run, every vote request, AppendEntries and heartbeat carries, field by field, what its sender held at some earlier moment in the role it needs |
| RaftRequests.DeliveryTeachesCommit | demos/raftsim/internal/raft/node.go:586-588 | in every run, an accepted delivery raises the commit index to what the leader had committed when it spoke, or to the end of the log where that is less, and no other delivery changes it |
| RaftRequests.CommitsAreVouched | demos/raftsim/internal/raft/node.go:259-277 | in every run, an index that any node takes for committed was reached by some commit_majority |
| RaftRounds.MajorityIsLeast | demos/raftsim/internal/raft/node.go:259-261 | the majority is the least number above half of the cluster |
| RaftRounds.SendOutcome | demos/raftsim/internal/raft/node.go:320-330 | a call asks the peer at its place with its own request |
| RaftRounds.FailOutcome | demos/raftsim/internal/raft/node.go:245-248 | a failed call goes on to the next peer with the same count |
| RaftRounds.ReturnOutcome | demos/raftsim/internal/raft/node.go:244-256 | an answer of a higher term ends the call and the node falls back; any other is counted exactly if it is positive, for the peer that was asked |
| RaftRounds.FinishOutcome | demos/raftsim/internal/raft/node.go:331-355 | a round succeeds exactly if more than half of all members were counted; what winner, loser, committed and failed proposal then leave |
| RaftRounds.HeartbeatsEnd | demos/raftsim/internal/raft/node.go:367-371 | in every run, a heartbeat loop whose tick finds its node out of the role or the term never sends again |
| RaftQuorums.RunKeepsTally | demos/raftsim/internal/raft/node.go:231-256 | in every run, the votes or acks a call has counted come from that many distinct peers that gave them to this very request |
| RaftQuorums.RunKeepsBacked | demos/raftsim/internal/raft/node.go:331-351 | in every run, behind a victory or a commit stands a majority whose grants or acks came before it |
| RaftQuorums.MajorityIsQuorum | demos/raftsim/internal/raft/node.go:317-318 | a count of half the cluster plus one is more than half of the members |
| RaftElection.ElectionGuarantee | demos/raftsim/internal/raft/node.go:305-357 | in every run, two nodes that won the same term share a voter that took an AppendEntries of that term between its two grants |
| RaftElection.SilentTermHasOneWinner | demos/raftsim/internal/raft/node.go:305-357 | hence a term in which nobody has taken an AppendEntries has at most one winner |
| RaftElection.OneLeaderPerTerm | demos/raftsim/internal/raft/node.go:343-348 | in every well-timed run at most one node is ever leader in a given term, even at different moments |
| RaftLedger.LogMatching | demos/raftsim/internal/raft/node.go:504-585 | in every run with at most one proposer a term, two logs hold the same term at an index if and only if they are identical up to it |
| RaftLedger.CommitsAgreeIff | demos/raftsim/internal/raft/node.go:586-588 | two nodes agree on all that both take for committed if and only if they hold the same term at the last of those positions |
| RaftCompleteness.OneProposerPerTerm | demos/raftsim/internal/raft/node.go:208-228 | in every well-timed run each term has at most one proposer, so Log Matching applies |
| RaftCompleteness.UpToDateInherits | demos/raftsim/internal/raft/node.go:645-654 | a voter that holds an entry votes only for a candidate that holds it too, or whose last entry was proposed later without it |
| RaftCompleteness.LeaderCompleteness | demos/raftsim/internal/raft/node.go:207-279 | in every well-timed run, once a majority has taken an entry, every proposal of a later term carries it and all before it, at the same positions |
| RaftCompleteness.LeadersHoldTaken | demos/raftsim/internal/raft/node.go:305-357 | the same for the log of a later leader that has not proposed yet |
| RaftCompleteness.CommitsFormAChain | demos/raftsim/internal/raft/node.go:259-277 | in every well-timed run, of the proposed prefixes of any two commit_majority events one is a prefix of the other |
| RaftCommit.CommitMeansStored | demos/raftsim/internal/raft/node.go:231-277 | in every run, behind commit_majority at an index stands a majority of nodes each of which held exactly the proposed entry there at some moment since the proposal |
| RaftWitness.ForgottenVote | demos/raftsim/internal/raft/node.go:492-496 | a run that breaks only (a), with two leaders of term 1 |
| RaftWitness.LatePromotion | demos/raftsim/internal/raft/node.go:343-348 | a run that breaks only (b), with two leaders in term 5 |
| RaftWitness.CommittedDivergence | demos/raftsim/internal/raft/node.go:376-382 | a well-timed run in which two nodes take different entries at index 1 for committed |
| RaftPatches.StagesClearFlags | scripts/run-raft-patch-series-ci.sh:460-487 | after any number of stage rewrites the node behaves, on every state and message, like the shipped node with those stages' flags off |
| RaftPatches.MergeAfterStages | scripts/run-raft-patch-series-ci.sh:472-476 | the same for the append loop, over any number of entries |
| RaftPatches.PatchedNodeIsClean | scripts/run-raft-patch-series-ci.sh:460-487 | after all eight stages, under any flags, the node is the original with all flags off |
| RaftPatches.TimeoutsSpread | demos/raftsim/internal/raft/node.go:681-689 | without the flag, or after the first stage, the timeouts are exactly those from the base up to the jitter |
| RaftReports.LinesShowWinners | demos/raftsim/internal/raft/node.go:350 | the oracle's parser reads out of the recorded lines exactly who won which term |
| RaftReports.OracleSeesDoubleWins | demos/raftsim/internal/scenarios/scenarios.go:896-914 | in every run, the oracle flags a term if and only if two different nodes won it |
| RaftReports.FindingsMean | demos/raftsim/internal/scenarios/scenarios.go:916-943 | in every run, what the oracle's findings about one node mean: a commit index past the log's end, at most half of the logs reaching it; and no log is ever misnumbered |
| RaftReports.DivergenceIff | demos/raftsim/internal/scenarios/scenarios.go:945-961 | in every run with at most one proposer a term, a pair is reported as diverged exactly if it differs in the term at the last common committed position |
| RaftReports.NoLateGrantLooksSafe | demos/raftsim/internal/scenarios/scenarios.go:896-914 | on a run that keeps (a) the oracle's leader check never fires |
| Mixer.MixIsBijection | new-files/src/runtime/detsched.go:165-173 | the mixer is a bijection on the 2^64 words; Unmix is its inverse, both ways |
| Mixer.Rand64IsBijective | new-files/src/runtime/detsched.go:165-173 | each word comes from exactly one salt under a seed and from exactly one seed for a salt |
| Mixer.Rand64Separates | new-files/src/runtime/detsched.go:165-173 | different salts, or different seeds, give different words |
| SeedHash.Collect | tests/cmd/seedhash/main.go:84-90 | the loop computes the fold of the workers' results |
| SeedHash.AbsorbInverts | tests/cmd/seedhash/main.go:87-88 | one step of the fold can be undone, and reveals the worker's value |
| SeedHash.OneChangeShows | tests/cmd/seedhash/main.go:84-100 | if exactly one worker's value changes, the hash changes |
| SeedHash.IdShows | tests/cmd/seedhash/main.go:87-88 | the same value reported under another worker's id gives another hash |
| Detsched.RandnFrom | new-files/src/runtime/detsched.go:102-116 | the result is below n, and 0 for n = 0; which numbers come out is the next row |
| SchedulerReach.EveryNumberIsDrawn | new-files/src/runtime/detsched.go:102-116 | in deterministic mode each number below n is drawn under each seed for an explicit salt, and for each salt under an explicit seed |
| SchedulerReach.SaltsSeparate | new-files/src/runtime/detsched.go:126-140 | different places, and different goroutines, draw with different salts |
| SchedulerReach.EveryIndexIsDrawn | new-files/src/runtime/detsched.go:126-140 | at each of the four shuffle sites each place up to i is drawn for some goroutine |
| SchedulerReach.BothOrdersComeOut | patches/detsched.inline.patch:230-269 | without fuzzing, both orders of a batch of two come out, under some seed each |
| SchedulerReach.BothPollOrdersComeOut | patches/detsched.inline.patch:338-343 | the same for two ready select cases |
| SchedulerReach.PassIsItsChoices | patches/detsched.inline.patch:230-244 | a pass swaps by the indexes it draws and does nothing else |
| SchedulerReach.ChoicesSeparate | patches/detsched.inline.patch:230-244 | different index choices lead to different orders |
| SchedulerReach.EveryOrderIsReached | patches/detsched.inline.patch:230-244 | each order of the batch is reached by some index choices |
| SchedulerReach.ShuffleWithoutPolicy | patches/detsched.inline.patch:230-269 | with the policy off nothing is shuffled, or by one ambient draw a place under the race detector |
| SchedulerReach.RunNextOutcome | patches/detsched.inline.patch:208-224 | runnext is taken exactly if asked for with the policy off, a sysmon, and no 0 of the race detector's coin; so never in deterministic mode |
| SchedulerReach.FuzzHitsAndMisses | new-files/src/runtime/detsched.go:155-163 | in fuzz mode a one-in-n test hits at some site and misses at another |
| Detsched.WordIsNumber | new-files/src/runtime/detsched.go:126-148 | the conversion of an index to 64 bits keeps its value |
| Detsched.Index | new-files/src/runtime/detsched.go:126-140 | a shuffle index never points past the position it is drawn for |
| Detsched.ShuffleConserves | patches/detsched.inline.patch:230-244 | in any mode the two passes over the batch permute it |
| Detsched.PollOrderIsPermutation | patches/detsched.inline.patch:338-343 | in any mode the poll order lists each case with a channel exactly once and no other |
| Detsched.SameSeedSameSchedule | patches/detsched.inline.patch:208-268 | two processes in deterministic mode with equal seed, fuzz setting and counter: any sequence of runqput, runqputslow, runqputbatch and select operations has equal outcomes and counters, whatever the ambient streams return, and the counter has advanced by exactly n, max(n-1,0), live cases and 0 respectively, modulo 2^64 |
| RunQueue.OffIsInjective | patches/detsched.inline.patch:249-251 | different offsets below the ring's length mean different slots, also where the uint32 sum wraps |
| RunQueue.WindowSwap | patches/detsched.inline.patch:252-256 | swapping two slots of the ring swaps the same two goroutines of the window |
| RunQueue.SeedsCollide | new-files/src/runtime/detsched.go:34-43 | two seed settings give the same seed exactly if they are equal or are 0 and 1 |
| RunQueue.SeedIsSignExtended | new-files/src/runtime/detsched.go:38-41 | a positive setting is its own seed, and its negative gives the negated seed |
| RunQueue.SeedWordsAreDistinct | new-files/src/runtime/detsched.go:175-185 | the seed words with indexes below 2^32 are pairwise distinct within and across the three families |
| Scheduler.Policy.Init | new-files/src/runtime/detsched.go:34-43 | deterministic mode starts exactly if one of the three settings is nonzero, with the effective seed |
| Scheduler.Policy.SchedulerRandnFrom | new-files/src/runtime/detsched.go:102-116 | the mixed word modulo n in deterministic mode, one ambient draw otherwise, none for n below 2 |
| Scheduler.Policy.DetschedFuzzSalt | new-files/src/runtime/detsched.go:150-153 | advances the global counter by one, modulo 2^64, and salts with its new value |
| Scheduler.Policy.SlowPass | patches/detsched.inline.patch:231-241 | the in-place loop leaves the shuffled batch, and nothing past it changes |
| Scheduler.Policy.ShuffleSlow | patches/detsched.inline.patch:230-244 | both passes of runqputslow, on batch[0..n] only |
| Scheduler.Policy.RingPass | patches/detsched.inline.patch:249-256 | for any tail, the window after it becomes the shuffled window and no other slot changes |
| Scheduler.Policy.ShuffleBatch | patches/detsched.inline.patch:248-269 | both passes of runqputbatch, on the window only |
| Scheduler.Policy.RunqPutNext | patches/detsched.inline.patch:208-224 | whether the goroutine goes to runnext, and what that draws |
| Scheduler.Policy.BuildPollOrder | patches/detsched.inline.patch:338-343 | the inside-out insertion into the array computes the poll order |
| Scheduler.Policy.RandInit | patches/detsched.inline.patch:277-290 | byte k is xored with byte k mod 8 of seed word k div 8 |
| Scheduler.RingConserves | patches/detsched.inline.patch:248-269 | the n slots after the tail hold the same goroutines as before, whatever the mode |
| Scheduler.SeedsSeedDifferently | patches/detsched.inline.patch:277-290 | different seeds leave different bytes from the same start, in every group of eight |
| Scheduler.GroupsSeedDifferently | patches/detsched.inline.patch:277-290 | different groups of eight bytes are seeded with different words |
| Scheduler.FuzzSaltsDoNotRepeat | new-files/src/runtime/detsched.go:150-153 | the fuzz salts of one site repeat only after 2^64 draws |
| Handshake.NeverStuck | tests/cmd/fuzzprobe/main.go:63-122 | in every interleaving somebody can move until all are finished, no verdict waits for room, and abort is never closed twice |
| Handshake.StepDescends | tests/cmd/fuzzprobe/main.go:63-122 | every step of every goroutine lowers a measure |
| Handshake.RunsAreBounded | tests/cmd/fuzzprobe/main.go:63-122 | every run is at most as long as the initial measure |
| Handshake.Agreement | tests/cmd/fuzzprobe/main.go:63-122 | a run that can go no further has closed abort once and delivered two equal verdicts, and the caller returned that verdict whichever came first; it is true exactly if the two met twice |
| Handshake.TrueIffMetTwice | tests/cmd/fuzzprobe/main.go:63-122 | in every run the caller returns true if and only if the sender offered while the receiver was waiting for the request, and later looked for the ack while the receiver was waiting to send it, both within its attempts |
| Handshake.TrueIsPossibleIff | tests/cmd/fuzzprobe/main.go:63-122 | for each delay, some complete run returns true if and only if there is at least one attempt |
| Handshake.CanFail | tests/cmd/fuzzprobe/main.go:63-122 | for any attempts and delay some complete run returns false |
| Handshake.Accounts | tests/cmd/fuzzprobe/main.go:69-113 | the receiver yields its whole delay before it looks, and the sender gives up only after all its attempts |
| Handshake.NoAttemptsFail | tests/cmd/fuzzprobe/main.go:90-104 | without attempts the handshake fails under every schedule |
| Oracle.TallyLeaders | demos/raftsim/internal/scenarios/scenarios.go:896-909 | the map holds under each term exactly the nodes that some line announces for it |
| Oracle.LeaderViolations | demos/raftsim/internal/scenarios/scenarios.go:910-914 | in whatever order the map is walked, exactly the terms with two announced leaders are reported |
| Oracle.SnapshotViolations | demos/raftsim/internal/scenarios/scenarios.go:916-943 | exactly the nodes with a bad commit index, a misnumbered log or an unreplicated commit are reported |
| Oracle.ScanPair | demos/raftsim/internal/scenarios/scenarios.go:949-959 | the first difference up to the smaller commit index, or an index out of range exactly when a log ends before any |
| Oracle.PairViolations | demos/raftsim/internal/scenarios/scenarios.go:945-961 | the same over all pairs |
| Oracle.DedupeStrings | demos/raftsim/internal/scenarios/scenarios.go:988-1001 | of a sorted list, the strictly sorted list of the same strings |
| Oracle.RaftSafetyViolations | demos/raftsim/internal/scenarios/scenarios.go:890-964 | the strictly sorted list of exactly the violated codes; an index out of range exactly when some pair's scan runs off a log |
| Oracle.EmptyMeansSafe | demos/raftsim/internal/scenarios/scenarios.go:890-964 | no code is violated if and only if the declarative safety predicate holds |
| Oracle.OracleForgetsOrder | demos/raftsim/internal/scenarios/scenarios.go:896-963 | reordering events or snapshots leaves the verdict unchanged |
| Oracle.HoldersIsCount | demos/raftsim/internal/scenarios/scenarios.go:935-940 | the replication count is the number of snapshots whose log reaches the commit index |
| Sorting.LeqIsLexicographic | demos/raftsim/internal/scenarios/scenarios.go:962 | a prefix comes first, and otherwise the first difference decides |
| Sorting.SortedIsUnique | demos/raftsim/internal/raft/cluster.go:219-222 | a sorted list is determined by its elements and their multiplicities |
| Sorting.StrictlySortedIsUnique | demos/raftsim/internal/scenarios/scenarios.go:962-963 | a strictly sorted list is determined by the set of its elements |
| Text.AtoiRoundTrip | demos/raftsim/internal/scenarios/scenarios.go:966-976 | every 64-bit number printed with %d reads back as itself |
| Text.AtoiReadsNumbers | demos/raftsim/internal/scenarios/scenarios.go:966-976 | what is read as a number other than 0 is an optional sign, leading zeros and that number printed, within 64 bits |
| Text.FieldsAreWords | demos/raftsim/internal/scenarios/scenarios.go:980 | no field is empty or holds a space, and together they are the text without its spaces |
| Text.FieldsOfJoin | demos/raftsim/internal/scenarios/scenarios.go:980 | two texts joined by a space have the fields of the one and then of the other |
| Text.FirstKeyWins | demos/raftsim/internal/scenarios/scenarios.go:978-986 | the first token that starts with key= decides, and without one the value is empty |
| Text.ParseStringKVLoop | demos/raftsim/internal/scenarios/scenarios.go:978-986 | the loop returns the value of the first token that starts with key= |
| Text.ElectedLineRoundTrip | demos/raftsim/internal/raft/node.go:350 | a victory line parses back to its node and term, for ids without white space |
| EventLog.Recorder.RecordEvent | demos/raftsim/internal/raft/cluster.go:230-234 | one event is added at the end |
| EventLog.Recorder.EventHash | demos/raftsim/internal/raft/cluster.go:219-228 | the hash of the sorted lines, each ended by a newline |
| EventLog.HashForgetsOrder | demos/raftsim/internal/raft/cluster.go:219-228 | permuting the recorded events changes neither the hash input nor the hash |
| EventLog.HashInputSeparates | demos/raftsim/internal/raft/cluster.go:219-228 | for events without newlines the hash input is the same if and only if the recorded events are the same up to order |

## Left out

- Transport, JSON encoding and sockets: a request is handed over as a value; loss, delay and duplication are steps of the cluster.
- InjectMessage and InjectAppendEntries: they send messages that no node would send.
- Real time, tickers, deadlines and liveness: timers fire at any moment and no fairness is assumed. The clock is an argument of the handlers.
- A membership that contains the empty id: `""` means nobody in `votedFor`, so the cluster's theorems take ids that are not empty (`NewCluster` itself does not check this).
- 64-bit overflow of terms and indexes: they are unbounded integers; the oracle's parser does have the 64-bit range of Atoi.
- One election round and one heartbeat loop at a time per node: the model allows any number at once, so its theorems cover the code's runs and more.
- RaftNode.Node.CollectReplies: sending is not part of the method; each answer, and the fields as other goroutines left them when it arrives, are inputs. Requests and their delivery are in RaftCluster.
- RaftNode.Node.HandleAppendEntries: log truncation by append on a shared backing array is an update of a value; no other slice aliases the log, because Snapshot copies it.
- The bug flags in whole runs: with a flag on, the node is related to the patched node only; the runs of RaftCluster have all flags off.
- The first stage's change to the scenario file (`scripts/run-raft-patch-series-ci.sh:463`): it edits a fault hook, not the node.
- Scenario drivers, the command line and log text other than the leader_elected line.
- RaftReports.OracleSeesDoubleWins: takes lines that mention leader_elected to be victory lines; a client payload that contains the word is quoted into other lines and could be misread.
- Sorting.Sort: stands for the library sorts by their contract (a sorted permutation), not their algorithm.
- The hash functions: FNV is any function of the bytes fed to it, and nothing is claimed about collisions.
- Upstream runtime code: queue heads and publication, garbage collection, sysmon and map salts are not modelled; the patched loops take their array bounds as preconditions.
- Scheduler.Policy.Init: the settings it writes besides seed and mode (preemption, tracing, garbage collection, timers) are not modelled.
- Scheduler.Policy.RunqPutNext: ends where the goroutine's slot is chosen; the compare-and-swap on runnext is not part of this model.
- The fuzz probe's main loop, noise goroutines and failure statistics, and the seed-hash probe's worker loops.
