// The scenario-independent safety oracle: its loops over maps, slices and pairs compute
// exactly the sorted list of violated codes of a declarative predicate.
module Oracle {
  import opened RaftTypes
  import opened Sorting
  import opened Text

  datatype Snapshot = Snapshot(id: string, commitIndex: int, log: Log)

  /** The scan of a pair can run past a log; Go panics there. */
  datatype Verdict = Panicked | Checked(violations: seq<string>)

  // ----- what is a violation -----

  ghost predicate Announces(event: string, term: int, node: string) {
    && Contains(event, "leader_elected")
    && ParseIntKV(event, "term") == term && term > 0
    && ParseStringKV(event, "node") == node && node != ""
  }

  ghost predicate MultiLeader(events: seq<string>, term: int) {
    exists e, f, a, b :: e in events && f in events && Announces(e, term, a) && Announces(f, term, b) && a != b
  }

  predicate BadCommit(s: Snapshot) { s.commitIndex < 0 || s.commitIndex > |s.log| }

  ghost predicate BadShape(s: Snapshot) {
    exists k :: 0 <= k < |s.log| && s.log[k].index != k + 1
  }

  /** How many logs are at least c long. */
  function Holders(snaps: seq<Snapshot>, c: int): nat {
    if snaps == [] then 0 else (if |snaps[0].log| >= c then 1 else 0) + Holders(snaps[1..], c)
  }

  predicate Unreplicated(snaps: seq<Snapshot>, s: Snapshot) {
    s.commitIndex > 0 && Holders(snaps, s.commitIndex) < |snaps| / 2 + 1
  }

  /** Position idx is inside both logs, and the entries there agree (or differ). */
  predicate InBoth(a: Snapshot, b: Snapshot, idx: int) { 1 <= idx <= |a.log| && idx <= |b.log| }

  predicate AgreeAt(a: Snapshot, b: Snapshot, idx: int) {
    && InBoth(a, b, idx)
    && a.log[idx - 1].term == b.log[idx - 1].term && a.log[idx - 1].data == b.log[idx - 1].data
  }

  function Limit(a: Snapshot, b: Snapshot): int { Min(a.commitIndex, b.commitIndex) }

  /** idx is the first position up to the common commit index where the pair does not agree. */
  ghost predicate Stops(a: Snapshot, b: Snapshot, idx: int) {
    1 <= idx <= Limit(a, b) && !AgreeAt(a, b, idx) && forall k :: 1 <= k < idx ==> AgreeAt(a, b, k)
  }

  ghost predicate DivergesAt(a: Snapshot, b: Snapshot, idx: int) { Stops(a, b, idx) && InBoth(a, b, idx) }

  /** The scan of the pair runs off a log before it finds a difference. */
  ghost predicate RunsOff(a: Snapshot, b: Snapshot) { exists idx :: Stops(a, b, idx) && !InBoth(a, b, idx) }

  ghost predicate IsPair(snaps: seq<Snapshot>, i: int, j: int) { 0 <= i < j < |snaps| }

  function MultiLeaderCode(term: int): string { "RAFT_SAFETY_MULTI_LEADER_TERM_" + Decimal(term) }
  function BadCommitCode(s: Snapshot): string { "RAFT_SAFETY_INVALID_COMMIT_INDEX_" + s.id }
  function BadShapeCode(s: Snapshot): string { "RAFT_SAFETY_NON_CONTIGUOUS_LOG_" + s.id }
  function UnreplicatedCode(s: Snapshot): string { "RAFT_SAFETY_COMMIT_WITHOUT_MAJORITY_" + s.id }
  function DivergenceCode(idx: int): string { "RAFT_SAFETY_COMMITTED_DIVERGENCE_IDX_" + Decimal(idx) }

  ghost predicate LeaderCode(events: seq<string>, code: string) {
    exists t :: MultiLeader(events, t) && code == MultiLeaderCode(t)
  }

  ghost predicate NodeCode(snaps: seq<Snapshot>, s: Snapshot, code: string) {
    || (BadCommit(s) && code == BadCommitCode(s))
    || (BadShape(s) && code == BadShapeCode(s))
  }

  ghost predicate QuorumCode(snaps: seq<Snapshot>, s: Snapshot, code: string) {
    Unreplicated(snaps, s) && code == UnreplicatedCode(s)
  }

  ghost predicate PairCode(a: Snapshot, b: Snapshot, code: string) {
    exists idx :: DivergesAt(a, b, idx) && code == DivergenceCode(idx)
  }

  ghost predicate Violated(snaps: seq<Snapshot>, events: seq<string>, code: string) {
    || LeaderCode(events, code)
    || (exists s :: s in snaps && (NodeCode(snaps, s, code) || QuorumCode(snaps, s, code)))
    || (exists i, j :: IsPair(snaps, i, j) && PairCode(snaps[i], snaps[j], code))
  }

  ghost predicate Panics(snaps: seq<Snapshot>) {
    exists i, j :: IsPair(snaps, i, j) && RunsOff(snaps[i], snaps[j])
  }

  /** Safety, said directly. */
  ghost predicate Safe(snaps: seq<Snapshot>, events: seq<string>) {
    && (forall t :: !MultiLeader(events, t))
    && (forall s :: s in snaps ==> !BadCommit(s) && !BadShape(s) && !Unreplicated(snaps, s))
    && (forall i, j, idx :: IsPair(snaps, i, j) && 1 <= idx <= Limit(snaps[i], snaps[j]) ==>
          AgreeAt(snaps[i], snaps[j], idx))
  }

  // ----- the loops -----

  predicate Counted(m: map<int, set<string>>, term: int, node: string) { term in m && node in m[term] }

  ghost predicate Announced(events: seq<string>, term: int, node: string) {
    exists e :: e in events && Announces(e, term, node)
  }

  /** leadersByTerm after the given events. */
  ghost predicate Tallies(m: map<int, set<string>>, events: seq<string>) {
    && (forall t, a :: Counted(m, t, a) <==> Announced(events, t, a))
    && (forall t :: t in m ==> m[t] != {})
  }

  method TallyLeaders(events: seq<string>) returns (leadersByTerm: map<int, set<string>>)
    ensures Tallies(leadersByTerm, events)
  {
    leadersByTerm := map[];
    for i := 0 to |events|
      invariant Tallies(leadersByTerm, events[..i])
    {
      ghost var before := leadersByTerm;
      var e := events[i];
      assert events[..i + 1] == events[..i] + [e];
      if !Contains(e, "leader_elected") {
        TallySkip(leadersByTerm, events[..i], e);
        continue;
      }
      var term := ParseIntKV(e, "term");
      var node := ParseStringKV(e, "node");
      if term <= 0 || node == "" {
        TallySkip(leadersByTerm, events[..i], e);
        continue;
      }
      if term !in leadersByTerm {
        leadersByTerm := leadersByTerm[term := {}];
      }
      leadersByTerm := leadersByTerm[term := leadersByTerm[term] + {node}];
      TallyStep(before, leadersByTerm, events[..i], e, term, node);
    }
    assert events[..|events|] == events;
  }

  /** A line that announces nothing leaves the tally as it is. */
  lemma TallySkip(m: map<int, set<string>>, events: seq<string>, e: string)
    requires Tallies(m, events)
    requires forall t, a :: !Announces(e, t, a)
    ensures Tallies(m, events + [e])
  {
    forall t, a ensures Counted(m, t, a) <==> Announced(events + [e], t, a) {
      MoreAnnounced(events, e, t, a);
    }
  }

  lemma TallyStep(m: map<int, set<string>>, m': map<int, set<string>>, events: seq<string>,
                  e: string, term: int, node: string)
    requires Tallies(m, events) && Announces(e, term, node)
    requires m' == m[term := (if term in m then m[term] else {}) + {node}]
    ensures Tallies(m', events + [e])
  {
    hide Announces;
    assert node in m'[term];
    forall t, a ensures Counted(m', t, a) <==> Announced(events + [e], t, a) {
      MoreAnnounced(events, e, t, a);
      if Announces(e, t, a) { SameAnnouncement(e, term, node, t, a); }
      assert Counted(m', t, a) <==> Counted(m, t, a) || (t == term && a == node);
    }
    forall t | t in m' ensures m'[t] != {} {
      if t != term { assert t in m && m[t] != {}; }
    }
  }

  lemma MoreAnnounced(events: seq<string>, e: string, t: int, a: string)
    ensures Announced(events + [e], t, a) <==> Announced(events, t, a) || Announces(e, t, a)
  {
    hide Announces;
    if Announced(events, t, a) {
      var f :| f in events && Announces(f, t, a);
      assert f in events + [e];
    }
    if Announces(e, t, a) { assert e in events + [e]; }
  }

  lemma SameAnnouncement(e: string, t: int, a: string, u: int, b: string)
    requires Announces(e, t, a) && Announces(e, u, b)
    ensures t == u && a == b
  {
  }

  lemma TwoMembers(q: set<string>)
    ensures |q| > 1 <==> exists a, b :: a in q && b in q && a != b
  {
    if |q| > 1 {
      var a :| a in q;
      assert |q - {a}| == |q| - 1;
      var b :| b in q - {a};
      assert a in q && b in q && a != b;
    }
    if a, b :| a in q && b in q && a != b {
      assert {a, b} <= q;
      assert |q| == |{a, b}| + |q - {a, b}|;
    }
  }

  lemma CrowdedTerm(m: map<int, set<string>>, events: seq<string>, t: int)
    requires Tallies(m, events)
    ensures t in m && |m[t]| > 1 <==> MultiLeader(events, t)
  {
    hide Announces;
    if t in m { TwoMembers(m[t]); }
    if t in m && |m[t]| > 1 {
      var a, b :| a in m[t] && b in m[t] && a != b;
      assert Counted(m, t, a) && Counted(m, t, b);
      var e :| e in events && Announces(e, t, a);
      var f :| f in events && Announces(f, t, b);
      assert MultiLeader(events, t);
    }
    if MultiLeader(events, t) {
      var e, f, a, b :| e in events && f in events && Announces(e, t, a) && Announces(f, t, b) && a != b;
      assert Announced(events, t, a) && Announced(events, t, b);
      assert Counted(m, t, a) && Counted(m, t, b);
    }
  }

  /** The list holds the codes of the crowded terms among those visited. */
  ghost predicate Reported(events: seq<string>, violations: seq<string>, visited: set<int>) {
    forall code :: code in violations <==>
      exists t :: t in visited && MultiLeader(events, t) && code == MultiLeaderCode(t)
  }

  lemma LeaderStep(events: seq<string>, violations: seq<string>, visited: set<int>, term: int)
    requires Reported(events, violations, visited)
    ensures MultiLeader(events, term) ==>
              Reported(events, violations + [MultiLeaderCode(term)], visited + {term})
    ensures !MultiLeader(events, term) ==> Reported(events, violations, visited + {term})
  {
    hide MultiLeader, MultiLeaderCode;
    if MultiLeader(events, term) {
      assert term in visited + {term};
    }
  }

  lemma NonEmpty(s: set<int>)
    ensures s == {} || exists t :: t in s
  {
    if !exists t :: t in s {
      assert s <= {};
    }
  }

  /** The loop over the map visits its keys in an arbitrary order. */
  method LeaderViolations(m: map<int, set<string>>, ghost events: seq<string>) returns (violations: seq<string>)
    requires Tallies(m, events)
    ensures forall code :: code in violations <==> LeaderCode(events, code)
  {
    violations := [];
    var keys: set<int> := m.Keys;
    while keys != {}
      invariant keys <= m.Keys
      invariant Reported(events, violations, m.Keys - keys)
    {
      assert exists t :: t in keys by { NonEmpty(keys); }
      var term :| term in keys;
      CrowdedTerm(m, events, term);
      LeaderStep(events, violations, m.Keys - keys, term);
      if |m[term]| > 1 {
        violations := violations + [MultiLeaderCode(term)];
      }
      assert m.Keys - (keys - {term}) == m.Keys - keys + {term};
      keys := keys - {term};
    }
    forall code ensures code in violations <==> LeaderCode(events, code) {
      if LeaderCode(events, code) {
        var t :| MultiLeader(events, t) && code == MultiLeaderCode(t);
        CrowdedTerm(m, events, t);
      }
    }
  }

  method NodeViolations(s: Snapshot, ghost snaps: seq<Snapshot>) returns (violations: seq<string>)
    ensures forall code :: code in violations <==> NodeCode(snaps, s, code)
  {
    violations := [];
    if s.commitIndex < 0 || s.commitIndex > |s.log| {
      violations := violations + [BadCommitCode(s)];
    }
    ghost var first := violations;
    for pos := 0 to |s.log|
      invariant violations == first
      invariant forall k :: 0 <= k < pos ==> s.log[k].index == k + 1
    {
      var expectedIndex := pos + 1;
      if s.log[pos].index != expectedIndex {
        violations := violations + [BadShapeCode(s)];
        assert BadShape(s);
        break;
      }
    }
  }

  method CountHolders(snaps: seq<Snapshot>, c: int) returns (replicated: nat)
    ensures replicated == Holders(snaps, c)
  {
    replicated := 0;
    assert snaps[0..] == snaps;
    for i := 0 to |snaps|
      invariant replicated + Holders(snaps[i..], c) == Holders(snaps, c)
    {
      assert snaps[i..][0] == snaps[i] && snaps[i..][1..] == snaps[i + 1..];
      if |snaps[i].log| >= c {
        replicated := replicated + 1;
      }
    }
  }

  method SnapshotViolations(snaps: seq<Snapshot>) returns (violations: seq<string>)
    ensures forall code :: code in violations <==>
              exists s :: s in snaps && (NodeCode(snaps, s, code) || QuorumCode(snaps, s, code))
  {
    hide NodeCode, QuorumCode;
    violations := [];
    for i := 0 to |snaps|
      invariant forall code :: code in violations <==> exists s :: s in snaps[..i] && NodeCode(snaps, s, code)
    {
      var more := NodeViolations(snaps[i], snaps);
      assert snaps[..i + 1] == snaps[..i] + [snaps[i]];
      violations := violations + more;
    }
    assert snaps[..|snaps|] == snaps;
    ghost var first := violations;
    for i := 0 to |snaps|
      invariant forall code :: code in violations <==>
                  code in first || exists s :: s in snaps[..i] && QuorumCode(snaps, s, code)
    {
      var more := QuorumViolation(snaps, snaps[i]);
      assert snaps[..i + 1] == snaps[..i] + [snaps[i]];
      violations := violations + more;
    }
  }

  method QuorumViolation(snaps: seq<Snapshot>, s: Snapshot) returns (violations: seq<string>)
    ensures forall code :: code in violations <==> QuorumCode(snaps, s, code)
  {
    if s.commitIndex <= 0 {
      return [];
    }
    var majority := |snaps| / 2 + 1;
    var replicated := CountHolders(snaps, s.commitIndex);
    if replicated < majority {
      return [UnreplicatedCode(s)];
    }
    return [];
  }

  /** The innermost loop: the pair's first difference, if there is one to be reached. */
  method ScanPair(a: Snapshot, b: Snapshot) returns (panicked: bool, violations: seq<string>)
    ensures panicked == RunsOff(a, b)
    ensures !panicked ==> forall code :: code in violations <==> PairCode(a, b, code)
  {
    var limit := Min(a.commitIndex, b.commitIndex);
    var idx := 1;
    while idx <= limit
      invariant 1 <= idx
      invariant forall k :: 1 <= k < idx ==> AgreeAt(a, b, k)
      decreases limit - idx
    {
      if idx > |a.log| || idx > |b.log| {
        assert Stops(a, b, idx);
        return true, [];
      }
      var ae, be := a.log[idx - 1], b.log[idx - 1];
      if ae.term != be.term || ae.data != be.data {
        assert Stops(a, b, idx);
        OneStop(a, b, idx);
        return false, [DivergenceCode(idx)];
      }
      idx := idx + 1;
    }
    return false, [];
  }

  lemma OneStop(a: Snapshot, b: Snapshot, idx: int)
    requires Stops(a, b, idx)
    ensures forall k :: Stops(a, b, k) ==> k == idx
  {
  }

  ghost predicate SomePairBefore(snaps: seq<Snapshot>, i: int, j: int, k: int, l: int) {
    IsPair(snaps, k, l) && (k < i || (k == i && l < j))
  }

  method PairViolations(snaps: seq<Snapshot>) returns (panicked: bool, violations: seq<string>)
    ensures panicked == Panics(snaps)
    ensures !panicked ==> forall code :: code in violations <==>
              exists i, j :: IsPair(snaps, i, j) && PairCode(snaps[i], snaps[j], code)
  {
    hide PairCode, RunsOff;
    panicked, violations := false, [];
    for i := 0 to |snaps|
      invariant forall k, l :: SomePairBefore(snaps, i, i + 1, k, l) ==> !RunsOff(snaps[k], snaps[l])
      invariant forall code :: code in violations <==>
                  exists k, l :: SomePairBefore(snaps, i, i + 1, k, l) && PairCode(snaps[k], snaps[l], code)
    {
      for j := i + 1 to |snaps|
        invariant forall k, l :: SomePairBefore(snaps, i, j, k, l) ==> !RunsOff(snaps[k], snaps[l])
        invariant forall code :: code in violations <==>
                    exists k, l :: SomePairBefore(snaps, i, j, k, l) && PairCode(snaps[k], snaps[l], code)
      {
        var off, more := ScanPair(snaps[i], snaps[j]);
        if off {
          assert IsPair(snaps, i, j);
          return true, [];
        }
        PairStep(snaps, i, j, violations, more);
        violations := violations + more;
      }
      RowDone(snaps, i);
    }
    AllDone(snaps);
  }

  lemma PairStep(snaps: seq<Snapshot>, i: nat, j: nat, violations: seq<string>, more: seq<string>)
    requires i < j < |snaps|
    requires forall code :: code in violations <==>
               exists k, l :: SomePairBefore(snaps, i, j, k, l) && PairCode(snaps[k], snaps[l], code)
    requires forall code :: code in more <==> PairCode(snaps[i], snaps[j], code)
    ensures forall code :: code in violations + more <==>
              exists k, l :: SomePairBefore(snaps, i, j + 1, k, l) && PairCode(snaps[k], snaps[l], code)
  {
    hide PairCode;
    forall code
      ensures code in violations + more <==>
                exists k, l :: SomePairBefore(snaps, i, j + 1, k, l) && PairCode(snaps[k], snaps[l], code)
    {
      if code in violations {
        var k, l :| SomePairBefore(snaps, i, j, k, l) && PairCode(snaps[k], snaps[l], code);
        assert SomePairBefore(snaps, i, j + 1, k, l);
      }
      if code in more { assert SomePairBefore(snaps, i, j + 1, i, j); }
      if k, l :| SomePairBefore(snaps, i, j + 1, k, l) && PairCode(snaps[k], snaps[l], code) {
        if !(k == i && l == j) { assert SomePairBefore(snaps, i, j, k, l); }
      }
    }
  }

  lemma RowDone(snaps: seq<Snapshot>, i: nat)
    requires i < |snaps|
    ensures forall k, l :: SomePairBefore(snaps, i, |snaps|, k, l) <==> SomePairBefore(snaps, i + 1, i + 2, k, l)
  {
  }

  lemma AllDone(snaps: seq<Snapshot>)
    ensures forall k, l :: SomePairBefore(snaps, |snaps|, |snaps| + 1, k, l) <==> IsPair(snaps, k, l)
  {
  }

  /** dedupeStrings: drops what equals its predecessor. */
  method DedupeStrings(input: seq<string>) returns (out: seq<string>)
    requires Sorted(input)
    ensures StrictlySorted(out)
    ensures forall x :: x in out <==> x in input
  {
    if |input| == 0 {
      return input;
    }
    out := [];
    var last := "";
    for i := 0 to |input|
      invariant i == 0 ==> out == []
      invariant i > 0 ==> out != [] && out[|out| - 1] == last == input[i - 1]
      invariant StrictlySorted(out)
      invariant forall x :: x in out <==> x in input[..i]
    {
      var s := input[i];
      assert input[..i + 1] == input[..i] + [s];
      if i == 0 || s != last {
        if i > 0 {
          NewIsLast(input, i, out);
        } else {
          assert out == [] && out + [s] == [s];
        }
        out := out + [s];
        last := s;
      }
    }
    assert input[..|input|] == input;
  }

  lemma NewIsLast(input: seq<string>, i: nat, out: seq<string>)
    requires Sorted(input) && 0 < i < |input| && input[i] != input[i - 1]
    requires forall x :: x in out <==> x in input[..i]
    ensures forall k :: 0 <= k < |out| ==> Leq(out[k], input[i]) && out[k] != input[i]
  {
    forall k | 0 <= k < |out| ensures Leq(out[k], input[i]) && out[k] != input[i] {
      assert out[k] in input[..i];
      var m :| 0 <= m < i && input[m] == out[k];
      if out[k] == input[i] {
        if m < i - 1 { assert Leq(input[m], input[i - 1]); }
        assert Leq(input[i - 1], input[i]);
        LeqReflexive(input[i]);
        LeqAntisymmetric(input[i - 1], input[i]);
      }
    }
  }

  /** Without snapshots the one code is ORACLE_EMPTY_CLUSTER. Otherwise the oracle panics
      exactly when some pair's scan runs off a log, and else returns the strictly sorted
      list of exactly the violated codes. */
  ghost predicate IsVerdict(snaps: seq<Snapshot>, events: seq<string>, v: Verdict) {
    if snaps == [] then v == Checked(["ORACLE_EMPTY_CLUSTER"])
    else
      && (v == Panicked <==> Panics(snaps))
      && (v.Checked? ==> StrictlySorted(v.violations)
                         && forall code :: code in v.violations <==> Violated(snaps, events, code))
  }

  /** Oracle exactness. */
  method RaftSafetyViolations(snaps: seq<Snapshot>, events: seq<string>) returns (v: Verdict)
    ensures IsVerdict(snaps, events, v)
  {
    if |snaps| == 0 {
      return Checked(["ORACLE_EMPTY_CLUSTER"]);
    }
    hide LeaderCode, NodeCode, QuorumCode, PairCode, Tallies, RunsOff;
    var leadersByTerm := TallyLeaders(events);
    var first := LeaderViolations(leadersByTerm, events);
    var second := SnapshotViolations(snaps);
    var panicked, third := PairViolations(snaps);
    if panicked {
      return Panicked;
    }
    var all := first + second + third;
    SortSorts(all);
    var sorted := Sort(all);
    var violations := DedupeStrings(sorted);
    forall code ensures code in violations <==> Violated(snaps, events, code) {
      assert code in violations <==> code in sorted;
      assert code in sorted <==> code in multiset(sorted);
      assert code in multiset(sorted) <==> code in all;
    }
    return Checked(violations);
  }

  // ----- what the list means -----

  /** An empty list means safety, and only that. */
  lemma EmptyMeansSafe(snaps: seq<Snapshot>, events: seq<string>)
    requires !Panics(snaps)
    ensures (forall code :: !Violated(snaps, events, code)) <==> Safe(snaps, events)
  {
    if forall code :: !Violated(snaps, events, code) {
      forall t ensures !MultiLeader(events, t) {
        assert !Violated(snaps, events, MultiLeaderCode(t));
      }
      forall s | s in snaps ensures !BadCommit(s) && !BadShape(s) && !Unreplicated(snaps, s) {
        assert !Violated(snaps, events, BadCommitCode(s));
        assert !Violated(snaps, events, BadShapeCode(s));
        assert !Violated(snaps, events, UnreplicatedCode(s));
      }
      forall i, j, idx | IsPair(snaps, i, j) && 1 <= idx <= Limit(snaps[i], snaps[j])
        ensures AgreeAt(snaps[i], snaps[j], idx)
      {
        if !AgreeAt(snaps[i], snaps[j], idx) {
          var k := FirstStop(snaps[i], snaps[j], 1, idx);
          assert !RunsOff(snaps[i], snaps[j]);
          assert DivergesAt(snaps[i], snaps[j], k);
          PairViolates(snaps, events, i, j, DivergenceCode(k));
        }
      }
    }
  }

  lemma PairViolates(snaps: seq<Snapshot>, events: seq<string>, i: int, j: int, code: string)
    requires IsPair(snaps, i, j) && PairCode(snaps[i], snaps[j], code)
    ensures Violated(snaps, events, code)
  {
  }

  lemma FirstStop(a: Snapshot, b: Snapshot, from: int, idx: int) returns (k: int)
    requires 1 <= from <= idx <= Limit(a, b) && !AgreeAt(a, b, idx)
    requires forall m :: 1 <= m < from ==> AgreeAt(a, b, m)
    ensures Stops(a, b, k)
    decreases idx - from
  {
    if !AgreeAt(a, b, from) { k := from; } else { k := FirstStop(a, b, from + 1, idx); }
  }

  // ----- order independence -----

  lemma WithoutOne(s: seq<Snapshot>, i: nat)
    requires i < |s|
    ensures multiset(s[..i] + s[i + 1..]) == multiset(s) - multiset{s[i]}
  {
    assert s == s[..i] + [s[i]] + s[i + 1..];
  }

  /** The first of a is somewhere in b; without it the two have the same elements again. */
  lemma FindFirst(a: seq<Snapshot>, b: seq<Snapshot>) returns (i: nat)
    requires a != [] && multiset(a) == multiset(b)
    ensures i < |b| && b[i] == a[0]
    ensures multiset(a[1..]) == multiset(b[..i] + b[i + 1..])
  {
    assert a[0] in multiset(b) by { assert a[0] in multiset(a); }
    i :| 0 <= i < |b| && b[i] == a[0];
    assert multiset(b[..i] + b[i + 1..]) == multiset(b) - multiset{a[0]} by { WithoutOne(b, i); }
    assert multiset(a[1..]) == multiset(a) - multiset{a[0]} by {
      WithoutOne(a, 0);
      assert a[..0] + a[1..] == a[1..];
    }
  }

  lemma {:induction false} HoldersForgetOrder(a: seq<Snapshot>, b: seq<Snapshot>, c: int)
    requires multiset(a) == multiset(b)
    ensures Holders(a, c) == Holders(b, c)
    decreases |a|
  {
    if a == [] {
      assert |multiset(b)| == |b|;
    } else {
      var i := FindFirst(a, b);
      HoldersSplit(b, c, i);
      HoldersForgetOrder(a[1..], b[..i] + b[i + 1..], c);
    }
  }

  ghost function HoldersSet(snaps: seq<Snapshot>, c: int): set<nat> {
    set i: nat | i < |snaps| && c <= |snaps[i].log|
  }

  /** Holders counts the logs that reach c, each once. */
  lemma {:induction false} HoldersIsCount(snaps: seq<Snapshot>, c: int)
    ensures Holders(snaps, c) == |HoldersSet(snaps, c)|
  {
    if snaps != [] {
      var n := |snaps| - 1;
      var rest := snaps[..n];
      HoldersIsCount(rest, c);
      HoldersSplit(snaps, c, n);
      assert rest + snaps[n + 1..] == rest;
      assert HoldersSet(snaps, c) == HoldersSet(rest, c) + (if c <= |snaps[n].log| then {n} else {});
      assert n !in HoldersSet(rest, c);
    } else {
      assert HoldersSet(snaps, c) == {};
    }
  }

  lemma {:induction false} HoldersSplit(s: seq<Snapshot>, c: int, i: nat)
    requires i < |s|
    ensures Holders(s, c) == Holders(s[..i] + s[i + 1..], c) + (if |s[i].log| >= c then 1 else 0)
  {
    if i == 0 {
      assert s[..0] + s[1..] == s[1..];
    } else {
      HoldersSplit(s[1..], c, i - 1);
      assert (s[..i] + s[i + 1..])[1..] == s[1..][..i - 1] + s[1..][i..];
    }
  }

  lemma PairsForgetOrder(a: seq<Snapshot>, b: seq<Snapshot>, i: int, j: int) returns (k: int, l: int)
    requires multiset(a) == multiset(b) && IsPair(a, i, j)
    ensures IsPair(b, k, l)
    ensures (b[k] == a[i] && b[l] == a[j]) || (b[k] == a[j] && b[l] == a[i])
  {
    assert a[i] in multiset(a);
    assert a[i] in b;
    k :| 0 <= k < |b| && b[k] == a[i];
    WithoutOne(a, i);
    WithoutOne(b, k);
    var others, rest := a[..i] + a[i + 1..], b[..k] + b[k + 1..];
    assert others[j - 1] == a[j];
    assert a[j] in multiset(others);
    assert a[j] in rest;
    var m :| 0 <= m < |rest| && rest[m] == a[j];
    l := if m < k then m else m + 1;
    if l < k { k, l := l, k; }
  }

  lemma PairIsSymmetric(a: Snapshot, b: Snapshot, idx: int)
    ensures Stops(a, b, idx) <==> Stops(b, a, idx)
  {
    forall k ensures AgreeAt(a, b, k) <==> AgreeAt(b, a, k) { }
  }

  lemma PairCodeIsSymmetric(a: Snapshot, b: Snapshot, code: string)
    requires PairCode(a, b, code)
    ensures PairCode(b, a, code)
  {
    var idx :| DivergesAt(a, b, idx) && code == DivergenceCode(idx);
    PairIsSymmetric(a, b, idx);
    assert DivergesAt(b, a, idx);
  }

  lemma RunsOffIsSymmetric(a: Snapshot, b: Snapshot)
    requires RunsOff(a, b)
    ensures RunsOff(b, a)
  {
    var idx :| Stops(a, b, idx) && !InBoth(a, b, idx);
    PairIsSymmetric(a, b, idx);
  }

  lemma ViolatedForgetsOrder(a: seq<Snapshot>, b: seq<Snapshot>, e: seq<string>, f: seq<string>, code: string)
    requires multiset(a) == multiset(b) && multiset(e) == multiset(f) && Violated(a, e, code)
    ensures Violated(b, f, code)
  {
    if LeaderCode(e, code) {
      var t :| MultiLeader(e, t) && code == MultiLeaderCode(t);
      MultiLeaderForgetsOrder(e, f, t);
    } else if s :| s in a && (NodeCode(a, s, code) || QuorumCode(a, s, code)) {
      assert s in multiset(a) && s in b;
      assert |multiset(a)| == |a| && |multiset(b)| == |b|;
      HoldersForgetOrder(a, b, s.commitIndex);
      assert NodeCode(b, s, code) || QuorumCode(b, s, code);
    } else {
      var i, j :| IsPair(a, i, j) && PairCode(a[i], a[j], code);
      hide PairCode, LeaderCode, NodeCode, QuorumCode;
      var k, l := PairsForgetOrder(a, b, i, j);
      PairCodeIsSymmetric(a[i], a[j], code);
      assert IsPair(b, k, l) && PairCode(b[k], b[l], code);
    }
  }

  lemma MultiLeaderForgetsOrder(e: seq<string>, f: seq<string>, t: int)
    requires multiset(e) == multiset(f) && MultiLeader(e, t)
    ensures MultiLeader(f, t)
  {
    hide Announces;
    var x, y, a, b :| x in e && y in e && Announces(x, t, a) && Announces(y, t, b) && a != b;
    assert x in multiset(e) && y in multiset(e);
    assert x in f && y in f;
  }

  lemma PanicsForgetsOrder(a: seq<Snapshot>, b: seq<Snapshot>)
    requires multiset(a) == multiset(b) && Panics(a)
    ensures Panics(b)
  {
    var i, j :| IsPair(a, i, j) && RunsOff(a[i], a[j]);
    hide RunsOff;
    var k, l := PairsForgetOrder(a, b, i, j);
    RunsOffIsSymmetric(a[i], a[j]);
  }

  /** Order independence: reordering the events or the snapshots (and the order in which the
      map was walked) leaves the oracle's verdict unchanged. */
  lemma OracleForgetsOrder(a: seq<Snapshot>, b: seq<Snapshot>, e: seq<string>, f: seq<string>, v: Verdict, w: Verdict)
    requires multiset(a) == multiset(b) && multiset(e) == multiset(f)
    requires IsVerdict(a, e, v) && IsVerdict(b, f, w)
    ensures v == w
  {
    hide Violated, Panics, StrictlySorted;
    assert |multiset(a)| == |a| && |multiset(b)| == |b|;
    if Panics(a) { PanicsForgetsOrder(a, b); }
    if Panics(b) { PanicsForgetsOrder(b, a); }
    if a != [] && v.Checked? {
      forall code ensures code in v.violations <==> code in w.violations {
        if Violated(a, e, code) { ViolatedForgetsOrder(a, b, e, f, code); }
        if Violated(b, f, code) { ViolatedForgetsOrder(b, a, f, e, code); }
      }
      StrictlySortedIsUnique(v.violations, w.violations);
    }
  }
}
