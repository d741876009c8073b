// The deterministic scheduler policy: what each scheduling decision is, as a function of
// the seed, the fuzz counter and (when the policy is off) an ambient random stream.
module Detsched {
  import opened Mixer

  const Word64 := 0x1_0000_0000_0000_0000
  const Word32 := 0x1_0000_0000

  /** A goroutine, as the run queue sees it. */
  datatype G = G(ptr: int, goid: bv64)

  /** The globals the policy reads. `ambient` and `drawn` are the runtime's own generator:
      what its draws return, and how many were made. */
  datatype Env = Env(
    enabled: bool,
    seed: bv64,
    fuzzFlag: bool,
    fuzzSeq: nat,
    race: bool,
    haveSysmon: bool,
    ambient: nat -> nat,
    drawn: nat)

  predicate FuzzOn(e: Env) { e.enabled && e.fuzzFlag }
  predicate Randomized(e: Env) { e.race || e.enabled }
  predicate SysmonEnabled(e: Env) { e.haveSysmon && !e.enabled }

  /** uint64(i), one binary digit after the other. */
  function Word(i: nat): bv64 {
    hide Twice, TwicePlusOne;
    if i == 0 then 0
    else if i % 2 == 0 then Twice(Word(i / 2))
    else TwicePlusOne(Word(i / 2))
  }

  function Twice(w: bv64): bv64 { w << 1 }
  function TwicePlusOne(w: bv64): bv64 { (w << 1) | 1 }

  /** A word as a number. */
  function Number(w: bv64): nat { w as nat }

  /** Byte k of a word, least significant first. */
  function Byte(x: bv64, k: nat): bv8
    requires k < 8
  {
    match k
    case 0 => (x & 0xff) as bv8
    case 1 => ((x >> 8) & 0xff) as bv8
    case 2 => ((x >> 16) & 0xff) as bv8
    case 3 => ((x >> 24) & 0xff) as bv8
    case 4 => ((x >> 32) & 0xff) as bv8
    case 5 => ((x >> 40) & 0xff) as bv8
    case 6 => ((x >> 48) & 0xff) as bv8
    case _ => ((x >> 56) & 0xff) as bv8
  }

  lemma BytesDetermineWord(x: bv64, y: bv64)
    requires forall k :: 0 <= k < 8 ==> Byte(x, k) == Byte(y, k)
    ensures x == y
  {
    assert Byte(x, 0) == Byte(y, 0) && Byte(x, 1) == Byte(y, 1) && Byte(x, 2) == Byte(y, 2) && Byte(x, 3) == Byte(y, 3);
    assert Byte(x, 4) == Byte(y, 4) && Byte(x, 5) == Byte(y, 5) && Byte(x, 6) == Byte(y, 6) && Byte(x, 7) == Byte(y, 7);
  }

  lemma TwiceIsTwice(w: bv64)
    requires w < 0x8000_0000_0000_0000
    ensures Number(Twice(w)) == 2 * Number(w)
  {
  }

  lemma TwicePlusOneIsMore(w: bv64)
    requires w < 0x8000_0000_0000_0000
    ensures Number(TwicePlusOne(w)) == 2 * Number(w) + 1
  {
  }

  lemma SmallNumberSmallWord(w: bv64)
    requires Number(w) < 0x8000_0000_0000_0000
    ensures w < 0x8000_0000_0000_0000
  {
  }

  lemma ZeroIsZero()
    ensures Number(0) == 0
  {
  }

  /** The word of a number is that number: nothing is lost below 2^64. */
  lemma {:induction false} WordIsNumber(i: nat)
    requires i < Word64
    ensures Number(Word(i)) == i
  {
    hide Twice, TwicePlusOne, Number;
    if i == 0 {
      ZeroIsZero();
    } else {
      WordIsNumber(i / 2);
      HalfFits(i);
    }
  }

  lemma HalfFits(i: nat)
    requires Number(Word(i / 2)) == i / 2 < 0x8000_0000_0000_0000
    ensures Number(Twice(Word(i / 2))) == 2 * (i / 2) && Number(TwicePlusOne(Word(i / 2))) == 2 * (i / 2) + 1
  {
    hide Twice, TwicePlusOne, Number, Word;
    SmallNumberSmallWord(Word(i / 2));
    TwiceIsTwice(Word(i / 2));
    TwicePlusOneIsMore(Word(i / 2));
  }

  /** Different numbers below 2^64 are different words. */
  lemma WordIsInjective(i: nat, j: nat)
    requires i < Word64 && j < Word64 && Word(i) == Word(j)
    ensures i == j
  {
    hide Word, Number;
    WordIsNumber(i);
    WordIsNumber(j);
  }

  /** schedulerRandnFrom: a number below n (0 when n is 0). */
  function RandnFrom(e: Env, n: nat, salt: bv64): (r: (nat, Env))
    ensures n > 0 ==> r.0 < n
    ensures n == 0 ==> r.0 == 0
  {
    hide Rand64, Number;
    if n <= 1 then (0, e)
    else if !e.enabled then (e.ambient(e.drawn) % n, e.(drawn := e.drawn + 1))
    else (Number(Rand64(e.seed, salt)) % n, e)
  }

  /** detschedFuzzSalt: advances the counter and salts the site with it. */
  function FuzzSalt(e: Env, site: bv64): (bv64, Env) {
    hide Rand64, Xor;
    var next := (e.fuzzSeq + 1) % Word64;
    (Xor(site, Rand64(e.seed, Xor(0x66757a7a73657100, Word(next)))), e.(fuzzSeq := next))
  }

  /** The salt of a draw for place i and the goroutine there. */
  function PlaceSalt(site: bv64, i: nat, goid: bv64): bv64 {
    hide Xor, Word;
    Xor(Xor(site, Word(i)), goid)
  }

  datatype Site = Slow | Batch | SlowFuzz | BatchFuzz

  /** The four shuffle index functions. */
  function Index(e: Env, site: Site, i: nat, goid: bv64): (r: (nat, Env))
    requires i < Word32
    ensures r.0 <= i
  {
    hide RandnFrom, FuzzSalt, PlaceSalt;
    match site
    case Slow => RandnFrom(e, i + 1, PlaceSalt(0x72716d6978000001, i, goid))
    case Batch => RandnFrom(e, i + 1, PlaceSalt(0x72716d6978000002, i, goid))
    case SlowFuzz =>
      var (salt, e1) := FuzzSalt(e, 0x66757a7a72717300);
      RandnFrom(e1, i + 1, PlaceSalt(salt, i, goid))
    case BatchFuzz =>
      var (salt, e1) := FuzzSalt(e, 0x66757a7a72716200);
      RandnFrom(e1, i + 1, PlaceSalt(salt, i, goid))
  }

  function Swap(b: seq<G>, i: nat, j: nat): (r: seq<G>)
    requires i < |b| && j < |b|
    ensures |r| == |b|
  {
    b[i := b[j]][j := b[i]]
  }

  /** One shuffle loop, from position i on. */
  function Pass(e: Env, site: Site, b: seq<G>, i: nat): (r: (seq<G>, Env))
    requires |b| <= Word32
    ensures |r.0| == |b|
    decreases |b| - i
  {
    hide Index;
    if i >= |b| then (b, e)
    else
      var (j, e1) := Index(e, site, i, b[i].goid);
      Pass(e1, site, Swap(b, i, j), i + 1)
  }

  /** Both shuffle loops of runqputslow (on batch[0..n]) or runqputbatch (on the slots after
      the tail): the seeded one, then the fuzzing one. */
  function Shuffled(e: Env, slow: bool, b: seq<G>): (r: (seq<G>, Env))
    requires |b| <= Word32
    ensures |r.0| == |b|
  {
    hide Pass;
    var (b1, e1) := if Randomized(e) then Pass(e, if slow then Slow else Batch, b, 1) else (b, e);
    if FuzzOn(e1) then Pass(e1, if slow then SlowFuzz else BatchFuzz, b1, 1) else (b1, e1)
  }

  function DropRunNext(e: Env, goid: bv64): (bool, Env) {
    hide Xor, RandnFrom;
    if !Randomized(e) then (false, e)
    else
      var (x, e1) := RandnFrom(e, 2, Xor(0x72756e6e65787400, goid));
      (x == 0, e1)
  }

  function FuzzOneIn(e: Env, oneIn: nat, site: bv64): (bool, Env) {
    hide FuzzSalt, RandnFrom;
    if !FuzzOn(e) then (false, e)
    else if oneIn <= 1 then (true, e)
    else
      var (salt, e1) := FuzzSalt(e, site);
      var (x, e2) := RandnFrom(e1, oneIn, salt);
      (x == 0, e2)
  }

  /** runqput, up to the choice of slot: does the goroutine go to runnext? */
  function RunqPut(e: Env, next: bool, goid: bv64): (bool, Env) {
    hide Xor, DropRunNext, FuzzOneIn;
    if !next || !SysmonEnabled(e) then (false, e)
    else
      var (drop, e1) := DropRunNext(e, goid);
      if drop then (false, e1)
      else
        var (fuzz, e2) := FuzzOneIn(e1, 4, Xor(0x66757a7a72756e00, goid));
        (!fuzz, e2)
  }

  function SelectIndex(e: Env, i: nat, norder: nat): (r: (nat, Env))
    requires i < Word32 && norder < Word32
    ensures r.0 <= norder
  {
    hide Xor, FuzzSalt, RandnFrom;
    var salt := Xor(Xor(0x73656c6563740000, Word(i)), Word(norder));
    if FuzzOn(e) then
      var (fuzz, e1) := FuzzSalt(e, 0x66757a7a73656c00);
      RandnFrom(e1, norder + 1, Xor(salt, fuzz))
    else RandnFrom(e, norder + 1, salt)
  }

  /** One inside-out insertion: case i goes to place j, what was there goes to the end. */
  function Insert(order: seq<nat>, j: nat, i: nat): (r: seq<nat>)
    requires j <= |order|
    ensures |r| == |order| + 1
  {
    if j == |order| then order + [i] else order[j := i] + [order[j]]
  }

  /** The poll order of selectgo: live[i] says whether case i has a channel. */
  function PollOrder(e: Env, live: seq<bool>, i: nat, order: seq<nat>): (seq<nat>, Env)
    requires |live| <= 0x1_0000 && i <= |live| && |order| <= i
    decreases |live| - i
  {
    hide SelectIndex;
    if i == |live| then (order, e)
    else if !live[i] then PollOrder(e, live, i + 1, order)
    else
      var (j, e1) := SelectIndex(e, i, |order|);
      PollOrder(e1, live, i + 1, Insert(order, j, i))
  }

  // ----- conservation -----

  lemma SwapConserves(b: seq<G>, i: nat, j: nat)
    requires i < |b| && j < |b|
    ensures multiset(Swap(b, i, j)) == multiset(b)
  {
  }

  lemma {:induction false} PassConserves(e: Env, site: Site, b: seq<G>, i: nat)
    requires |b| <= Word32
    ensures multiset(Pass(e, site, b, i).0) == multiset(b)
    decreases |b| - i
  {
    hide Index;
    if i < |b| {
      var (j, e1) := Index(e, site, i, b[i].goid);
      SwapConserves(b, i, j);
      PassConserves(e1, site, Swap(b, i, j), i + 1);
    }
  }

  /** In any mode, the shuffles lose, invent and duplicate nobody. */
  lemma ShuffleConserves(e: Env, slow: bool, b: seq<G>)
    requires |b| <= Word32
    ensures multiset(Shuffled(e, slow, b).0) == multiset(b)
  {
    hide Pass;
    var (b1, e1) := if Randomized(e) then Pass(e, if slow then Slow else Batch, b, 1) else (b, e);
    if Randomized(e) { PassConserves(e, if slow then Slow else Batch, b, 1); }
    if FuzzOn(e1) { PassConserves(e1, if slow then SlowFuzz else BatchFuzz, b1, 1); }
  }

  ghost function LiveCases(live: seq<bool>, i: nat): multiset<nat>
    requires i <= |live|
    decreases |live| - i
  {
    if i == |live| then multiset{}
    else (if live[i] then multiset{i} else multiset{}) + LiveCases(live, i + 1)
  }

  lemma InsertAdds(order: seq<nat>, j: nat, i: nat)
    requires j <= |order|
    ensures multiset(Insert(order, j, i)) == multiset(order) + multiset{i}
  {
    if j < |order| {
      assert multiset(order[j := i]) == multiset(order) - multiset{order[j]} + multiset{i};
    }
  }

  lemma {:induction false} PollOrderAdds(e: Env, live: seq<bool>, i: nat, order: seq<nat>)
    requires |live| <= 0x1_0000 && i <= |live| && |order| <= i
    ensures multiset(PollOrder(e, live, i, order).0) == multiset(order) + LiveCases(live, i)
    decreases |live| - i
  {
    hide SelectIndex, Insert;
    if i < |live| {
      if live[i] {
        var (j, e1) := SelectIndex(e, i, |order|);
        InsertAdds(order, j, i);
        PollOrderAdds(e1, live, i + 1, Insert(order, j, i));
      } else {
        PollOrderAdds(e, live, i + 1, order);
      }
    }
  }

  lemma {:induction false} LiveCasesCount(live: seq<bool>, i: nat, k: nat)
    requires i <= |live|
    ensures LiveCases(live, i)[k] == if i <= k < |live| && live[k] then 1 else 0
    decreases |live| - i
  {
    if i < |live| { LiveCasesCount(live, i + 1, k); }
  }

  /** In any mode the poll order lists every case with a channel exactly once, and no other. */
  lemma PollOrderIsPermutation(e: Env, live: seq<bool>, k: nat)
    requires |live| <= 0x1_0000
    ensures multiset(PollOrder(e, live, 0, []).0)[k] == if k < |live| && live[k] then 1 else 0
  {
    hide PollOrder;
    PollOrderAdds(e, live, 0, []);
    LiveCasesCount(live, 0, k);
  }

  // ----- same seed, same schedule -----

  datatype Op =
    | Put(next: bool, goid: bv64)
    | PutSlow(batch: seq<G>)
    | PutBatch(slots: seq<G>)
    | Select(live: seq<bool>)

  datatype Outcome = RunNext(next: bool) | Order(gs: seq<G>) | Poll(order: seq<nat>)

  predicate OpFits(op: Op) {
    match op
    case Put(_, _) => true
    case PutSlow(b) => 0 < |b| <= Word32
    case PutBatch(b) => |b| <= Word32
    case Select(live) => |live| <= 0x1_0000
  }

  function Serve(e: Env, op: Op): (Outcome, Env)
    requires OpFits(op)
  {
    hide RunqPut, Shuffled, PollOrder;
    match op
    case Put(next, goid) => var (n, e1) := RunqPut(e, next, goid); (RunNext(n), e1)
    case PutSlow(b) => var (o, e1) := Shuffled(e, true, b); (Order(o), e1)
    case PutBatch(b) => var (o, e1) := Shuffled(e, false, b); (Order(o), e1)
    case Select(live) => var (o, e1) := PollOrder(e, live, 0, []); (Poll(o), e1)
  }

  function ServeAll(e: Env, ops: seq<Op>): (seq<Outcome>, Env)
    requires forall k :: 0 <= k < |ops| ==> OpFits(ops[k])
    decreases |ops|
  {
    hide Serve;
    if ops == [] then ([], e)
    else
      var (o, e1) := Serve(e, ops[0]);
      var (os, e2) := ServeAll(e1, ops[1..]);
      ([o] + os, e2)
  }

  /** Two processes in deterministic mode with the same seed, fuzz setting and counter. Their
      ambient streams, race setting and sysmon setting may differ. */
  ghost predicate Twins(e: Env, f: Env) {
    && e.enabled && f.enabled && e.seed == f.seed
    && e.fuzzFlag == f.fuzzFlag && e.fuzzSeq == f.fuzzSeq
  }

  /** Env e after n fuzz draws and nothing else. */
  function Advanced(e: Env, n: nat): Env {
    e.(fuzzSeq := (e.fuzzSeq + n) % Word64)
  }

  function Draws(site: Site): nat {
    if site.SlowFuzz? || site.BatchFuzz? then 1 else 0
  }

  function PassDraws(site: Site, n: nat, i: nat): nat {
    if i < n && Draws(site) == 1 then n - i else 0
  }

  lemma IndexTwins(e: Env, f: Env, site: Site, i: nat, goid: bv64)
    requires Twins(e, f) && i < Word32
    ensures Index(e, site, i, goid).0 == Index(f, site, i, goid).0
  {
    hide Rand64, Xor, Word, PlaceSalt;
  }

  lemma IndexDraws(e: Env, site: Site, i: nat, goid: bv64)
    requires e.enabled && i < Word32 && e.fuzzSeq < Word64
    ensures Index(e, site, i, goid).1 == Advanced(e, Draws(site))
  {
    hide Rand64, Xor, Word, PlaceSalt;
  }

  lemma AdvancedTwice(e: Env, m: nat, n: nat)
    ensures Advanced(Advanced(e, m), n) == Advanced(e, m + n)
  {
  }

  lemma {:induction false} PassTwins(e: Env, f: Env, site: Site, b: seq<G>, i: nat)
    requires Twins(e, f) && |b| <= Word32 && e.fuzzSeq < Word64
    ensures Pass(e, site, b, i).0 == Pass(f, site, b, i).0
    ensures Pass(e, site, b, i).1 == Advanced(e, PassDraws(site, |b|, i))
    decreases |b| - i
  {
    hide Index;
    if i < |b| {
      IndexTwins(e, f, site, i, b[i].goid);
      IndexDraws(e, site, i, b[i].goid);
      IndexDraws(f, site, i, b[i].goid);
      var j := Index(e, site, i, b[i].goid).0;
      PassTwins(Advanced(e, Draws(site)), Advanced(f, Draws(site)), site, Swap(b, i, j), i + 1);
      AdvancedTwice(e, Draws(site), PassDraws(site, |b|, i + 1));
    }
  }

  lemma ShuffledTwins(e: Env, f: Env, slow: bool, b: seq<G>)
    requires Twins(e, f) && |b| <= Word32 && e.fuzzSeq < Word64
    ensures Shuffled(e, slow, b).0 == Shuffled(f, slow, b).0
    ensures Shuffled(e, slow, b).1 == Advanced(e, if e.fuzzFlag && |b| > 1 then |b| - 1 else 0)
  {
    hide Pass;
    var seeded, fuzzed := if slow then Slow else Batch, if slow then SlowFuzz else BatchFuzz;
    PassTwins(e, f, seeded, b, 1);
    PassTwins(f, e, seeded, b, 1);
    var b1 := Pass(e, seeded, b, 1).0;
    PassTwins(e, f, fuzzed, b1, 1);
    PassTwins(f, e, fuzzed, b1, 1);
  }

  lemma SelectTwins(e: Env, f: Env, i: nat, norder: nat)
    requires Twins(e, f) && i < Word32 && norder < Word32 && e.fuzzSeq < Word64
    ensures SelectIndex(e, i, norder).0 == SelectIndex(f, i, norder).0
    ensures SelectIndex(e, i, norder).1 == Advanced(e, if e.fuzzFlag then 1 else 0)
  {
    hide Rand64, Xor, Word;
  }

  function LiveCount(live: seq<bool>, i: nat): nat
    requires i <= |live|
    decreases |live| - i
  {
    if i == |live| then 0 else (if live[i] then 1 else 0) + LiveCount(live, i + 1)
  }

  lemma {:induction false} PollTwins(e: Env, f: Env, live: seq<bool>, i: nat, order: seq<nat>)
    requires Twins(e, f) && e.fuzzSeq < Word64
    requires |live| <= 0x1_0000 && i <= |live| && |order| <= i
    ensures PollOrder(e, live, i, order).0 == PollOrder(f, live, i, order).0
    ensures PollOrder(e, live, i, order).1 == Advanced(e, if e.fuzzFlag then LiveCount(live, i) else 0)
    decreases |live| - i
  {
    hide SelectIndex, Insert;
    if i < |live| {
      if live[i] {
        SelectTwins(e, f, i, |order|);
        SelectTwins(f, e, i, |order|);
        var j := SelectIndex(e, i, |order|).0;
        var d := if e.fuzzFlag then 1 else 0;
        PollTwins(Advanced(e, d), Advanced(f, d), live, i + 1, Insert(order, j, i));
        AdvancedTwice(e, d, if e.fuzzFlag then LiveCount(live, i + 1) else 0);
      } else {
        PollTwins(e, f, live, i + 1, order);
      }
    }
  }

  /** How many fuzz draws an operation makes in fuzz mode: n for runqputslow (on n+1
      goroutines), max(n-1, 0) for a batch of n, one per case with a channel for select, and
      none for runqput, because without sysmon `next` is forced to false. */
  function Cost(op: Op): nat
    requires OpFits(op)
  {
    match op
    case Put(_, _) => 0
    case PutSlow(b) => |b| - 1
    case PutBatch(b) => if |b| > 1 then |b| - 1 else 0
    case Select(live) => LiveCount(live, 0)
  }

  lemma ServeTwins(e: Env, f: Env, op: Op)
    requires Twins(e, f) && OpFits(op) && e.fuzzSeq < Word64
    ensures Serve(e, op).0 == Serve(f, op).0
    ensures Serve(e, op).1 == Advanced(e, if e.fuzzFlag then Cost(op) else 0)
  {
    hide Shuffled, PollOrder, DropRunNext, FuzzOneIn, Xor;
    match op
    case Put(_, _) =>
    case PutSlow(b) => ShuffledTwins(e, f, true, b);
    case PutBatch(b) => ShuffledTwins(e, f, false, b);
    case Select(live) => PollTwins(e, f, live, 0, []);
  }

  function TotalCost(ops: seq<Op>): nat
    requires forall k :: 0 <= k < |ops| ==> OpFits(ops[k])
  {
    if ops == [] then 0 else Cost(ops[0]) + TotalCost(ops[1..])
  }

  /** Same seed, same schedule: in deterministic mode any sequence of operations gives the
      same outcomes and the same counter, whatever the ambient streams return; and the
      counter has advanced by exactly the operations' costs, modulo 2^64. */
  lemma {:induction false} SameSeedSameSchedule(e: Env, f: Env, ops: seq<Op>)
    requires Twins(e, f) && e.fuzzSeq < Word64
    requires forall k :: 0 <= k < |ops| ==> OpFits(ops[k])
    ensures ServeAll(e, ops).0 == ServeAll(f, ops).0
    ensures ServeAll(e, ops).1 == Advanced(e, if e.fuzzFlag then TotalCost(ops) else 0)
    decreases |ops|
  {
    hide Serve, Cost;
    if ops != [] {
      ServeTwins(e, f, ops[0]);
      ServeTwins(f, e, ops[0]);
      var d := if e.fuzzFlag then Cost(ops[0]) else 0;
      SameSeedSameSchedule(Advanced(e, d), Advanced(f, d), ops[1..]);
      AdvancedTwice(e, d, if e.fuzzFlag then TotalCost(ops[1..]) else 0);
    }
  }
}
