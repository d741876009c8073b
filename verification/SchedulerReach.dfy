// What the policy can decide: in deterministic mode every outcome a draw allows comes from
// some seed and from some salt, and the shuffle loops reach every order in exactly one way.
module SchedulerReach {
  import opened Mixer
  import opened Detsched

  // ----- draws -----

  lemma WordOf(e: Env, n: nat, salt: bv64, r: nat)
    requires e.enabled && r < n <= Word32 && Rand64(e.seed, salt) == Word(r)
    ensures RandnFrom(e, n, salt).0 == r
  {
    hide Rand64, Word, Number;
    WordIsNumber(r);
    Remainder(r, n);
  }

  lemma Remainder(r: nat, n: nat)
    requires r < n
    ensures r % n == r
  {
  }

  /** Every number below n is drawn: under each seed for some salt, for each salt under some seed. */
  lemma EveryNumberIsDrawn(e: Env, n: nat, salt: bv64, r: nat)
    requires e.enabled && r < n <= Word32
    ensures RandnFrom(e, n, SaltFor(e.seed, Word(r))).0 == r
    ensures RandnFrom(e.(seed := SeedFor(salt, Word(r))), n, salt).0 == r
  {
    hide Rand64, Word, SaltFor, SeedFor, RandnFrom;
    Rand64IsBijective(e.seed, SaltFor(e.seed, Word(r)), Word(r));
    Rand64IsBijective(SeedFor(salt, Word(r)), salt, Word(r));
    WordOf(e, n, SaltFor(e.seed, Word(r)), r);
    WordOf(e.(seed := SeedFor(salt, Word(r))), n, salt, r);
  }

  /** Below 2^64 places, different places of one goroutine and different goroutines of one
      place draw with different salts. */
  lemma SaltsSeparate(site: bv64, i: nat, goid: bv64, i': nat, goid': bv64)
    requires i < Word64 && i' < Word64
    ensures PlaceSalt(site, i, goid) == PlaceSalt(site, i', goid) ==> i == i'
    ensures PlaceSalt(site, i, goid) == PlaceSalt(site, i, goid') ==> goid == goid'
  {
    hide Xor, Word;
    var a, a' := Xor(site, Word(i)), Xor(site, Word(i'));
    XorCancels(a, goid);
    XorCancels(a', goid);
    XorCancels(a, goid');
    XorCancels(site, Word(i));
    XorCancels(site, Word(i'));
    if Word(i) == Word(i') { WordIsInjective(i, i'); }
  }

  function GoidFor(site: bv64, i: nat, salt: bv64): bv64 {
    hide Xor, Word;
    Xor(salt, Xor(site, Word(i)))
  }

  lemma GoidGivesSalt(site: bv64, i: nat, salt: bv64)
    ensures PlaceSalt(site, i, GoidFor(site, i, salt)) == salt
  {
    hide Xor, Word;
    var a := Xor(site, Word(i));
    XorCancels(salt, a);
    XorCommutes(a, Xor(salt, a));
    XorCancels(a, salt);
    XorCommutes(salt, a);
  }

  /** At each of the four sites, some goroutine at place i is exchanged with place j, for every
      j up to i. */
  lemma EveryIndexIsDrawn(e: Env, site: Site, i: nat, j: nat) returns (goid: bv64)
    requires e.enabled && j <= i < Word32
    ensures Index(e, site, i, goid).0 == j
  {
    hide RandnFrom, FuzzSalt, PlaceSalt, SaltFor, Word, GoidFor;
    var (base, e1) := match site
      case Slow => (0x72716d6978000001, e)
      case Batch => (0x72716d6978000002, e)
      case SlowFuzz => FuzzSalt(e, 0x66757a7a72717300)
      case BatchFuzz => FuzzSalt(e, 0x66757a7a72716200);
    FuzzKeepsMode(e, 0x66757a7a72717300);
    FuzzKeepsMode(e, 0x66757a7a72716200);
    var salt := SaltFor(e1.seed, Word(j));
    goid := GoidFor(base, i, salt);
    GoidGivesSalt(base, i, salt);
    EveryNumberIsDrawn(e1, i + 1, salt, j);
  }

  lemma FuzzKeepsMode(e: Env, site: bv64)
    ensures FuzzSalt(e, site).1.enabled == e.enabled && FuzzSalt(e, site).1.seed == e.seed
  {
    hide Rand64, Xor, Word;
  }

  /** Each place is a possible one for select to insert at, under some seed. */
  lemma EveryInsertionIsDrawn(e: Env, i: nat, norder: nat, j: nat) returns (seed: bv64)
    requires e.enabled && !e.fuzzFlag && i < Word32 && j <= norder < Word32 - 1
    ensures SelectIndex(e.(seed := seed), i, norder).0 == j
  {
    hide RandnFrom, SeedFor, Word, Xor;
    var salt := Xor(Xor(0x73656c6563740000, Word(i)), Word(norder));
    seed := SeedFor(salt, Word(j));
    EveryNumberIsDrawn(e, norder + 1, salt, j);
  }

  /** In fuzz mode both answers of a one-in-n draw occur, at some site. */
  lemma FuzzHitsAndMisses(e: Env, oneIn: nat) returns (hit: bv64, miss: bv64)
    requires FuzzOn(e) && 2 <= oneIn <= Word32
    ensures FuzzOneIn(e, oneIn, hit).0 && !FuzzOneIn(e, oneIn, miss).0
  {
    hide SaltFor, Word, Xor, RandnFrom, FuzzSalt;
    hit := FuzzSite(e, SaltFor(e.seed, Word(0)));
    miss := FuzzSite(e, SaltFor(e.seed, Word(1)));
    FuzzKeepsMode(e, hit);
    FuzzKeepsMode(e, miss);
    EveryNumberIsDrawn(FuzzSalt(e, hit).1, oneIn, 0, 0);
    EveryNumberIsDrawn(FuzzSalt(e, miss).1, oneIn, 0, 1);
  }

  lemma FuzzSite(e: Env, salt: bv64) returns (site: bv64)
    ensures FuzzSalt(e, site).0 == salt
  {
    hide Rand64, Xor, Word;
    var r := Rand64(e.seed, Xor(0x66757a7a73657100, Word((e.fuzzSeq + 1) % Word64)));
    site := Xor(salt, r);
    XorCommutes(site, r);
    XorCancels(r, salt);
    XorCommutes(salt, r);
  }

  /** A goroutine takes runnext exactly if it asks to, the policy is off, there is a sysmon,
      and the race detector's coin, where there is one, does not come up 0. So in
      deterministic mode nobody does, and the fuzz test on runnext is never reached. */
  lemma RunNextOutcome(e: Env, next: bool, goid: bv64)
    ensures RunqPut(e, next, goid).0 <==>
              next && !e.enabled && e.haveSysmon && (e.race ==> e.ambient(e.drawn) % 2 != 0)
    ensures RunqPut(e, next, goid).1 ==
              if next && !e.enabled && e.haveSysmon && e.race then e.(drawn := e.drawn + 1) else e
  {
    hide Rand64, Xor, FuzzSalt;
  }

  // ----- orders -----

  /** One entry for each place from 1 on, and none past its place. */
  predicate Fits(js: seq<nat>) {
    forall k :: 0 <= k < |js| ==> js[k] <= k + 1
  }

  /** The swap loop with given choices, from place 1 on. */
  function After(b: seq<G>, js: seq<nat>): (r: seq<G>)
    requires Fits(js) && (js == [] || |js| < |b|)
    ensures |r| == |b|
  {
    if js == [] then b
    else
      Swap(After(b, js[..|js| - 1]), |js|, js[|js| - 1])
  }

  /** The choices that a pass draws, from place i on. */
  function Choices(e: Env, site: Site, b: seq<G>, i: nat): (js: seq<nat>)
    requires |b| <= Word32
    ensures |js| == if i < |b| then |b| - i else 0
    ensures forall k :: 0 <= k < |js| ==> js[k] <= i + k
    decreases |b| - i
  {
    hide Index;
    if i >= |b| then []
    else
      var (j, e1) := Index(e, site, i, b[i].goid);
      [j] + Choices(e1, site, Swap(b, i, j), i + 1)
  }

  lemma OneMoreChoice(b: seq<G>, js: seq<nat>, j: nat)
    requires Fits(js) && |js| + 1 < |b| && j <= |js| + 1
    ensures Fits(js + [j]) && After(b, js + [j]) == Swap(After(b, js), |js| + 1, j)
  {
    assert (js + [j])[..|js + [j]| - 1] == js;
  }

  lemma {:induction false} PassFollowsChoices(e: Env, site: Site, b: seq<G>, js: seq<nat>)
    requires |b| <= Word32 && Fits(js) && |js| < |b|
    ensures Fits(js + Choices(e, site, After(b, js), |js| + 1))
    ensures Pass(e, site, After(b, js), |js| + 1).0 == After(b, js + Choices(e, site, After(b, js), |js| + 1))
    decreases |b| - |js|
  {
    hide Index, Swap, After;
    var a, i := After(b, js), |js| + 1;
    if i < |b| {
      var (j, e1) := Index(e, site, i, a[i].goid);
      OneMoreChoice(b, js, j);
      PassFollowsChoices(e1, site, b, js + [j]);
      assert Choices(e, site, a, i) == [j] + Choices(e1, site, Swap(a, i, j), i + 1);
      hide Choices, Pass;
      assert js + ([j] + Choices(e1, site, Swap(a, i, j), i + 1)) == js + [j] + Choices(e1, site, Swap(a, i, j), i + 1);
    } else {
      assert js + [] == js;
    }
  }

  /** A pass does nothing but make its choices and swap. */
  lemma PassIsItsChoices(e: Env, site: Site, b: seq<G>)
    requires 0 < |b| <= Word32
    ensures Fits(Choices(e, site, b, 1))
    ensures Pass(e, site, b, 1).0 == After(b, Choices(e, site, b, 1))
  {
    PassFollowsChoices(e, site, b, []);
    assert [] + Choices(e, site, b, 1) == Choices(e, site, b, 1);
  }

  /** The places past the choices are untouched. */
  lemma {:induction false} AfterLeavesTheRest(b: seq<G>, js: seq<nat>, k: nat)
    requires Fits(js) && |js| < k < |b|
    ensures After(b, js)[k] == b[k]
  {
    if js != [] { AfterLeavesTheRest(b, js[..|js| - 1], k); }
  }

  lemma {:induction false} AfterConserves(b: seq<G>, js: seq<nat>)
    requires Fits(js) && |js| < |b|
    ensures multiset(After(b, js)) == multiset(b)
  {
    if js != [] {
      AfterConserves(b, js[..|js| - 1]);
      SwapConserves(After(b, js[..|js| - 1]), |js|, js[|js| - 1]);
    }
  }

  ghost predicate Distinct(b: seq<G>) {
    forall i, j :: 0 <= i < j < |b| ==> b[i] != b[j]
  }

  lemma DistinctIsOnce(b: seq<G>, a: seq<G>)
    requires Distinct(b) && multiset(a) == multiset(b)
    ensures Distinct(a)
  {
    if i, j :| 0 <= i < j < |a| && a[i] == a[j] {
      assert a == a[..i] + [a[i]] + a[i + 1..j] + [a[j]] + a[j + 1..];
      assert multiset(a)[a[i]] >= 2;
      OnceEach(b, a[i]);
    }
  }

  lemma {:induction false} OnceEach(b: seq<G>, g: G)
    requires Distinct(b)
    ensures multiset(b)[g] <= 1
  {
    if b != [] {
      assert b == [b[0]] + b[1..];
      OnceEach(b[1..], g);
      if b[0] == g { assert g !in b[1..]; }
    }
  }

  lemma SwapTwice(b: seq<G>, i: nat, j: nat)
    requires i < |b| && j < |b|
    ensures Swap(Swap(b, i, j), i, j) == b
  {
  }

  /** Different choices lead different goroutines to different orders. */
  lemma {:induction false} ChoicesSeparate(b: seq<G>, js: seq<nat>, ks: seq<nat>)
    requires Distinct(b) && Fits(js) && Fits(ks) && |js| == |ks| < |b|
    requires After(b, js) == After(b, ks)
    ensures js == ks
    decreases |js|
  {
    if js != [] {
      var n := |js|;
      var x, y, j, k := After(b, js[..n - 1]), After(b, ks[..n - 1]), js[n - 1], ks[n - 1];
      AfterLeavesTheRest(b, js[..n - 1], n);
      AfterLeavesTheRest(b, ks[..n - 1], n);
      assert After(b, js)[j] == b[n] && After(b, ks)[k] == b[n];
      AfterConserves(b, js);
      DistinctIsOnce(b, After(b, js));
      assert j == k;
      SwapTwice(x, n, j);
      SwapTwice(y, n, j);
      ChoicesSeparate(b, js[..n - 1], ks[..n - 1]);
      assert js == js[..n - 1] + [j] && ks == ks[..n - 1] + [k];
    }
  }

  /** Every order of the goroutines is reached by some choices. */
  lemma EveryOrderIsReached(b: seq<G>, target: seq<G>) returns (js: seq<nat>)
    requires b != [] && multiset(target) == multiset(b)
    ensures Fits(js) && |js| == |b| - 1 && After(b, js) == target
  {
    assert |multiset(b)| == |b| && |multiset(target)| == |target|;
    js := Choose(b, target, |b| - 1);
  }

  /** For targets that leave all places past n alone. */
  lemma Choose(b: seq<G>, target: seq<G>, n: nat) returns (js: seq<nat>)
    requires n < |b| == |target| && b[n + 1..] == target[n + 1..]
    requires multiset(target) == multiset(b)
    ensures Fits(js) && |js| == n && After(b, js) == target
    decreases n
  {
    if n == 0 {
      js := [];
      FirstIsForced(b, target);
    } else {
      var j := Find(b, target, n);
      var before := Swap(target, n, j);
      SwapConserves(target, n, j);
      assert before[n..] == b[n..] by {
        assert before[n] == b[n] && before[n + 1..] == target[n + 1..];
        assert before[n..] == [before[n]] + before[n + 1..] && b[n..] == [b[n]] + b[n + 1..];
      }
      var rest := Choose(b, before, n - 1);
      js := rest + [j];
      assert js[..n - 1] == rest;
      SwapTwice(target, n, j);
    }
  }

  lemma FirstIsForced(b: seq<G>, target: seq<G>)
    requires 0 < |b| == |target| && b[1..] == target[1..] && multiset(target) == multiset(b)
    ensures b == target
  {
    assert b == [b[0]] + b[1..] && target == [target[0]] + target[1..];
    assert multiset{b[0]} == multiset(b) - multiset(b[1..]);
    assert multiset{target[0]} == multiset(target) - multiset(target[1..]);
    assert b[0] in multiset{target[0]};
  }

  /** What belongs at place n is somewhere up to n. */
  lemma Find(b: seq<G>, target: seq<G>, n: nat) returns (j: nat)
    requires n < |b| == |target| && b[n + 1..] == target[n + 1..] && multiset(target) == multiset(b)
    ensures j <= n && target[j] == b[n]
  {
    FrontBag(b, n + 1);
    FrontBag(target, n + 1);
    assert b[n] in multiset(b[..n + 1]) by { assert b[..n + 1][n] == b[n]; }
    assert b[n] in target[..n + 1];
    j :| 0 <= j < n + 1 && target[..n + 1][j] == b[n];
  }

  lemma FrontBag(b: seq<G>, n: nat)
    requires n <= |b|
    ensures multiset(b[..n]) == multiset(b) - multiset(b[n..])
  {
    assert b == b[..n] + b[n..];
  }

  /** Seeds matter: without fuzzing, both orders of a batch of two come out, under some seed
      each. */
  lemma BothOrdersComeOut(e: Env, slow: bool, a: G, b: G) returns (s: bv64, t: bv64)
    requires e.enabled && !e.fuzzFlag
    ensures Shuffled(e.(seed := s), slow, [a, b]).0 == [a, b]
    ensures Shuffled(e.(seed := t), slow, [a, b]).0 == [b, a]
  {
    var site := if slow then Slow else Batch;
    s := SeedForIndex(e, slow, 1, b.goid, 1);
    t := SeedForIndex(e, slow, 1, b.goid, 0);
    hide Index;
    assert Swap([a, b], 1, 1) == [a, b] && Swap([a, b], 1, 0) == [b, a];
    OnePass(e.(seed := s), site, a, b);
    OnePass(e.(seed := t), site, a, b);
  }

  lemma OnePass(e: Env, site: Site, a: G, b: G)
    ensures Pass(e, site, [a, b], 1).0 == Swap([a, b], 1, Index(e, site, 1, b.goid).0)
  {
    hide Index;
    var (j, e1) := Index(e, site, 1, b.goid);
    assert Pass(e, site, [a, b], 1) == Pass(e1, site, Swap([a, b], 1, j), 2);
  }

  /** For every goroutine and place, every index comes out under some seed. */
  lemma SeedForIndex(e: Env, slow: bool, i: nat, goid: bv64, j: nat) returns (seed: bv64)
    requires e.enabled && j <= i < Word32
    ensures Index(e.(seed := seed), if slow then Slow else Batch, i, goid).0 == j
  {
    hide RandnFrom, PlaceSalt, SeedFor, Word;
    var salt := PlaceSalt(if slow then 0x72716d6978000001 else 0x72716d6978000002, i, goid);
    seed := SeedFor(salt, Word(j));
    EveryNumberIsDrawn(e, i + 1, salt, j);
  }

  /** The same for select: two ready cases are polled in either order, under some seed each. */
  lemma BothPollOrdersComeOut(e: Env) returns (s: bv64, t: bv64)
    requires e.enabled && !e.fuzzFlag
    ensures PollOrder(e.(seed := s), [true, true], 0, []).0 == [0, 1]
    ensures PollOrder(e.(seed := t), [true, true], 0, []).0 == [1, 0]
  {
    hide PollOrder, SelectIndex;
    s := EveryInsertionIsDrawn(e, 1, 1, 1);
    t := EveryInsertionIsDrawn(e, 1, 1, 0);
    TwoInsertions(e.(seed := s));
    TwoInsertions(e.(seed := t));
  }

  lemma TwoInsertions(e: Env)
    requires e.enabled && !e.fuzzFlag
    ensures PollOrder(e, [true, true], 0, []).0 == Insert([0], SelectIndex(e, 1, 1).0, 1)
  {
    hide SelectIndex;
    SelectKeeps(e, 0, 0);
    SelectKeeps(e, 1, 1);
    assert Insert([], 0, 0) == [0];
    assert PollOrder(e, [true, true], 0, []) == PollOrder(e, [true, true], 1, [0]);
    var o := Insert([0], SelectIndex(e, 1, 1).0, 1);
    assert PollOrder(e, [true, true], 1, [0]) == PollOrder(e, [true, true], 2, o);
  }

  lemma SelectKeeps(e: Env, i: nat, norder: nat)
    requires e.enabled && !e.fuzzFlag && i < Word32 && norder < Word32
    ensures SelectIndex(e, i, norder).1 == e
  {
    hide Rand64, Xor, Word;
  }

  // ----- without the policy -----

  lemma {:induction false} PassDrawsAmbient(e: Env, site: Site, b: seq<G>, i: nat)
    requires !e.enabled && (site.Slow? || site.Batch?) && |b| <= Word32 && 1 <= i
    ensures Pass(e, site, b, i).1 == e.(drawn := e.drawn + if i < |b| then |b| - i else 0)
    decreases |b| - i
  {
    hide PlaceSalt;
    if i < |b| {
      var (j, e1) := Index(e, site, i, b[i].goid);
      hide Index;
      assert e1 == e.(drawn := e.drawn + 1);
      PassDrawsAmbient(e1, site, Swap(b, i, j), i + 1);
    }
  }

  /** With the policy off nothing is shuffled, except under the race detector, whose shuffle
      makes one ambient draw for each place; the fuzz counter never moves. */
  lemma ShuffleWithoutPolicy(e: Env, slow: bool, b: seq<G>)
    requires !e.enabled && |b| <= Word32
    ensures !e.race ==> Shuffled(e, slow, b).0 == b
    ensures Shuffled(e, slow, b).1 == e.(drawn := e.drawn + if e.race && |b| > 1 then |b| - 1 else 0)
  {
    hide Pass;
    PassDrawsAmbient(e, if slow then Slow else Batch, b, 1);
  }
}
