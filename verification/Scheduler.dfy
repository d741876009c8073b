// The patched scheduler routines in the form the runtime has them: methods that advance
// the policy's globals and shuffle arrays in place, each proved equal to its function.
module Scheduler {
  import opened Mixer
  import opened Detsched
  import opened RunQueue

  class Policy {
    var enabled: bool
    var seed: bv64
    var fuzzFlag: bool
    var fuzzSeq: nat
    const race: bool
    const haveSysmon: bool
    /** The runtime's own generator: what its draws return, and how many were made. */
    const ambient: nat -> nat
    var drawn: nat

    function View(): Env
      reads this
    {
      Env(enabled, seed, fuzzFlag, fuzzSeq, race, haveSysmon, ambient, drawn)
    }

    constructor (race: bool, haveSysmon: bool, ambient: nat -> nat)
      ensures View() == Env(false, 0, false, 0, race, haveSysmon, ambient, 0)
    {
      this.race, this.haveSysmon, this.ambient := race, haveSysmon, ambient;
      enabled, seed, fuzzFlag, fuzzSeq, drawn := false, 0, false, 0, 0;
    }

    /** detschedInit, from the three debug settings. */
    method Init(detsched: bv32, detschedfuzz: bv32, detschedseed: bv32)
      modifies this
      ensures var asked := detsched != 0 || detschedfuzz != 0 || detschedseed != 0;
              View() == old(View()).(fuzzFlag := detschedfuzz != 0,
                                     enabled := old(enabled) || asked,
                                     seed := if asked then EffectiveSeed(detschedseed) else old(seed))
    {
      fuzzFlag := detschedfuzz != 0;
      if detsched == 0 && detschedfuzz == 0 && detschedseed == 0 {
        return;
      }
      seed := EffectiveSeed(detschedseed);
      enabled := true;
    }

    method SchedulerRandnFrom(n: nat, salt: bv64) returns (r: nat)
      modifies this
      ensures (r, View()) == RandnFrom(old(View()), n, salt)
      ensures n > 1 && enabled ==> r == Number(Rand64(seed, salt)) % n && drawn == old(drawn)
      ensures n > 1 && !enabled ==> r == ambient(old(drawn)) % n && drawn == old(drawn) + 1
    {
      hide Rand64, Number;
      if n <= 1 {
        return 0;
      }
      if !enabled {
        r := ambient(drawn) % n;
        drawn := drawn + 1;
        return;
      }
      return Number(Rand64(seed, salt)) % n;
    }

    method DetschedFuzzSalt(site: bv64) returns (salt: bv64)
      modifies this
      ensures (salt, View()) == FuzzSalt(old(View()), site)
    {
      hide Rand64, Xor, Word;
      fuzzSeq := (fuzzSeq + 1) % Word64;
      return Xor(site, Rand64(seed, Xor(0x66757a7a73657100, Word(fuzzSeq))));
    }

    method ShuffleIndex(site: Site, i: nat, goid: bv64) returns (j: nat)
      requires i < Word32
      modifies this
      ensures (j, View()) == Index(old(View()), site, i, goid)
      ensures j <= i
    {
      hide RandnFrom, FuzzSalt, PlaceSalt;
      var salt: bv64;
      match site {
        case Slow => salt := 0x72716d6978000001;
        case Batch => salt := 0x72716d6978000002;
        case SlowFuzz => salt := DetschedFuzzSalt(0x66757a7a72717300);
        case BatchFuzz => salt := DetschedFuzzSalt(0x66757a7a72716200);
      }
      j := SchedulerRandnFrom(i + 1, PlaceSalt(salt, i, goid));
    }

    /** One shuffle loop of runqputslow: for i from 1 to n, swap batch[i] and batch[j]. */
    method SlowPass(batch: array<G>, n: nat, site: Site)
      requires n < batch.Length && n < Word32
      modifies this, batch
      ensures (batch[..n + 1], View()) == Pass(old(View()), site, old(batch[..n + 1]), 1)
      ensures batch[n + 1..] == old(batch[n + 1..])
    {
      hide Index;
      var i := 1;
      while i <= n
        invariant 1 <= i <= n + 1
        invariant Pass(View(), site, batch[..n + 1], i) == Pass(old(View()), site, old(batch[..n + 1]), 1)
        invariant batch[n + 1..] == old(batch[n + 1..])
      {
        ghost var before, e := batch[..n + 1], View();
        var j := ShuffleIndex(site, i, batch[i].goid);
        batch[i], batch[j] := batch[j], batch[i];
        assert batch[..n + 1] == Swap(before, i, j);
        i := i + 1;
      }
    }

    /** runqputslow's treatment of the batch it is about to publish. */
    method ShuffleSlow(batch: array<G>, n: nat)
      requires n < batch.Length && n < Word32
      modifies this, batch
      ensures (batch[..n + 1], View()) == Shuffled(old(View()), true, old(batch[..n + 1]))
      ensures batch[n + 1..] == old(batch[n + 1..])
    {
      hide Pass;
      if race || enabled {
        SlowPass(batch, n, Slow);
      }
      if enabled && fuzzFlag {
        SlowPass(batch, n, SlowFuzz);
      }
    }

    /** One shuffle loop of runqputbatch, over the n slots of the ring after the tail. */
    method RingPass(ring: array<G>, tail: nat, n: nat, site: Site)
      requires 0 < ring.Length < Word32 && Word32 % ring.Length == 0 && n <= ring.Length
      modifies this, ring
      ensures (Window(ring[..], tail, n), View()) == Pass(old(View()), site, Window(old(ring[..]), tail, n), 1)
      ensures forall k :: 0 <= k < ring.Length && !InWindow(k, tail, n, ring.Length) ==> ring[k] == old(ring[k])
    {
      hide Index, Off;
      var len := ring.Length;
      var i := 1;
      while i < n
        invariant 1 <= i
        invariant Pass(View(), site, Window(ring[..], tail, n), i)
                  == Pass(old(View()), site, Window(old(ring[..]), tail, n), 1)
        invariant forall k :: 0 <= k < len && !InWindow(k, tail, n, len) ==> ring[k] == old(ring[k])
      {
        ghost var before, e := ring[..], View();
        var a := Off(tail, i, len);
        var g := ring[a];
        assert Window(before, tail, n)[i] == g;
        var j := ShuffleIndex(site, i, g.goid);
        var b := Off(tail, j, len);
        assert InWindow(a, tail, n, len) && InWindow(b, tail, n, len);
        ring[a], ring[b] := ring[b], ring[a];
        assert ring[..] == before[a := before[b]][b := before[a]];
        WindowSwap(before, tail, n, i, j);
        i := i + 1;
      }
    }

    /** runqputbatch's treatment of the n goroutines it has written after the tail: the
        window becomes the shuffled window and no other slot changes. */
    method ShuffleBatch(ring: array<G>, tail: nat, n: nat)
      requires 0 < ring.Length < Word32 && Word32 % ring.Length == 0 && n <= ring.Length
      modifies this, ring
      ensures (Window(ring[..], tail, n), View()) == Shuffled(old(View()), false, Window(old(ring[..]), tail, n))
      ensures forall k :: 0 <= k < ring.Length && !InWindow(k, tail, n, ring.Length) ==> ring[k] == old(ring[k])
    {
      hide Pass, Window;
      if race || enabled {
        RingPass(ring, tail, n, Batch);
      }
      if enabled && fuzzFlag {
        RingPass(ring, tail, n, BatchFuzz);
      }
    }

    method SchedulerDropRunNext(goid: bv64) returns (drop: bool)
      modifies this
      ensures (drop, View()) == DropRunNext(old(View()), goid)
    {
      hide RandnFrom, Xor;
      if !(race || enabled) {
        return false;
      }
      var x := SchedulerRandnFrom(2, Xor(0x72756e6e65787400, goid));
      return x == 0;
    }

    method DetschedFuzzOneIn(oneIn: nat, site: bv64) returns (hit: bool)
      modifies this
      ensures (hit, View()) == FuzzOneIn(old(View()), oneIn, site)
    {
      hide RandnFrom, FuzzSalt;
      if !(enabled && fuzzFlag) {
        return false;
      }
      if oneIn <= 1 {
        return true;
      }
      var salt := DetschedFuzzSalt(site);
      var x := SchedulerRandnFrom(oneIn, salt);
      return x == 0;
    }

    /** The head of runqput: whether `next` survives its three tests. */
    method RunqPutNext(next: bool, goid: bv64) returns (keep: bool)
      modifies this
      ensures (keep, View()) == RunqPut(old(View()), next, goid)
    {
      hide DropRunNext, FuzzOneIn, Xor;
      keep := next;
      if !(haveSysmon && !enabled) && keep {
        keep := false;
      }
      if keep {
        var drop := SchedulerDropRunNext(goid);
        if drop {
          keep := false;
        }
      }
      if keep {
        var drop := DetschedFuzzOneIn(4, Xor(0x66757a7a72756e00, goid));
        if drop {
          keep := false;
        }
      }
    }

    method SchedulerSelectPermuteIndex(i: nat, norder: nat) returns (j: nat)
      requires i < Word32 && norder < Word32
      modifies this
      ensures (j, View()) == SelectIndex(old(View()), i, norder)
      ensures j <= norder
    {
      hide RandnFrom, FuzzSalt, Xor;
      var salt := Xor(Xor(0x73656c6563740000, Word(i)), Word(norder));
      if enabled && fuzzFlag {
        var fuzz := DetschedFuzzSalt(0x66757a7a73656c00);
        salt := Xor(salt, fuzz);
      }
      j := SchedulerRandnFrom(norder + 1, salt);
    }

    /** selectgo's construction of the poll order; cases without a channel are skipped. */
    method BuildPollOrder(pollorder: array<nat>, live: seq<bool>) returns (norder: nat)
      requires |live| <= 0x1_0000 && |live| <= pollorder.Length
      modifies this, pollorder
      ensures norder <= pollorder.Length
      ensures (pollorder[..norder], View()) == PollOrder(old(View()), live, 0, [])
    {
      hide SelectIndex;
      norder := 0;
      var i := 0;
      assert pollorder[..0] == [];
      while i < |live|
        invariant norder <= i <= |live|
        invariant PollOrder(View(), live, i, pollorder[..norder]) == PollOrder(old(View()), live, 0, [])
      {
        if !live[i] {
          i := i + 1;
          continue;
        }
        ghost var before, e := pollorder[..norder], View();
        var j := SchedulerSelectPermuteIndex(i, norder);
        pollorder[norder] := pollorder[j];
        pollorder[j] := i;
        norder := norder + 1;
        assert pollorder[..norder] == Insert(before, j, i);
        i := i + 1;
      }
    }

    /** The seeding loop of randinit: eight bytes of the seed for each word. */
    method RandInit(bytes: array<bv8>)
      requires bytes.Length % 8 == 0 && bytes.Length < Word32
      modifies bytes
      ensures forall k :: 0 <= k < bytes.Length ==> bytes[k] == SeedByte(seed, k, old(bytes[k]))
    {
      hide Rand64, RandInitSalt, Byte, Word, XorByte;
      var i := 0;
      while i < bytes.Length
        invariant 0 <= i <= bytes.Length && i % 8 == 0
        invariant forall k :: 0 <= k < i ==> bytes[k] == SeedByte(seed, k, old(bytes[k]))
        invariant forall k :: i <= k < bytes.Length ==> bytes[k] == old(bytes[k])
      {
        var x := Rand64(seed, RandInitSalt(Word(i / 8)));
        SeedWord(bytes, i, x);
        i := i + 8;
      }
    }

    /** The loop's body: the word's eight bytes go into bytes[i..i+8]. */
    method SeedWord(bytes: array<bv8>, i: nat, x: bv64)
      requires i + 8 <= bytes.Length
      modifies bytes
      ensures forall k :: i <= k < i + 8 ==> bytes[k] == XorByte(old(bytes[k]), Byte(x, k - i))
      ensures forall k :: 0 <= k < bytes.Length && !(i <= k < i + 8) ==> bytes[k] == old(bytes[k])
    {
      hide Byte, XorByte;
      SeedHalf(bytes, i, x, 0);
      SeedHalf(bytes, i + 4, x, 4);
    }

    method SeedHalf(bytes: array<bv8>, i: nat, x: bv64, b: nat)
      requires i + 4 <= bytes.Length && b + 4 <= 8
      modifies bytes
      ensures forall k :: i <= k < i + 4 ==> bytes[k] == XorByte(old(bytes[k]), Byte(x, b + k - i))
      ensures forall k :: 0 <= k < bytes.Length && !(i <= k < i + 4) ==> bytes[k] == old(bytes[k])
    {
      hide Byte, XorByte;
      bytes[i] := XorByte(bytes[i], Byte(x, b));
      bytes[i + 1] := XorByte(bytes[i + 1], Byte(x, b + 1));
      bytes[i + 2] := XorByte(bytes[i + 2], Byte(x, b + 2));
      bytes[i + 3] := XorByte(bytes[i + 3], Byte(x, b + 3));
    }
  }

  function XorByte(a: bv8, b: bv8): bv8 { a ^ b }

  /** What seeding makes of byte k of the generator's seed. */
  function SeedByte(seed: bv64, k: nat, was: bv8): bv8
    requires k < Word32
  {
    hide Rand64, RandInitSalt, Word, Byte, XorByte;
    XorByte(was, Byte(Rand64(seed, RandInitSalt(Word(k / 8))), k % 8))
  }

  /** From the same starting bytes, different seeds leave different bytes, in every group of
      eight. */
  lemma SeedsSeedDifferently(seed: bv64, seed': bv64, start: seq<bv8>, w: nat)
    requires seed != seed' && 8 * w + 8 <= |start| < Word32
    ensures exists k :: 8 * w <= k < 8 * w + 8 && SeedByte(seed, k, start[k]) != SeedByte(seed', k, start[k])
  {
    var salt := RandInitSalt(Word(w));
    hide Rand64, RandInitSalt, Byte, Word, XorByte;
    Rand64Separates(seed, salt, seed', salt);
    var b := ByteDiffers(Rand64(seed, salt), Rand64(seed', salt));
    var k := 8 * w + b;
    XorSeparates(start[k], Byte(Rand64(seed, salt), b), Byte(Rand64(seed', salt), b));
    assert k / 8 == w && k % 8 == b;
    assert SeedByte(seed, k, start[k]) != SeedByte(seed', k, start[k]);
  }

  /** Different groups of eight bytes are seeded with different words. */
  lemma GroupsSeedDifferently(seed: bv64, was: seq<bv8>, v: nat, w: nat)
    requires |was| == 8 && v != w && 8 * v + 8 < Word32 && 8 * w + 8 < Word32
    ensures exists b :: 0 <= b < 8 && SeedByte(seed, 8 * v + b, was[b]) != SeedByte(seed, 8 * w + b, was[b])
  {
    var x, y := Rand64(seed, RandInitSalt(Word(v))), Rand64(seed, RandInitSalt(Word(w)));
    hide Rand64, RandInitSalt, HashKeySalt, AESKeySalt, Byte, Word, XorByte, Number;
    WordIsNumber(v);
    WordIsNumber(w);
    HalfWord(Word(v));
    HalfWord(Word(w));
    SeedWordsAreDistinct(seed, Word(v), Word(w));
    var b := ByteDiffers(x, y);
    XorSeparates(was[b], Byte(x, b), Byte(y, b));
    assert (8 * v + b) / 8 == v && (8 * v + b) % 8 == b && (8 * w + b) / 8 == w && (8 * w + b) % 8 == b;
    assert SeedByte(seed, 8 * v + b, was[b]) != SeedByte(seed, 8 * w + b, was[b]);
  }

  lemma HalfWord(w: bv64)
    requires Number(w) < Word32
    ensures w <= 0xffff_ffff
  {
  }

  lemma ByteDiffers(x: bv64, y: bv64) returns (k: nat)
    requires x != y
    ensures k < 8 && Byte(x, k) != Byte(y, k)
  {
    hide Byte;
    if forall i :: 0 <= i < 8 ==> Byte(x, i) == Byte(y, i) { BytesDetermineWord(x, y); }
    k :| 0 <= k < 8 && Byte(x, k) != Byte(y, k);
  }

  lemma XorSeparates(a: bv8, x: bv8, y: bv8)
    ensures XorByte(a, x) == XorByte(a, y) ==> x == y
  {
  }

  /** Conservation on the ring: in any mode, for any tail (also where the uint32 sum wraps)
      the n slots after the tail hold the same goroutines as before, in some order. */
  lemma RingConserves(e: Env, q: seq<G>, q': seq<G>, tail: nat, n: nat)
    requires 0 < |q| == |q'| < Word32 && n <= |q|
    requires Window(q', tail, n) == Shuffled(e, false, Window(q, tail, n)).0
    ensures multiset(Window(q', tail, n)) == multiset(Window(q, tail, n))
  {
    hide Shuffled, Window;
    ShuffleConserves(e, false, Window(q, tail, n));
  }

  /** Fuzz salts of one site repeat only when the counter has gone once round. */
  lemma FuzzSaltsDoNotRepeat(e: Env, m: nat, n: nat, site: bv64)
    requires e.fuzzSeq < Word64 && m < n < m + Word64
    ensures FuzzSalt(Advanced(e, m), site).0 != FuzzSalt(Advanced(e, n), site).0
  {
    hide Rand64, Xor, Word;
    CounterAfter(e.fuzzSeq, m);
    CounterAfter(e.fuzzSeq, n);
    CountersDiffer(e.fuzzSeq + 1, m, n);
    CountersSeparate(e.seed, (e.fuzzSeq + m + 1) % Word64, (e.fuzzSeq + n + 1) % Word64, site);
  }

  lemma CounterAfter(s: nat, m: nat)
    ensures ((s + m) % Word64 + 1) % Word64 == (s + m + 1) % Word64
  {
  }

  lemma CountersDiffer(s: nat, m: nat, n: nat)
    requires m < n < m + Word64
    ensures (s + m) % Word64 != (s + n) % Word64
  {
  }

  lemma CountersSeparate(seed: bv64, a: nat, b: nat, site: bv64)
    requires a < Word64 && b < Word64 && a != b
    ensures Xor(site, Rand64(seed, Xor(0x66757a7a73657100, Word(a))))
            != Xor(site, Rand64(seed, Xor(0x66757a7a73657100, Word(b))))
  {
    var c: bv64 := 0x66757a7a73657100;
    hide Rand64, Xor, Word;
    if Word(a) == Word(b) { WordIsInjective(a, b); }
    XorCancels(c, Word(a));
    XorCancels(c, Word(b));
    var s, t := Xor(c, Word(a)), Xor(c, Word(b));
    Rand64Separates(seed, s, seed, t);
    XorCancels(site, Rand64(seed, s));
    XorCancels(site, Rand64(seed, t));
  }
}
