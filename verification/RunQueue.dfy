// The ring's index arithmetic, across the wrap of the uint32 tail, and the seeds: which
// settings collide, and why the seed words never do.
module RunQueue {
  import opened Mixer
  import opened Detsched

  // ----- the ring -----

  /** The slot that is o places after the tail; the sum wraps as a uint32 does. */
  function Off(tail: nat, o: nat, len: nat): (k: nat)
    requires len > 0
    ensures k < len
  {
    ((tail + o) % Word32) % len
  }

  /** The n slots after the tail, in order. */
  ghost function Window(q: seq<G>, tail: nat, n: nat): (w: seq<G>)
    requires |q| > 0
    ensures |w| == n
  {
    seq(n, o requires 0 <= o < n => q[Off(tail, o, |q|)])
  }

  /** A slot among the n after the tail. */
  ghost predicate InWindow(k: int, tail: nat, n: nat, len: nat)
    requires len > 0
  {
    exists o :: 0 <= o < n && Off(tail, o, len) == k
  }

  lemma NoSmallMultiple(d: int, len: nat)
    ensures d == 0 || d * len >= len || d * len <= 0 - len
  {
    if d >= 1 { assert d * len >= 1 * len; }
    if d <= -1 { assert d * len <= -1 * len; }
  }

  lemma ModIsUnique(x: nat, q: int, r: nat, len: nat)
    requires x == q * len + r && r < len
    ensures x % len == r
  {
    assert x == (x / len) * len + x % len;
    assert (x / len - q) * len == r - x % len;
    NoSmallMultiple(x / len - q, len);
  }

  lemma ModOfMultiple(q: nat, len: nat, r: nat)
    requires len > 0
    ensures (q * len + r) % len == r % len
  {
    assert r == (r / len) * len + r % len;
    assert q * len + r == (q + r / len) * len + r % len;
    ModIsUnique(q * len + r, q + r / len, r % len, len);
  }

  lemma OffIsMod(tail: nat, o: nat, len: nat)
    requires len > 0 && Word32 % len == 0
    ensures Off(tail, o, len) == (tail + o) % len
  {
    var x := tail + o;
    var m, q, r := Word32 / len, x / Word32, x % Word32;
    assert Word32 == m * len;
    assert x == q * Word32 + r;
    assert q * Word32 == (q * m) * len by { assert q * (m * len) == (q * m) * len; }
    ModOfMultiple(q * m, len, r);
  }

  /** Also across the wrap of the uint32, different offsets mean different slots. */
  lemma OffIsInjective(tail: nat, o: nat, p: nat, len: nat)
    requires len > 0 && Word32 % len == 0 && o < p < len
    ensures Off(tail, o, len) != Off(tail, p, len)
  {
    OffIsMod(tail, o, len);
    OffIsMod(tail, p, len);
    var a, b := tail + o, tail + p;
    if a % len == b % len {
      assert a == (a / len) * len + a % len && b == (b / len) * len + b % len;
      assert (b / len - a / len) * len == p - o;
      NoSmallMultiple(b / len - a / len, len);
    }
  }

  /** Swapping two slots of the ring swaps the two goroutines of the window. */
  lemma WindowSwap(q: seq<G>, tail: nat, n: nat, i: nat, j: nat)
    requires |q| > 0 && Word32 % |q| == 0 && j <= i < n <= |q|
    ensures var a, b := Off(tail, i, |q|), Off(tail, j, |q|);
            Window(q[a := q[b]][b := q[a]], tail, n) == Swap(Window(q, tail, n), i, j)
  {
    var a, b := Off(tail, i, |q|), Off(tail, j, |q|);
    var w, v := Window(q[a := q[b]][b := q[a]], tail, n), Swap(Window(q, tail, n), i, j);
    forall o | 0 <= o < n ensures w[o] == v[o] {
      if o < i { OffIsInjective(tail, o, i, |q|); }
      if o > i { OffIsInjective(tail, i, o, |q|); }
      if o < j { OffIsInjective(tail, o, j, |q|); }
      if o > j { OffIsInjective(tail, j, o, |q|); }
    }
    assert w == v;
  }

  // ----- seeds -----

  /** debug.detschedseed as detschedInit takes it: an int32, sign-extended, with 1 for 0. */
  function EffectiveSeed(s: bv32): bv64 {
    var wide := if s & 0x8000_0000 != 0 then (s as bv64) | 0xffff_ffff_0000_0000 else s as bv64;
    if wide == 0 then 1 else wide
  }

  function SettingOf(seed: bv64): bv32 { (seed & 0xffff_ffff) as bv32 }

  lemma LowWordIsKept(s: bv32)
    ensures (((s as bv64) | 0xffff_ffff_0000_0000) & 0xffff_ffff) as bv32 == s
    ensures ((s as bv64) & 0xffff_ffff) as bv32 == s
    ensures (s as bv64) | 0xffff_ffff_0000_0000 != 0
    ensures (s as bv64) == 0 <==> s == 0
  {
  }

  lemma SettingIsRecovered(s: bv32)
    ensures SettingOf(EffectiveSeed(s)) == if s == 0 then 1 else s
  {
    LowWordIsKept(s);
    assert SettingOf((s as bv64) | 0xffff_ffff_0000_0000) == s && SettingOf(s as bv64) == s && SettingOf(1) == 1 by {
      hide EffectiveSeed;
    }
    hide SettingOf;
  }

  /** Only the settings 0 and 1 give the same seed. */
  lemma SeedsCollide(s: bv32, t: bv32)
    ensures EffectiveSeed(s) == EffectiveSeed(t) <==> s == t || {s, t} == {0, 1}
  {
    assert EffectiveSeed(0) == EffectiveSeed(1);
    SettingIsRecovered(s);
    SettingIsRecovered(t);
    hide EffectiveSeed, SettingOf;
  }

  /** A setting keeps its sign: its seed is that of the positive setting, negated. */
  lemma SeedIsSignExtended(s: bv32)
    requires 0 < s < 0x8000_0000
    ensures EffectiveSeed(s) == s as bv64 && EffectiveSeed(0 - s) == 0 - (s as bv64)
  {
  }

  function RandInitSalt(i: bv64): bv64 { 0x72616e6400000000 | i }
  function HashKeySalt(i: bv64): bv64 { 0x6861736800000000 | i }
  function AESKeySalt(i: bv64): bv64 { 0x6165736800000000 | i }

  lemma SaltsDiffer(i: bv64, j: bv64)
    requires i <= 0xffff_ffff && j <= 0xffff_ffff
    ensures i != j ==> RandInitSalt(i) != RandInitSalt(j) && HashKeySalt(i) != HashKeySalt(j)
                       && AESKeySalt(i) != AESKeySalt(j)
    ensures RandInitSalt(i) != HashKeySalt(j) && HashKeySalt(i) != AESKeySalt(j) && RandInitSalt(i) != AESKeySalt(j)
  {
  }

  /** The seed words with indexes below 2^32 are pairwise distinct, within each of the three
      families and across them. */
  lemma SeedWordsAreDistinct(seed: bv64, i: bv64, j: bv64)
    requires i <= 0xffff_ffff && j <= 0xffff_ffff
    ensures i != j ==> Rand64(seed, RandInitSalt(i)) != Rand64(seed, RandInitSalt(j))
    ensures i != j ==> Rand64(seed, HashKeySalt(i)) != Rand64(seed, HashKeySalt(j))
    ensures i != j ==> Rand64(seed, AESKeySalt(i)) != Rand64(seed, AESKeySalt(j))
    ensures Rand64(seed, RandInitSalt(i)) != Rand64(seed, HashKeySalt(j))
    ensures Rand64(seed, HashKeySalt(i)) != Rand64(seed, AESKeySalt(j))
    ensures Rand64(seed, RandInitSalt(i)) != Rand64(seed, AESKeySalt(j))
  {
    SaltsDiffer(i, j);
    hide Rand64, RandInitSalt, HashKeySalt, AESKeySalt;
    Rand64Separates(seed, RandInitSalt(i), seed, RandInitSalt(j));
    Rand64Separates(seed, HashKeySalt(i), seed, HashKeySalt(j));
    Rand64Separates(seed, AESKeySalt(i), seed, AESKeySalt(j));
    Rand64Separates(seed, RandInitSalt(i), seed, HashKeySalt(j));
    Rand64Separates(seed, HashKeySalt(i), seed, AESKeySalt(j));
    Rand64Separates(seed, RandInitSalt(i), seed, AESKeySalt(j));
  }
}
