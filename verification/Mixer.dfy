// The 64-bit mixer behind every deterministic choice, and the fold of seedhash over it.
// Its six steps are functions of their own, hidden wherever only their inverses matter.
module Mixer {

  function Fold30(x: bv64): bv64 { x ^ (x >> 30) }
  function Fold27(x: bv64): bv64 { x ^ (x >> 27) }
  function Fold31(x: bv64): bv64 { x ^ (x >> 31) }
  function Times1(x: bv64): bv64 { x * 0xbf58476d1ce4e5b9 }
  function Times2(x: bv64): bv64 { x * 0x94d049bb133111eb }

  function Mix(x: bv64): bv64 {
    Fold31(Times2(Fold27(Times1(Fold30(x)))))
  }

  function Unfold30(y: bv64): bv64 { y ^ (y >> 30) ^ (y >> 60) }
  function Unfold27(y: bv64): bv64 { y ^ (y >> 27) ^ (y >> 54) }
  function Unfold31(y: bv64): bv64 { y ^ (y >> 31) ^ (y >> 62) }

  /** Multiplication by the inverses of the two odd constants modulo 2^64. */
  function Over1(y: bv64): bv64 { y * 0x96de1b173f119089 }
  function Over2(y: bv64): bv64 { y * 0x319642b2d24d8ec3 }

  function Unmix(y: bv64): bv64 {
    Unfold30(Over1(Unfold27(Over2(Unfold31(y)))))
  }

  lemma ShiftsCancel(x: bv64)
    ensures var y := x ^ (x >> 30); y ^ (y >> 30) ^ (y >> 60) == x
    ensures var y := x ^ (x >> 27); y ^ (y >> 27) ^ (y >> 54) == x
    ensures var y := x ^ (x >> 31); y ^ (y >> 31) ^ (y >> 62) == x
    ensures var y := x ^ (x >> 30) ^ (x >> 60); y ^ (y >> 30) == x
    ensures var y := x ^ (x >> 27) ^ (x >> 54); y ^ (y >> 27) == x
    ensures var y := x ^ (x >> 31) ^ (x >> 62); y ^ (y >> 31) == x
  {
  }

  lemma ProductsCancel(x: bv64)
    ensures x * 0xbf58476d1ce4e5b9 * 0x96de1b173f119089 == x
    ensures x * 0x96de1b173f119089 * 0xbf58476d1ce4e5b9 == x
    ensures x * 0x94d049bb133111eb * 0x319642b2d24d8ec3 == x
    ensures x * 0x319642b2d24d8ec3 * 0x94d049bb133111eb == x
  {
  }

  lemma Inverts30(x: bv64)
    ensures Unfold30(Fold30(x)) == x && Fold30(Unfold30(x)) == x
  {
    assert Unfold30(x ^ (x >> 30)) == x by { hide Fold30; ShiftsCancel(x); }
    assert Fold30(x) == x ^ (x >> 30) by { hide Unfold30; }
    assert Fold30(x ^ (x >> 30) ^ (x >> 60)) == x by { hide Unfold30; ShiftsCancel(x); }
    assert Unfold30(x) == x ^ (x >> 30) ^ (x >> 60) by { hide Fold30; }
    hide Fold30, Unfold30;
  }

  lemma Inverts27(x: bv64)
    ensures Unfold27(Fold27(x)) == x && Fold27(Unfold27(x)) == x
  {
    assert Unfold27(x ^ (x >> 27)) == x by { hide Fold27; ShiftsCancel(x); }
    assert Fold27(x) == x ^ (x >> 27) by { hide Unfold27; }
    assert Fold27(x ^ (x >> 27) ^ (x >> 54)) == x by { hide Unfold27; ShiftsCancel(x); }
    assert Unfold27(x) == x ^ (x >> 27) ^ (x >> 54) by { hide Fold27; }
    hide Fold27, Unfold27;
  }

  lemma Inverts31(x: bv64)
    ensures Unfold31(Fold31(x)) == x && Fold31(Unfold31(x)) == x
  {
    assert Unfold31(x ^ (x >> 31)) == x by { hide Fold31; ShiftsCancel(x); }
    assert Fold31(x) == x ^ (x >> 31) by { hide Unfold31; }
    assert Fold31(x ^ (x >> 31) ^ (x >> 62)) == x by { hide Unfold31; ShiftsCancel(x); }
    assert Unfold31(x) == x ^ (x >> 31) ^ (x >> 62) by { hide Fold31; }
    hide Fold31, Unfold31;
  }

  lemma InvertsTimes1(x: bv64)
    ensures Over1(Times1(x)) == x && Times1(Over1(x)) == x
  {
    assert Over1(x * 0xbf58476d1ce4e5b9) == x by { hide Times1; ProductsCancel(x); }
    assert Times1(x) == x * 0xbf58476d1ce4e5b9 by { hide Over1; }
    assert Times1(x * 0x96de1b173f119089) == x by { hide Over1; ProductsCancel(x); }
    assert Over1(x) == x * 0x96de1b173f119089 by { hide Times1; }
    hide Times1, Over1;
  }

  lemma InvertsTimes2(x: bv64)
    ensures Over2(Times2(x)) == x && Times2(Over2(x)) == x
  {
    assert Over2(x * 0x94d049bb133111eb) == x by { hide Times2; ProductsCancel(x); }
    assert Times2(x) == x * 0x94d049bb133111eb by { hide Over2; }
    assert Times2(x * 0x319642b2d24d8ec3) == x by { hide Over2; ProductsCancel(x); }
    assert Over2(x) == x * 0x319642b2d24d8ec3 by { hide Times2; }
    hide Times2, Over2;
  }

  /** The mixer is a bijection on the 64-bit words, with an explicit inverse. */
  lemma MixIsBijection(x: bv64)
    ensures Unmix(Mix(x)) == x && Mix(Unmix(x)) == x
  {
    hide Fold30, Fold27, Fold31, Times1, Times2, Unfold30, Unfold27, Unfold31, Over1, Over2;
    var a := Fold30(x);
    var b := Fold27(Times1(a));
    Inverts30(x); InvertsTimes1(a); Inverts27(Times1(a)); InvertsTimes2(b); Inverts31(Times2(b));
    var c := Unfold31(x);
    var d := Unfold27(Over2(c));
    Inverts31(x); InvertsTimes2(c); Inverts27(Over2(c)); InvertsTimes1(d); Inverts30(Over1(d));
  }

  function Xor(a: bv64, b: bv64): bv64 { a ^ b }
  function AddGolden(a: bv64): bv64 { a + 0x9e3779b97f4a7c15 }
  function SubGolden(a: bv64): bv64 { a - 0x9e3779b97f4a7c15 }

  lemma XorCancels(a: bv64, b: bv64)
    ensures Xor(Xor(a, b), a) == b && Xor(Xor(a, b), b) == a
  {
    assert Xor(a, b) == a ^ b;
    assert Xor(a ^ b, a) == b && Xor(a ^ b, b) == a;
    hide Xor;
  }

  lemma GoldenCancels(a: bv64)
    ensures SubGolden(AddGolden(a)) == a && AddGolden(SubGolden(a)) == a
  {
    assert SubGolden(a + 0x9e3779b97f4a7c15) == a by { hide AddGolden; }
    assert AddGolden(a) == a + 0x9e3779b97f4a7c15 by { hide SubGolden; }
    assert AddGolden(a - 0x9e3779b97f4a7c15) == a by { hide SubGolden; }
    assert SubGolden(a) == a - 0x9e3779b97f4a7c15 by { hide AddGolden; }
    hide AddGolden, SubGolden;
  }

  /** detschedRand64: the word for a salt under a seed. */
  function Rand64(seed: bv64, salt: bv64): bv64 {
    Mix(Xor(seed, AddGolden(salt)))
  }

  /** The salt (for a seed) or the seed (for a salt) that gives a certain word. */
  function SaltFor(seed: bv64, word: bv64): bv64 { SubGolden(Xor(seed, Unmix(word))) }
  function SeedFor(salt: bv64, word: bv64): bv64 { Xor(Unmix(word), AddGolden(salt)) }

  /** Under a fixed seed every word comes from exactly one salt, and for a fixed salt from
      exactly one seed. */
  lemma Rand64IsBijective(seed: bv64, salt: bv64, word: bv64)
    ensures Rand64(seed, salt) == word <==> salt == SaltFor(seed, word)
    ensures Rand64(seed, salt) == word <==> seed == SeedFor(salt, word)
  {
    hide Mix, Unmix, Xor, AddGolden, SubGolden;
    var x := Xor(seed, AddGolden(salt));
    MixIsBijection(x);
    MixIsBijection(word);
    GoldenCancels(salt);
    GoldenCancels(Xor(seed, Unmix(word)));
    XorCancels(seed, AddGolden(salt));
    XorCancels(seed, Unmix(word));
    XorCancels(Unmix(word), AddGolden(salt));
    XorCommutes(seed, Unmix(word));
    XorCommutes(seed, AddGolden(salt));
    XorCommutes(Xor(seed, Unmix(word)), seed);
  }

  lemma XorCommutes(a: bv64, b: bv64)
    ensures Xor(a, b) == Xor(b, a)
  {
  }

  /** So different salts, or different seeds, never give the same word. */
  lemma Rand64Separates(seed: bv64, salt: bv64, seed': bv64, salt': bv64)
    ensures salt != salt' ==> Rand64(seed, salt) != Rand64(seed, salt')
    ensures seed != seed' ==> Rand64(seed, salt) != Rand64(seed', salt)
  {
    hide Rand64, SaltFor, SeedFor;
    Rand64IsBijective(seed, salt, Rand64(seed, salt));
    Rand64IsBijective(seed, salt', Rand64(seed, salt));
    Rand64IsBijective(seed', salt, Rand64(seed, salt));
  }
}
