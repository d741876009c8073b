// seedhash: the loop that folds the workers' results into one hash.
module SeedHash {
  import opened Mixer

  datatype Result = Result(id: bv64, v: bv64)

  function TimesPrime(id: bv64): bv64 { id * 0x100000001b3 }

  function Rotate13(h: bv64): bv64 { (h << 13) | (h >> 51) }

  function Rotate51(h: bv64): bv64 { (h >> 13) | (h << 51) }

  function Absorb(hash: bv64, r: Result): bv64 {
    hide Mix, Xor, TimesPrime, Rotate13;
    Rotate13(Xor(hash, Mix(Xor(r.v, TimesPrime(r.id)))))
  }

  function FoldResults(hash: bv64, rs: seq<Result>): bv64
    decreases |rs|
  {
    hide Absorb;
    if rs == [] then hash else FoldResults(Absorb(hash, rs[0]), rs[1..])
  }

  /** The collecting loop of run, over the results in the order they arrive. */
  method Collect(rs: seq<Result>) returns (hash: bv64)
    ensures hash == FoldResults(0xcbf29ce484222325, rs)
  {
    hide Mix, Xor, TimesPrime, Rotate13;
    hash := 0xcbf29ce484222325;
    assert rs[0..] == rs;
    for i := 0 to |rs|
      invariant FoldResults(hash, rs[i..]) == FoldResults(0xcbf29ce484222325, rs)
    {
      var r := rs[i];
      assert rs[i..][0] == r && rs[i..][1..] == rs[i + 1..];
      hash := Xor(hash, Mix(Xor(r.v, TimesPrime(r.id))));
      hash := Rotate13(hash);
    }
  }

  lemma RotateCancels(h: bv64)
    ensures Rotate51(Rotate13(h)) == h
  {
    assert Rotate51((h << 13) | (h >> 51)) == h by { hide Rotate13; }
    assert Rotate13(h) == (h << 13) | (h >> 51) by { hide Rotate51; }
    hide Rotate13, Rotate51;
  }

  /** What the hash was, given what it became; and a worker's value, given both. */
  function HashBefore(after: bv64, r: Result): bv64 {
    hide Mix, Xor, TimesPrime, Rotate51;
    Xor(Rotate51(after), Mix(Xor(r.v, TimesPrime(r.id))))
  }

  function ValueOf(before: bv64, after: bv64, id: bv64): bv64 {
    hide Unmix, Xor, TimesPrime, Rotate51;
    Xor(Unmix(Xor(Rotate51(after), before)), TimesPrime(id))
  }

  lemma AbsorbInverts(hash: bv64, r: Result)
    ensures HashBefore(Absorb(hash, r), r) == hash
    ensures ValueOf(hash, Absorb(hash, r), r.id) == r.v
  {
    hide Mix, Unmix, Xor, TimesPrime, Rotate13, Rotate51;
    var x := Xor(r.v, TimesPrime(r.id));
    XorCancels(hash, Mix(x));
    XorCancels(r.v, TimesPrime(r.id));
    RotateCancels(Xor(hash, Mix(x)));
    MixIsBijection(x);
  }

  lemma {:induction false} FoldSeparates(g: bv64, h: bv64, rs: seq<Result>)
    requires g != h
    ensures FoldResults(g, rs) != FoldResults(h, rs)
    decreases |rs|
  {
    hide Absorb, HashBefore, ValueOf;
    if rs != [] {
      AbsorbInverts(g, rs[0]);
      AbsorbInverts(h, rs[0]);
      FoldSeparates(Absorb(g, rs[0]), Absorb(h, rs[0]), rs[1..]);
    }
  }

  /** If exactly one worker's value changes, the hash changes. */
  lemma {:induction false} OneChangeShows(hash: bv64, rs: seq<Result>, i: nat, v: bv64)
    requires i < |rs| && v != rs[i].v
    ensures FoldResults(hash, rs[i := Result(rs[i].id, v)]) != FoldResults(hash, rs)
    decreases i
  {
    hide Absorb, HashBefore, ValueOf;
    var changed := Result(rs[i].id, v);
    if i == 0 {
      assert rs[0 := changed][1..] == rs[1..];
      AbsorbInverts(hash, changed);
      AbsorbInverts(hash, rs[0]);
      FoldSeparates(Absorb(hash, changed), Absorb(hash, rs[0]), rs[1..]);
    } else {
      assert rs[i := changed][1..] == rs[1..][i - 1 := changed];
      OneChangeShows(Absorb(hash, rs[0]), rs[1..], i - 1, v);
    }
  }

  function OverPrime(x: bv64): bv64 { x * 0xce965057aff6957b }

  lemma PrimeInverts(id: bv64)
    ensures OverPrime(TimesPrime(id)) == id
  {
    assert OverPrime(id * 0x100000001b3) == id by { hide TimesPrime; }
    assert TimesPrime(id) == id * 0x100000001b3 by { hide OverPrime; }
    hide TimesPrime, OverPrime;
  }

  /** A worker's id reaches the hash as well: the same value reported by another worker gives
      another hash. */
  lemma {:induction false} IdShows(hash: bv64, rs: seq<Result>, i: nat, id: bv64)
    requires i < |rs| && id != rs[i].id
    ensures FoldResults(hash, rs[i := Result(id, rs[i].v)]) != FoldResults(hash, rs)
    decreases i
  {
    hide Absorb, TimesPrime, OverPrime;
    var changed := Result(id, rs[i].v);
    if i == 0 {
      assert rs[0 := changed][1..] == rs[1..];
      PrimeInverts(id);
      PrimeInverts(rs[0].id);
      InputShows(hash, changed, rs[0]);
      FoldSeparates(Absorb(hash, changed), Absorb(hash, rs[0]), rs[1..]);
    } else {
      assert rs[i := changed][1..] == rs[1..][i - 1 := changed];
      IdShows(Absorb(hash, rs[0]), rs[1..], i - 1, id);
    }
  }

  lemma InputShows(hash: bv64, r: Result, q: Result)
    requires r.v == q.v && TimesPrime(r.id) != TimesPrime(q.id)
    ensures Absorb(hash, r) != Absorb(hash, q)
  {
    hide Mix, Unmix, Xor, TimesPrime, Rotate13, Rotate51;
    var x, y := Xor(r.v, TimesPrime(r.id)), Xor(q.v, TimesPrime(q.id));
    XorCancels(r.v, TimesPrime(r.id));
    XorCancels(q.v, TimesPrime(q.id));
    MixIsBijection(x);
    MixIsBijection(y);
    XorCancels(hash, Mix(x));
    XorCancels(hash, Mix(y));
    RotateCancels(Xor(hash, Mix(x)));
    RotateCancels(Xor(hash, Mix(y)));
  }
}
