/** Deterministic randomness of main.js: the FNV-1a seed of a string, the
    mulberry32-style generator built from a seed, and the Fisher-Yates
    shuffle every page uses. */
module Seeded {
  import opened Lists
  import opened Text

  // Literals are written out below rather than named: a product or a
  // remainder by a named constant is non-linear arithmetic to the solver.

  /** ECMAScript ToUint32 on an integral Number. */
  function ToUint32(x: int): (r: int)
    ensures 0 <= r < 0x1_0000_0000
  {
    x % 0x1_0000_0000
  }

  /** ECMAScript ToInt32 on an integral Number. */
  function ToInt32(x: int): (r: int)
    ensures -0x8000_0000 <= r < 0x8000_0000
    ensures ToUint32(r) == ToUint32(x)
  {
    var u := ToUint32(x);
    if u >= 0x8000_0000 then u - 0x1_0000_0000 else u
  }

  function Bits(x: int): bv32 {
    ToUint32(x) as bv32
  }

  /** `a ^ b` on Numbers. */
  function JsXor(a: int, b: int): int {
    ToInt32((Bits(a) ^ Bits(b)) as int)
  }

  /** `Math.imul(a, b)`. */
  function Imul(a: int, b: int): int {
    ToInt32(ToUint32(a) * ToUint32(b))
  }

  /** One step of 32-bit FNV-1a on unsigned values. */
  function FnvStep(h: int, unit: int): (r: int)
    requires 0 <= h < 0x1_0000_0000
    ensures 0 <= r < 0x1_0000_0000
  {
    (((h as bv32) ^ Bits(unit)) as int * 16777619) % 0x1_0000_0000
  }

  /** The 32-bit FNV-1a hash of a sequence of code units. */
  function Fnv1a(units: seq<int>): (h: int)
    ensures 0 <= h < 0x1_0000_0000
  {
    if units == [] then 2166136261
    else FnvStep(Fnv1a(units[..|units| - 1]), units[|units| - 1])
  }

  /** A 32-bit pattern read as an integer is an unsigned 32-bit value. */
  lemma WordRange(w: bv32)
    ensures 0 <= w as int < 0x1_0000_0000
  {
  }

  /** ToInt32 followed by ToUint32 is the identity on unsigned values. */
  lemma SignedUnsigned(v: int)
    requires 0 <= v < 0x1_0000_0000
    ensures ToUint32(ToInt32(v)) == v
  {
  }

  /** The xor of two Numbers, read back as unsigned, is the xor of their
      32-bit patterns. */
  lemma XorUnsigned(hash: int, unit: int)
    ensures ToUint32(JsXor(hash, unit)) == (Bits(hash) ^ Bits(unit)) as int
  {
    var w := Bits(hash) ^ Bits(unit);
    WordRange(w);
    SignedUnsigned(w as int);
  }

  /** `Math.imul` by the FNV prime, read back as unsigned, is the product
      modulo 2^32. */
  lemma ImulPrime(x: int)
    ensures ToUint32(Imul(x, 16777619)) == (ToUint32(x) * 16777619) % 0x1_0000_0000
  {
    assert ToUint32(16777619) == 16777619;
  }

  /** One iteration of the signed loop agrees with one FNV-1a step. */
  lemma XorImulStep(hash: int, unit: int)
    ensures ToUint32(Imul(JsXor(hash, unit), 16777619)) == FnvStep(ToUint32(hash), unit)
  {
    XorUnsigned(hash, unit);
    ImulPrime(JsXor(hash, unit));
  }

  /** The loop body keeps the unsigned view of the hash equal to the hash
      of the prefix read so far. */
  lemma SeedLoopStep(units: seq<int>, i: nat, hash: int)
    requires i < |units| && ToUint32(hash) == Fnv1a(units[..i])
    ensures ToUint32(Imul(JsXor(hash, units[i]), 16777619)) == Fnv1a(units[..i + 1])
  {
    XorImulStep(hash, units[i]);
    assert units[..i + 1][..i] == units[..i];
  }

  /** `seedFromString`: the loop runs on signed 32-bit intermediate values,
      as JavaScript's `^=` and `Math.imul` produce them, and the result is
      the unsigned FNV-1a hash of the string's UTF-16 code units. */
  method SeedFromString(input: string) returns (seed: int)
    ensures seed == Fnv1a(Utf16Units(input))
    ensures 0 <= seed < 0x1_0000_0000
  {
    var units := Utf16Units(input);
    var hash := 2166136261;
    var i := 0;
    while i < |units|
      invariant 0 <= i <= |units|
      invariant ToUint32(hash) == Fnv1a(units[..i])
    {
      SeedLoopStep(units, i, hash);
      hash := JsXor(hash, units[i]);
      hash := Imul(hash, 16777619);
      i := i + 1;
    }
    assert units[..i] == units;
    seed := ToUint32(hash);
  }

  /** The output word for an internal state (the mixing steps of `rng`). */
  function Mix(state: int): bv32 {
    var s := Bits(state);
    var t1 := (s ^ (s >> 15)) * (s | 1);
    var t2 := t1 ^ (t1 + (t1 ^ (t1 >> 7)) * (t1 | 61));
    t2 ^ (t2 >> 14)
  }

  /** The k-th value (from 0) drawn from the generator seeded with `seed`. */
  function Draw(seed: int, k: nat): (r: real)
    ensures 0.0 <= r < 1.0
  {
    Unit(Mix(ToUint32(seed) + (k + 1) * 0x6d2b79f5))
  }

  /** A 32-bit word as a fraction of 2^32. */
  function Unit(w: bv32): (r: real)
    ensures 0.0 <= r < 1.0
  {
    (w as int) as real / 4294967296.0
  }

  ghost predicate IsUnitOracle(rng: nat -> real) {
    forall k :: 0.0 <= rng(k) < 1.0
  }

  lemma DrawIsUnitOracle(seed: int)
    ensures IsUnitOracle((k: nat) => Draw(seed, k))
  {
  }

  /** The closure returned by `createSeededRng`; `calls` counts the values
      drawn so far. */
  class SeededRng {
    const seed: int
    var state: int
    var calls: nat

    predicate Valid()
      reads this
    {
      state == ToUint32(seed) + calls * 0x6d2b79f5
    }

    constructor(seed: int)
      ensures this.seed == seed && state == ToUint32(seed) && calls == 0
      ensures Valid()
    {
      this.seed := seed;
      state := ToUint32(seed);
      calls := 0;
    }

    /** One call of `rng()`: the state advances by 0x6d2b79f5 and the value
        is the mixed state as a fraction of 2^32. With `Valid()`, the state
        after k + 1 calls is ToUint32(seed) + (k + 1) * 0x6d2b79f5, so call
        number k (from 0) returns Draw(seed, k). */
    method Next() returns (r: real)
      requires Valid()
      modifies this
      ensures Valid() && calls == old(calls) + 1
      ensures state == old(state) + 0x6d2b79f5
      ensures r == Unit(Mix(state))
      ensures 0.0 <= r < 1.0
    {
      state := state + 0x6d2b79f5;
      calls := calls + 1;
      r := Unit(Mix(state));
    }
  }

  /** `Math.floor(r * n)` for a draw r in [0, 1): an index below n. */
  function Pick(r: real, n: nat): (j: nat)
    requires 0.0 <= r < 1.0 && n >= 1
    ensures j < n
  {
    var x := r * (n as real);
    assert 0.0 <= x < n as real by {
      assert r * (n as real) <= r * (n as real);
      assert (1.0 - r) * (n as real) > 0.0;
    }
    x.Floor
  }

  /** The positions i, i-1, ..., 1 of the Fisher-Yates loop, position i
      drawing value number k. */
  function ShuffleFrom<T>(a: seq<T>, i: int, rng: nat -> real, k: nat): (r: seq<T>)
    requires IsUnitOracle(rng)
    requires i < |a|
    ensures |r| == |a|
    decreases i
  {
    if i <= 0 then a
    else ShuffleFrom(Swap(a, i, Pick(rng(k), i + 1)), i - 1, rng, k + 1)
  }

  /** The order `shuffleArray` produces for the values drawn by rng. */
  function FisherYates<T>(s: seq<T>, rng: nat -> real): (r: seq<T>)
    requires IsUnitOracle(rng)
    ensures |r| == |s|
  {
    ShuffleFrom(s, |s| - 1, rng, 0)
  }

  /** One position of the loop: swapping position i with its pick and
      continuing from i - 1 is the same shuffle. */
  lemma ShuffleStep<T>(a: seq<T>, i: int, rng: nat -> real, k: nat)
    requires IsUnitOracle(rng) && 0 < i < |a|
    ensures ShuffleFrom(a, i, rng, k) == ShuffleFrom(Swap(a, i, Pick(rng(k), i + 1)), i - 1, rng, k + 1)
  {
  }

  /** The loop of shuffleArray, at position i with k values drawn, is on
      its way to the shuffle of s. */
  ghost predicate ShuffleReaches<T>(a: seq<T>, i: int, rng: nat -> real, k: nat, s: seq<T>)
    requires IsUnitOracle(rng) && i < |a|
  {
    ShuffleFrom(a, i, rng, k) == FisherYates(s, rng)
  }

  /** The loop of shuffleArray after swapping position i (drawing value
      number |s| - 1 - i) is at the same shuffle, one position lower. */
  lemma ShuffleLoopStep<T>(before: seq<T>, after: seq<T>, i: int, rng: nat -> real, k: nat, s: seq<T>)
    requires IsUnitOracle(rng) && 0 < i < |before|
    requires ShuffleReaches(before, i, rng, k, s)
    requires after == before[i := before[Pick(rng(k), i + 1)]][Pick(rng(k), i + 1) := before[i]]
    ensures ShuffleReaches(after, i - 1, rng, k + 1, s)
  {
    ShuffleStep(before, i, rng, k);
  }

  /** Once the position reaches 0 the loop holds the whole shuffle. */
  lemma ShuffleDone<T>(a: seq<T>, i: int, rng: nat -> real, k: nat, s: seq<T>)
    requires IsUnitOracle(rng) && i <= 0 && i < |a|
    requires ShuffleReaches(a, i, rng, k, s)
    ensures a == FisherYates(s, rng)
  {
  }

  lemma {:induction false} ShuffleFromPermutes<T>(a: seq<T>, i: int, rng: nat -> real, k: nat)
    requires IsUnitOracle(rng) && i < |a|
    ensures multiset(ShuffleFrom(a, i, rng, k)) == multiset(a)
    decreases i
  {
    if i <= 0 {
      assert ShuffleFrom(a, i, rng, k) == a;
    } else {
      var b := Swap(a, i, Pick(rng(k), i + 1));
      var c := ShuffleFrom(b, i - 1, rng, k + 1);
      ShuffleFromPermutes(b, i - 1, rng, k + 1);
      ShuffleStep(a, i, rng, k);
      SwapPermutes(a, i, Pick(rng(k), i + 1));
      assert multiset(c) == multiset(b) == multiset(a);
    }
  }

  /** A shuffle is a permutation of its input. */
  lemma FisherYatesPermutes<T>(s: seq<T>, rng: nat -> real)
    requires IsUnitOracle(rng)
    ensures multiset(FisherYates(s, rng)) == multiset(s)
  {
    ShuffleFromPermutes(s, |s| - 1, rng, 0);
  }

  /** The shuffle moves positions, whatever they hold: shuffling and then
      mapping is mapping and then shuffling. */
  lemma {:induction false} ShuffleFromMap<T, U>(a: seq<T>, i: int, rng: nat -> real, k: nat, f: T -> U)
    requires IsUnitOracle(rng) && i < |a|
    ensures Map(ShuffleFrom(a, i, rng, k), f) == ShuffleFrom(Map(a, f), i, rng, k)
    decreases i
  {
    if i > 0 {
      var j := Pick(rng(k), i + 1);
      MapSwap(a, i, j, f);
      ShuffleFromMap(Swap(a, i, j), i - 1, rng, k + 1, f);
    }
  }

  lemma FisherYatesMap<T, U>(s: seq<T>, rng: nat -> real, f: T -> U)
    requires IsUnitOracle(rng)
    ensures Map(FisherYates(s, rng), f) == FisherYates(Map(s, f), rng)
  {
    ShuffleFromMap(s, |s| - 1, rng, 0, f);
  }

  /** `shuffleArray`: a new array holding a copy of the input, shuffled in
      place from the last position down; None stands for a value that is
      not an array, which yields an empty array. */
  method ShuffleArray<T>(input: Option<seq<T>>, rng: nat -> real) returns (out: array<T>)
    requires IsUnitOracle(rng)
    ensures fresh(out)
    ensures input.None? ==> out.Length == 0
    ensures input.Some? ==> out[..] == FisherYates(input.value, rng)
    ensures input.Some? ==> multiset(out[..]) == multiset(input.value)
  {
    var s := if input.Some? then input.value else [];
    out := new T[|s|](k requires 0 <= k < |s| => s[k]);
    assert out[..] == s;
    ShuffleInPlace(out, rng);
    if input.Some? {
      FisherYatesPermutes(s, rng);
    }
  }

  /** The loop of `shuffleArray`: position i, from the last down to 1,
      swaps with a position drawn in 0..i. */
  method ShuffleInPlace<T>(a: array<T>, rng: nat -> real)
    requires IsUnitOracle(rng)
    modifies a
    ensures a[..] == FisherYates(old(a[..]), rng)
  {
    ghost var s := a[..];
    var i := a.Length - 1;
    var k := 0;
    while i > 0
      invariant -1 <= i < a.Length == |s| && k == |s| - 1 - i
      invariant ShuffleReaches(a[..], i, rng, k, s)
    {
      var j := Pick(rng(k), i + 1);
      ghost var before := a[..];
      SwapElements(a, i, j);
      ShuffleLoopStep(before, a[..], i, rng, k, s);
      i := i - 1;
      k := k + 1;
    }
    ShuffleDone(a[..], i, rng, k, s);
  }

  /** `[array[i], array[j]] = [array[j], array[i]]`. */
  method SwapElements<T>(a: array<T>, i: nat, j: nat)
    requires i < a.Length && j < a.Length
    modifies a
    ensures a[..] == old(a[..])[i := old(a[j])][j := old(a[i])]
  {
    a[i], a[j] := a[j], a[i];
  }
}
