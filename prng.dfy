/**
 * The pseudo-random generator `random.Random` of Python's standard library,
 * seen only through what the book generator uses of it: seeding from an
 * integer, and `randint`, which reads the hidden state, yields an index and
 * leaves the next state behind. The Mersenne Twister and the rejection
 * sampling inside `randint` are foreign code; they are the two opaque
 * functions of an `Engine`, which every operation of the model takes as a
 * parameter. Only the range guarantee of `randint` is assumed (`Sound`).
 */
module Prng {

  /**
   * `seeded(n)` is the state `random.Random(n)` starts in, for `n >= 0`;
   * `randBelow(s, n)` is the index in [0, n) that a draw from state `s`
   * yields, paired with the state after the draw.
   */
  datatype Engine<!S> = Engine(seeded: nat -> S, randBelow: (S, nat) -> (nat, S))

  /** What `randint(0, n - 1)` promises: every index it draws is below `n`. */
  ghost predicate Sound<S(!new)>(e: Engine<S>) {
    forall s: S, n: nat :: 0 < n ==> e.randBelow(s, n).0 < n
  }

  /** The state reached from `s` after `k` successive draws below `n`. */
  function After<S>(e: Engine<S>, s: S, n: nat, k: nat): S
  {
    if k == 0 then s else e.randBelow(After(e, s, n, k - 1), n).1
  }

  /** The `k` indices drawn below `n` from state `s`, in draw order. */
  function Draws<S(!new)>(e: Engine<S>, s: S, n: nat, k: nat): (d: seq<nat>)
    ensures |d| == k
    ensures Sound(e) && 0 < n ==> forall i :: 0 <= i < k ==> d[i] < n
  {
    if k == 0 then [] else Draws(e, s, n, k - 1) + [e.randBelow(After(e, s, n, k - 1), n).0]
  }

  /**
   * The stream is sequential: drawing `a + b` indices is drawing `a`, then
   * `b` more from the state the first `a` left behind.
   */
  lemma {:induction false} DrawsSplit<S(!new)>(e: Engine<S>, s: S, n: nat, a: nat, b: nat)
    ensures After(e, s, n, a + b) == After(e, After(e, s, n, a), n, b)
    ensures Draws(e, s, n, a + b) == Draws(e, s, n, a) + Draws(e, After(e, s, n, a), n, b)
  {
    if b > 0 {
      DrawsSplit(e, s, n, a, b - 1);
    }
  }

  /** Drawing more indices only extends the stream already drawn. */
  lemma DrawsPrefix<S(!new)>(e: Engine<S>, s: S, n: nat, k: nat, m: nat)
    requires k <= m
    ensures Draws(e, s, n, m)[..k] == Draws(e, s, n, k)
  {
    DrawsSplit(e, s, n, k, m - k);
  }

  /** An integer seed counts by its absolute value: `random.Random(-n)` behaves as `random.Random(n)`. */
  function SeedMagnitude(seed: int): (m: nat)
    ensures m == seed || m == -seed
  {
    if seed < 0 then -seed else seed
  }

  /** A seed and its negation start the generator in the same state. */
  lemma SeededNegation<S>(e: Engine<S>, n: nat)
    ensures Seeded(e, -(n as int)) == Seeded(e, n)
  {
  }

  /** The state `random.Random(seed)` starts in. */
  function Seeded<S>(e: Engine<S>, seed: int): (s: S)
    ensures 0 <= seed ==> s == e.seeded(seed)
    ensures seed < 0 ==> s == e.seeded(-seed)
  {
    e.seeded(SeedMagnitude(seed))
  }

  /** A `random.Random` object: its engine is fixed, its state advances with every draw. */
  class Random<S(!new)> {
    const engine: Engine<S>
    var state: S

    /** `random.Random(seed)`: a fresh generator, independent of every other one. */
    constructor (engine: Engine<S>, seed: int)
      ensures this.engine == engine && state == Seeded(engine, seed)
    {
      this.engine := engine;
      state := engine.seeded(SeedMagnitude(seed));
    }

    /** `randint(lo, hi)`, which draws `lo + _randbelow(hi - lo + 1)`. */
    method RandInt(lo: int, hi: int) returns (x: int)
      requires lo <= hi && Sound(engine)
      modifies this
      ensures lo <= x <= hi
      ensures x == lo + engine.randBelow(old(state), hi - lo + 1).0
      ensures state == engine.randBelow(old(state), hi - lo + 1).1
    {
      var drawn := engine.randBelow(state, hi - lo + 1);
      x := lo + drawn.0;
      state := drawn.1;
    }
  }
}
