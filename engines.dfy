/**
 * The random engine the bound generator drives, seen only through the operations
 * the core uses: the word the current state yields, the step to the next state, and
 * the engine's own skip-ahead. The state type and all three operations are
 * parameters, so the model holds for every engine whose skip-ahead is exact.
 */
module Engines {

  /** One output of the engine: pcg32 yields 32-bit words. */
  type Word = w: nat | w < 0x1_0000_0000

  /**
   * An engine type over its state type S. Drawing from state s yields `output(s)`
   * and leaves the engine in `step(s)`; `discard(s, k)` is the engine's skip-ahead.
   */
  datatype Engine<!S> = Engine(output: S -> Word, step: S -> S, discard: (S, nat) -> S)

  /** The state reached from s after k draws. */
  function Advance<S>(ops: Engine<S>, s: S, k: nat): S
    decreases k
  {
    if k == 0 then s else Advance(ops, ops.step(s), k - 1)
  }

  /** The engine's skip-ahead lands where k draws would: the exactness the core rests on. */
  ghost predicate DiscardExact<S(!new)>(ops: Engine<S>) {
    forall s, k :: ops.discard(s, k) == Advance(ops, s, k)
  }

  /** One more draw after k draws is k + 1 draws. */
  lemma {:induction false} AdvanceStep<S>(ops: Engine<S>, s: S, k: nat)
    ensures Advance(ops, s, k + 1) == ops.step(Advance(ops, s, k))
    decreases k
  {
    if k > 0 {
      AdvanceStep(ops, ops.step(s), k - 1);
    }
  }

  /** Skipping j and then k draws is skipping j + k draws. */
  lemma {:induction false} AdvanceAdd<S>(ops: Engine<S>, s: S, j: nat, k: nat)
    ensures Advance(ops, Advance(ops, s, j), k) == Advance(ops, s, j + k)
    decreases j
  {
    if j > 0 {
      AdvanceAdd(ops, ops.step(s), j - 1, k);
    }
  }

  /**
   * The conversions from one engine word to a uniform variate. The library's own
   * utility::uniformco/uniformoo/uniformoc are not part of this model; these stand-ins
   * consume one word each and land in the interval each name promises, which is all
   * the proofs use.
   */
  function UniformCo(w: Word): (u: real)
    ensures 0.0 <= u < 1.0
  {
    w as real / 4294967296.0
  }

  function UniformOo(w: Word): (u: real)
    ensures 0.0 < u < 1.0
  {
    (w as real + 1.0) / 4294967297.0
  }

  function UniformOc(w: Word): (u: real)
    ensures 0.0 < u <= 1.0
  {
    (w as real + 1.0) / 4294967296.0
  }
}
