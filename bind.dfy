/**
 * A bound generator: one distribution and one engine held together, drawing one
 * distributed value per call (bind.hpp). The distribution's draw is the function
 * `draw`, which sees exactly one engine word per call.
 */
module BoundGenerators {
  import opened Engines

  /** The (i+1)-th value of the stream of d over the engine started in s. */
  function NthDraw<S, D, T>(ops: Engine<S>, draw: (D, Word) -> T, d: D, s: S, i: nat): T {
    draw(d, ops.output(Advance(ops, s, i)))
  }

  /** What n successive calls of a bound generator in engine state s return. */
  function Draws<S, D, T>(ops: Engine<S>, draw: (D, Word) -> T, d: D, s: S, n: nat): (r: seq<T>)
    ensures |r| == n
    decreases n
  {
    if n == 0 then [] else [draw(d, ops.output(s))] + Draws(ops, draw, d, ops.step(s), n - 1)
  }

  /** The i-th of n successive calls is the draw made from the state after i draws. */
  lemma {:induction false} DrawsAt<S, D, T>(ops: Engine<S>, draw: (D, Word) -> T, d: D, s: S, n: nat, i: nat)
    requires i < n
    ensures Draws(ops, draw, d, s, n)[i] == NthDraw(ops, draw, d, s, i)
    decreases i
  {
    if i > 0 {
      DrawsAt(ops, draw, d, ops.step(s), n - 1, i - 1);
    }
  }

  /** Skipping k and drawing once gives the (k+1)-th of k+1 successive calls. */
  lemma DiscardThenCall<S(!new), D, T>(ops: Engine<S>, draw: (D, Word) -> T, d: D, s: S, k: nat)
    requires DiscardExact(ops)
    ensures draw(d, ops.output(ops.discard(s, k))) == Draws(ops, draw, d, s, k + 1)[k]
  {
    DrawsAt(ops, draw, d, s, k + 1, k);
  }

  /** Calls from one state split at any point into calls from the state reached there. */
  lemma {:induction false} DrawsSplit<S, D, T>(ops: Engine<S>, draw: (D, Word) -> T, d: D, s: S, j: nat, k: nat)
    ensures Draws(ops, draw, d, s, j + k) == Draws(ops, draw, d, s, j) + Draws(ops, draw, d, Advance(ops, s, j), k)
    decreases j
  {
    if j > 0 {
      DrawsSplit(ops, draw, d, ops.step(s), j - 1, k);
    }
  }

  class BoundGenerator<S, D, T> {
    const ops: Engine<S>
    const draw: (D, Word) -> T
    var dist: D
    var engine: S

    /** `bind_struct(d, e)`: holds the given distribution and engine by value. */
    constructor (ops: Engine<S>, draw: (D, Word) -> T, d: D, e: S)
      ensures this.ops == ops && this.draw == draw
      ensures dist == d && engine == e
    {
      this.ops := ops;
      this.draw := draw;
      dist := d;
      engine := e;
    }

    /** `operator()`: one draw of the distribution; only the engine moves, by one step. */
    method Call() returns (v: T)
      modifies this
      ensures v == draw(dist, ops.output(old(engine)))
      ensures engine == ops.step(old(engine)) && dist == old(dist)
    {
      v := draw(dist, ops.output(engine));
      engine := ops.step(engine);
    }

    /** `discard(k)`: skips the engine ahead by k; the distribution is untouched. */
    method Discard(k: nat)
      modifies this
      ensures engine == ops.discard(old(engine), k) && dist == old(dist)
    {
      engine := ops.discard(engine, k);
    }

    /** A by-value copy (`auto tlg = g`): an independent object with equal members. */
    method Copy() returns (c: BoundGenerator<S, D, T>)
      ensures fresh(c)
      ensures c.ops == ops && c.draw == draw && c.dist == dist && c.engine == engine
    {
      c := new BoundGenerator(ops, draw, dist, engine);
    }
  }

  /** The factory `bind(d, e)`. */
  method Bind<S, D, T>(ops: Engine<S>, draw: (D, Word) -> T, d: D, e: S) returns (g: BoundGenerator<S, D, T>)
    ensures fresh(g) && g.ops == ops && g.draw == draw && g.dist == d && g.engine == e
  {
    g := new BoundGenerator(ops, draw, d, e);
  }

  /**
   * Skip-ahead on one copy against k + 1 calls on another: both end on the same value,
   * the (k+1)-th of the stream, and the original generator is left as it was.
   */
  method SkipAheadMatchesCalls<S(!new), D, T>(g: BoundGenerator<S, D, T>, k: nat) returns (skipped: T, called: T)
    requires DiscardExact(g.ops)
    ensures skipped == called
    ensures called == Draws(g.ops, g.draw, g.dist, g.engine, k + 1)[k]
  {
    var jumper := g.Copy();
    jumper.Discard(k);
    skipped := jumper.Call();

    var walker := g.Copy();
    var i := 0;
    while i < k
      invariant i <= k
      invariant fresh(walker)
      invariant walker.ops == g.ops && walker.draw == g.draw && walker.dist == g.dist
      invariant walker.engine == Advance(g.ops, g.engine, i)
    {
      var _ := walker.Call();
      AdvanceStep(g.ops, g.engine, i);
      i := i + 1;
    }
    called := walker.Call();
    DrawsAt(g.ops, g.draw, g.dist, g.engine, k + 1, k);
  }
}
