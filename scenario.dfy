/**
 * The library's own use: a vector filled in parallel from
 * `bind(uniform_int_dist(10, 100), engine)`. Every value lies in [10, 99], and the
 * vector is the one a serial fill from the same generator produces.
 */
module Scenario {
  import opened Engines
  import opened BoundGenerators
  import opened Generate
  import UniformInt

  /** The generator of the example: uniform_int_dist(10, 100) bound to an engine. */
  ghost predicate IsExampleGenerator<S>(g: BoundGenerator<S, UniformInt.Param, int>)
    reads g
  {
    && (forall p, w :: g.draw(p, w) == UniformInt.Sample(p, w))
    && g.dist == UniformInt.MakeParam(10, 100)
  }

  /** The (i+1)-th draw of the example generator lies in [10, 99]. */
  lemma ExampleDrawInRange<S>(ops: Engine<S>, draw: (UniformInt.Param, Word) -> int, s: S, n: nat, i: nat)
    requires forall p, w :: draw(p, w) == UniformInt.Sample(p, w)
    requires i < n
    ensures 10 <= Draws(ops, draw, UniformInt.MakeParam(10, 100), s, n)[i] <= 99
  {
    var p := UniformInt.MakeParam(10, 100);
    DrawsAt(ops, draw, p, s, n, i);
    UniformInt.SampleInSupport(p, ops.output(Advance(ops, s, i)));
  }

  /**
   * Fill `v` with `size` workers and `serial` with the serial loop: both hold values
   * in [10, 99] and they hold the same values.
   */
  method FillExample<S(!new)>(v: array<int>, serial: array<int>,
                              g: BoundGenerator<S, UniformInt.Param, int>, size: nat)
    requires v != serial && v.Length == serial.Length
    requires size >= 1 && DiscardExact(g.ops) && IsExampleGenerator(g)
    modifies v, serial
    ensures forall i :: 0 <= i < v.Length ==> 10 <= v[i] <= 99
    ensures v[..] == serial[..]
  {
    GenerateBlocks(v, 0, v.Length, g, size);
    GenerateSerial(serial, 0, serial.Length, g);
    assert v[..] == v[0..v.Length];
    assert serial[..] == serial[0..serial.Length];
    forall i | 0 <= i < v.Length
      ensures 10 <= v[i] <= 99
    {
      ExampleDrawInRange(g.ops, g.draw, g.engine, v.Length, i);
      assert v[i] == v[0..v.Length][i];
    }
  }
}
