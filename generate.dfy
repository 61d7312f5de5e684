/**
 * The partition-and-fill algorithm (algorithm/generate.hpp). Both forms fill
 * `a[s..e]` so that slot s + i holds the (i+1)-th value of one unbroken serial stream
 * of the given generator. Workers share nothing and write disjoint slots, so they
 * are run one after the other here: first over workers, then over their indices.
 */
module Generate {
  import opened Engines
  import opened BoundGenerators

  // ---------------------------------------------------------------------------
  // Block splitting (OpenMP): worker t of `size` fills [t*n/size, (t+1)*n/size).

  /** Where block t of `size` blocks over n indices starts (block t ends where t + 1 starts). */
  function BlockStart(t: nat, n: nat, size: nat): nat
    requires size >= 1
  {
    t * n / size
  }

  /** Floor division by a positive divisor is monotone. */
  lemma DivMonotone(x: nat, y: nat, d: nat)
    requires x <= y && d >= 1
    ensures x / d <= y / d
  {
    if x / d > y / d {
      calc {
        x;
        >= d * (x / d);
        >= { assert x / d >= y / d + 1; MulMonotone(y / d + 1, x / d, d); }
        d * (y / d + 1);
        == d * (y / d) + d;
        > y;
      }
    }
  }

  lemma MulMonotone(i: nat, j: nat, n: nat)
    requires i <= j
    ensures i * n <= j * n
  {
    assert j * n == i * n + (j - i) * n;
  }

  /** (size * n) / size == n. */
  lemma MulDivCancel(n: nat, size: nat)
    requires size >= 1
    ensures size * n / size == n
  {
    var q := size * n / size;
    var r := size * n % size;
    assert size * n == size * q + r && 0 <= r < size;
    assert size * (n - q) == r;
    MulBelowDivisor(n - q, size);
  }

  /** A multiple of size lying in [0, size) is 0 times size. */
  lemma MulBelowDivisor(k: int, size: nat)
    requires size >= 1 && 0 <= size * k < size
    ensures k == 0
  {
    if k >= 1 {
      MulMonotone(1, k, size);
    }
  }

  /** Blocks start in order: a later worker never starts before an earlier one. */
  lemma BlockStartMonotone(t1: nat, t2: nat, n: nat, size: nat)
    requires size >= 1 && t1 <= t2
    ensures BlockStart(t1, n, size) <= BlockStart(t2, n, size)
  {
    MulMonotone(t1, t2, n);
    DivMonotone(t1 * n, t2 * n, size);
  }

  /** Block 0 starts at 0, the last block ends at n, and every block ends where the next begins. */
  lemma BlockEnds(n: nat, size: nat)
    requires size >= 1
    ensures BlockStart(0, n, size) == 0
    ensures BlockStart(size, n, size) == n
    ensures forall t :: 0 <= t < size ==> BlockStart(t, n, size) <= BlockStart(t + 1, n, size)
  {
    MulDivCancel(n, size);
    forall t | 0 <= t < size
      ensures BlockStart(t, n, size) <= BlockStart(t + 1, n, size)
    {
      BlockStartMonotone(t, t + 1, n, size);
    }
  }

  /** Two different workers' blocks do not overlap. */
  lemma BlocksDisjoint(t1: nat, t2: nat, n: nat, size: nat)
    requires size >= 1 && t1 < t2
    ensures BlockStart(t1 + 1, n, size) <= BlockStart(t2, n, size)
  {
    BlockStartMonotone(t1 + 1, t2, n, size);
  }

  /** Every index below n lies in the block of some worker. */
  lemma BlocksCover(i: nat, n: nat, size: nat)
    requires size >= 1 && i < n
    ensures exists t :: 0 <= t < size && BlockStart(t, n, size) <= i < BlockStart(t + 1, n, size)
  {
    BlockEnds(n, size);
    BlockFind(i, n, size, 0, size);
  }

  lemma {:induction false} BlockFind(i: nat, n: nat, size: nat, lo: nat, hi: nat)
    requires size >= 1 && lo < hi
    requires BlockStart(lo, n, size) <= i < BlockStart(hi, n, size)
    ensures exists t :: lo <= t < hi && BlockStart(t, n, size) <= i < BlockStart(t + 1, n, size)
    decreases hi - lo
  {
    if i >= BlockStart(lo + 1, n, size) {
      BlockFind(i, n, size, lo + 1, hi);
    }
  }

  /**
   * The body of the parallel region for worker `tidx` of `size`: its own copy of g,
   * skipped ahead to the block's first index, draws through the block in order.
   */
  method Worker<S(!new), D, T>(a: array<T>, s: nat, n: nat, g: BoundGenerator<S, D, T>, tidx: nat, size: nat)
    requires s + n <= a.Length
    requires tidx < size
    requires DiscardExact(g.ops)
    modifies a
    ensures BlockStart(tidx, n, size) <= BlockStart(tidx + 1, n, size) <= n
    ensures forall j :: BlockStart(tidx, n, size) <= j < BlockStart(tidx + 1, n, size) ==>
      a[s + j] == NthDraw(g.ops, g.draw, g.dist, g.engine, j)
    ensures forall j :: 0 <= j < a.Length && !(s + BlockStart(tidx, n, size) <= j < s + BlockStart(tidx + 1, n, size)) ==>
      a[j] == old(a[j])
    ensures unchanged(g)
  {
    BlockStartMonotone(tidx, tidx + 1, n, size);
    BlockStartMonotone(tidx + 1, size, n, size);
    MulDivCancel(n, size);
    var first := tidx * n / size;
    var last := (tidx + 1) * n / size;
    var tlg := g.Copy();
    tlg.Discard(first);
    var i := first;
    while i < last
      invariant first <= i <= last
      invariant tlg.ops == g.ops && tlg.draw == g.draw && tlg.dist == g.dist
      invariant tlg.engine == Advance(g.ops, g.engine, i)
      invariant forall j :: first <= j < i ==> a[s + j] == NthDraw(g.ops, g.draw, g.dist, g.engine, j)
      invariant forall j :: 0 <= j < a.Length && !(s + first <= j < s + i) ==> a[j] == old(a[j])
    {
      a[s + i] := tlg.Call();
      AdvanceStep(g.ops, g.engine, i);
      i := i + 1;
    }
  }

  /**
   * The OpenMP `generate`: `size` workers, each filling its own block; run here one
   * worker after the other.
   */
  method GenerateBlocks<S(!new), D, T>(a: array<T>, s: nat, e: nat, g: BoundGenerator<S, D, T>, size: nat)
    requires s <= e <= a.Length
    requires size >= 1
    requires DiscardExact(g.ops)
    modifies a
    ensures a[s..e] == Draws(g.ops, g.draw, g.dist, g.engine, e - s)
    ensures a[..s] == old(a[..s]) && a[e..] == old(a[e..])
    ensures unchanged(g)
  {
    var n := e - s;
    BlockEnds(n, size);
    var tidx := 0;
    while tidx < size
      invariant tidx <= size
      invariant forall j :: 0 <= j < BlockStart(tidx, n, size) ==> a[s + j] == NthDraw(g.ops, g.draw, g.dist, g.engine, j)
      invariant forall j :: 0 <= j < a.Length && !(s <= j < s + BlockStart(tidx, n, size)) ==> a[j] == old(a[j])
    {
      Worker(a, s, n, g, tidx, size);
      tidx := tidx + 1;
    }
    forall j | 0 <= j < n
      ensures a[s..e][j] == Draws(g.ops, g.draw, g.dist, g.engine, n)[j]
    {
      DrawsAt(g.ops, g.draw, g.dist, g.engine, n, j);
    }
  }

  // ---------------------------------------------------------------------------
  // Per-element splitting (CUDA, ROCm and oneAPI): one thread per index.

  const ThreadsPerBlock: nat := 256

  /** The threads launched for n indices: (n/256 + 1) blocks of 256, always more than n. */
  function JobSize(n: nat): (threads: nat)
    ensures threads > n
    ensures threads % ThreadsPerBlock == 0
  {
    (n / ThreadsPerBlock + 1) * ThreadsPerBlock
  }

  /**
   * The body of one device thread (`block_splitting`): with its own copy of g, thread
   * idx writes slot idx, and only when idx < n, with the (idx+1)-th draw.
   */
  method Kernel<S(!new), D, T>(a: array<T>, s: nat, n: nat, g: BoundGenerator<S, D, T>, idx: nat)
    requires s + n <= a.Length
    requires DiscardExact(g.ops)
    modifies a
    ensures idx < n ==> a[s + idx] == NthDraw(g.ops, g.draw, g.dist, g.engine, idx)
    ensures forall j :: 0 <= j < a.Length && (n <= idx || j != s + idx) ==> a[j] == old(a[j])
    ensures unchanged(g)
  {
    var tlg := g.Copy();
    if idx < n {
      tlg.Discard(idx);
      a[s + idx] := tlg.Call();
    }
  }

  /**
   * The oneAPI `generate` as written: a range of (n/256 + 1) * 256 work items in groups
   * of 256, item `group * 256 + local` (a `size_t`, so no index is lost) running the
   * kernel for that index. The accessor spans the whole buffer behind s, and the kernel
   * writes `oa[idx]`, so the draws land in the buffer's first n slots wherever s points.
   */
  method GenerateOneApi<S(!new), D, T>(a: array<T>, s: nat, e: nat, g: BoundGenerator<S, D, T>)
    requires s <= e <= a.Length
    requires DiscardExact(g.ops)
    modifies a
    ensures a[..e - s] == Draws(g.ops, g.draw, g.dist, g.engine, e - s)
    ensures a[e - s..] == old(a[e - s..])
    ensures unchanged(g)
  {
    var n := e - s;
    var blocksPerGrid := n / ThreadsPerBlock + 1;
    var block := 0;
    while block < blocksPerGrid
      invariant block <= blocksPerGrid
      invariant forall j :: 0 <= j < n && j < block * ThreadsPerBlock ==> a[j] == NthDraw(g.ops, g.draw, g.dist, g.engine, j)
      invariant a[n..] == old(a[n..])
    {
      var thread := 0;
      while thread < ThreadsPerBlock
        invariant thread <= ThreadsPerBlock
        invariant forall j :: 0 <= j < n && j < block * ThreadsPerBlock + thread ==> a[j] == NthDraw(g.ops, g.draw, g.dist, g.engine, j)
        invariant a[n..] == old(a[n..])
      {
        Kernel(a, 0, n, g, block * ThreadsPerBlock + thread);
        thread := thread + 1;
      }
      block := block + 1;
    }
    assert blocksPerGrid * ThreadsPerBlock == JobSize(n);
    forall j | 0 <= j < n
      ensures a[..n][j] == Draws(g.ops, g.draw, g.dist, g.engine, n)[j]
    {
      DrawsAt(g.ops, g.draw, g.dist, g.engine, n, j);
    }
  }

  /**
   * When s is not the buffer's first slot, the oneAPI fill leaves the last slot of
   * [s, e) as it was: the draws went to [0, e - s) instead.
   */
  lemma OneApiMissesRangeEnd<T>(before: seq<T>, after: seq<T>, s: nat, e: nat)
    requires 0 < s < e <= |before| == |after|
    requires after[e - s..] == before[e - s..]
    ensures after[e - 1] == before[e - 1]
  {
    assert after[e - 1] == after[e - s..][s - 1];
  }

  /**
   * The per-element fill as intended, with a wide index counted from s: item
   * `group * 256 + local` runs the kernel for that index, writing slot s + idx.
   */
  method GeneratePerElement<S(!new), D, T>(a: array<T>, s: nat, e: nat, g: BoundGenerator<S, D, T>)
    requires s <= e <= a.Length
    requires DiscardExact(g.ops)
    modifies a
    ensures a[s..e] == Draws(g.ops, g.draw, g.dist, g.engine, e - s)
    ensures a[..s] == old(a[..s]) && a[e..] == old(a[e..])
    ensures unchanged(g)
  {
    var n := e - s;
    var blocksPerGrid := n / ThreadsPerBlock + 1;
    var block := 0;
    while block < blocksPerGrid
      invariant block <= blocksPerGrid
      invariant forall j :: 0 <= j < n && j < block * ThreadsPerBlock ==> a[s + j] == NthDraw(g.ops, g.draw, g.dist, g.engine, j)
      invariant a[..s] == old(a[..s]) && a[e..] == old(a[e..])
    {
      var thread := 0;
      while thread < ThreadsPerBlock
        invariant thread <= ThreadsPerBlock
        invariant forall j :: 0 <= j < n && j < block * ThreadsPerBlock + thread ==> a[s + j] == NthDraw(g.ops, g.draw, g.dist, g.engine, j)
        invariant a[..s] == old(a[..s]) && a[e..] == old(a[e..])
      {
        Kernel(a, s, n, g, block * ThreadsPerBlock + thread);
        thread := thread + 1;
      }
      block := block + 1;
    }
    assert blocksPerGrid * ThreadsPerBlock == JobSize(n);
    forall j | 0 <= j < n
      ensures a[s..e][j] == Draws(g.ops, g.draw, g.dist, g.engine, n)[j]
    {
      DrawsAt(g.ops, g.draw, g.dist, g.engine, n, j);
    }
  }

  /** 2^32: the CUDA and ROCm thread index is an `unsigned int`. */
  const IndexRange: nat := 0x1_0000_0000

  function MinNat(x: nat, y: nat): nat {
    if x <= y then x else y
  }

  /**
   * The CUDA and ROCm `generate`: a grid of n/256 + 1 blocks of 256 threads. Thread
   * `block * 256 + thread` computes its index in 32-bit unsigned arithmetic, so the
   * index wraps modulo 2^32: the first min(n, 2^32) slots get their serial draws,
   * some of them twice, and any slot from 2^32 on is never written.
   */
  method GenerateDevice<S(!new), D, T>(a: array<T>, s: nat, e: nat, g: BoundGenerator<S, D, T>)
    requires s <= e <= a.Length
    requires DiscardExact(g.ops)
    modifies a
    ensures a[s..s + MinNat(e - s, IndexRange)] == Draws(g.ops, g.draw, g.dist, g.engine, MinNat(e - s, IndexRange))
    ensures a[..s] == old(a[..s]) && a[s + MinNat(e - s, IndexRange)..] == old(a[s + MinNat(e - s, IndexRange)..])
    ensures unchanged(g)
  {
    var n := e - s;
    var m := MinNat(n, IndexRange);
    var blocksPerGrid := n / ThreadsPerBlock + 1;
    var block := 0;
    while block < blocksPerGrid
      invariant block <= blocksPerGrid
      invariant forall j :: 0 <= j < m && j < block * ThreadsPerBlock ==> a[s + j] == NthDraw(g.ops, g.draw, g.dist, g.engine, j)
      invariant forall j :: 0 <= j < a.Length && !(s <= j < s + m) ==> a[j] == old(a[j])
    {
      var thread := 0;
      while thread < ThreadsPerBlock
        invariant thread <= ThreadsPerBlock
        invariant forall j :: 0 <= j < m && j < block * ThreadsPerBlock + thread ==> a[s + j] == NthDraw(g.ops, g.draw, g.dist, g.engine, j)
        invariant forall j :: 0 <= j < a.Length && !(s <= j < s + m) ==> a[j] == old(a[j])
      {
        DeviceThread(a, s, n, g, block * ThreadsPerBlock + thread);
        thread := thread + 1;
      }
      block := block + 1;
    }
    assert blocksPerGrid * ThreadsPerBlock == JobSize(n);
    forall j | 0 <= j < m
      ensures a[s..s + m][j] == Draws(g.ops, g.draw, g.dist, g.engine, m)[j]
    {
      DrawsAt(g.ops, g.draw, g.dist, g.engine, m, j);
    }
  }

  /**
   * Thread number k of the CUDA/ROCm grid runs the kernel for index k mod 2^32: it
   * extends the filled prefix by slot k if k < 2^32 and n, and otherwise at most
   * rewrites a slot of that prefix with the value it already holds.
   */
  method DeviceThread<S(!new), D, T>(a: array<T>, s: nat, n: nat, g: BoundGenerator<S, D, T>, k: nat)
    requires s + n <= a.Length
    requires DiscardExact(g.ops)
    requires forall j :: 0 <= j < MinNat(n, IndexRange) && j < k ==> a[s + j] == NthDraw(g.ops, g.draw, g.dist, g.engine, j)
    modifies a
    ensures forall j :: 0 <= j < MinNat(n, IndexRange) && j < k + 1 ==> a[s + j] == NthDraw(g.ops, g.draw, g.dist, g.engine, j)
    ensures forall j :: 0 <= j < a.Length && !(s <= j < s + MinNat(n, IndexRange)) ==> a[j] == old(a[j])
    ensures unchanged(g)
  {
    if k < IndexRange {
      assert k % IndexRange == k;
    }
    Kernel(a, s, n, g, k % IndexRange);
  }

  /** A range of more than 2^32 slots: the device fill leaves slot 2^32 as it was. */
  lemma DeviceMissesSlot<T>(before: seq<T>, after: seq<T>, s: nat, e: nat)
    requires s + IndexRange < e <= |before| == |after|
    requires after[s + MinNat(e - s, IndexRange)..] == before[s + MinNat(e - s, IndexRange)..]
    ensures after[s + IndexRange] == before[s + IndexRange]
  {
    assert after[s + IndexRange] == after[s + IndexRange..][0];
  }

  // ---------------------------------------------------------------------------
  // The serial baseline the tests compare against, and what follows from both forms.

  /** `std::generate(s, e, g)`: one copy of g called once per slot, in order. */
  method GenerateSerial<S, D, T>(a: array<T>, s: nat, e: nat, g: BoundGenerator<S, D, T>)
    requires s <= e <= a.Length
    modifies a
    ensures a[s..e] == Draws(g.ops, g.draw, g.dist, g.engine, e - s)
    ensures a[..s] == old(a[..s]) && a[e..] == old(a[e..])
    ensures unchanged(g)
  {
    var tlg := g.Copy();
    var i := s;
    while i < e
      invariant s <= i <= e
      invariant tlg.ops == g.ops && tlg.draw == g.draw && tlg.dist == g.dist
      invariant tlg.engine == Advance(g.ops, g.engine, i - s)
      invariant forall j :: 0 <= j < i - s ==> a[s + j] == NthDraw(g.ops, g.draw, g.dist, g.engine, j)
      invariant a[..s] == old(a[..s]) && a[e..] == old(a[e..])
    {
      a[i] := tlg.Call();
      AdvanceStep(g.ops, g.engine, i - s);
      i := i + 1;
    }
    forall j | 0 <= j < e - s
      ensures a[s..e][j] == Draws(g.ops, g.draw, g.dist, g.engine, e - s)[j]
    {
      DrawsAt(g.ops, g.draw, g.dist, g.engine, e - s, j);
    }
  }

  /**
   * Block splitting with any two worker counts, the intended per-element fill and the
   * serial loop all fill the range with the same values.
   */
  method AllSchemesAgree<S(!new), D, T>(a1: array<T>, a2: array<T>, a3: array<T>, a4: array<T>,
                                        g: BoundGenerator<S, D, T>, size1: nat, size2: nat)
    requires a1.Length == a2.Length == a3.Length == a4.Length
    requires size1 >= 1 && size2 >= 1
    requires DiscardExact(g.ops)
    modifies a1, a2, a3, a4
    ensures a1[..] == a2[..] == a3[..] == a4[..]
  {
    GenerateBlocks(a1, 0, a1.Length, g, size1);
    GenerateBlocks(a2, 0, a2.Length, g, size2);
    GeneratePerElement(a3, 0, a3.Length, g);
    GenerateSerial(a4, 0, a4.Length, g);
    assert a1[..] == a1[0..a1.Length];
    assert a2[..] == a2[0..a2.Length];
    assert a3[..] == a3[0..a3.Length];
    assert a4[..] == a4[0..a4.Length];
  }

  /**
   * Over a whole buffer (s its first slot) the oneAPI fill as written and the intended
   * per-element fill give the same array.
   */
  method OneApiAgreesAtBufferStart<S(!new), D, T>(a: array<T>, b: array<T>, g: BoundGenerator<S, D, T>)
    requires a.Length == b.Length
    requires DiscardExact(g.ops)
    modifies a, b
    ensures a[..] == b[..]
  {
    GenerateOneApi(a, 0, a.Length, g);
    GeneratePerElement(b, 0, b.Length, g);
    assert a[..] == a[..a.Length];
    assert b[..] == b[0..b.Length];
  }

  /**
   * The CUDA/ROCm fill agrees with the serial loop on its first 2^32 slots, and so
   * everywhere when there are no more.
   */
  method DeviceAgreesWithSerial<S(!new), D, T>(a: array<T>, b: array<T>, g: BoundGenerator<S, D, T>)
    requires a.Length == b.Length
    requires DiscardExact(g.ops)
    modifies a, b
    ensures a[..MinNat(a.Length, IndexRange)] == b[..MinNat(b.Length, IndexRange)]
    ensures a.Length <= IndexRange ==> a[..] == b[..]
  {
    GenerateDevice(a, 0, a.Length, g);
    GenerateSerial(b, 0, b.Length, g);
    var m := MinNat(a.Length, IndexRange);
    assert a[..m] == a[0..m];
    assert b[..] == b[0..b.Length];
    DrawsPrefix(g.ops, g.draw, g.dist, g.engine, b.Length, m);
    assert b[..m] == b[..][..m];
    if a.Length <= IndexRange {
      assert a[..] == a[..m];
    }
  }

  /** The first m of n successive draws are the m successive draws. */
  lemma DrawsPrefix<S, D, T>(ops: Engine<S>, draw: (D, Word) -> T, d: D, s: S, n: nat, m: nat)
    requires m <= n
    ensures Draws(ops, draw, d, s, n)[..m] == Draws(ops, draw, d, s, m)
  {
    DrawsSplit(ops, draw, d, s, m, n - m);
  }
}
