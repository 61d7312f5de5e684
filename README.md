# p2rng in Dafny

p2rng fills a range with random numbers in parallel. The result is the same as
a serial `std::generate` over one generator. The generator is a *bound generator*:
one distribution and one engine held together by `p2rng::bind`. Two splitting
schemes exist.

- The OpenMP `generate` gives worker `t` of `size` the block
  `[t*n/size, (t+1)*n/size)`. The worker skips its own copy of the generator
  ahead to the block start and draws through the block.
- The CUDA, ROCm and oneAPI versions launch one thread per index. Each thread
  discards `idx` draws on its copy and draws once. CUDA and ROCm compute `idx` in
  32-bit `unsigned int` arithmetic and write `s[idx]`. oneAPI computes it as a
  `size_t` and writes slot `idx` of the whole buffer behind `s`, counted from the
  buffer's start.

Both rest on two assumptions, which the model states and does not prove. Every draw
consumes exactly one engine step, and `discard(k)` is the same as k steps.

This project models:

- the engine, as an abstract state with `step`, `output` and `discard`, plus the
  assumption that `discard` is exact (`engines.dfy`);
- the bound generator, as a class whose engine field changes on every call
  (`bind.dfy`);
- both splitting schemes, as methods that fill an array, and the serial loop
  they are compared with (`generate.dfy`). The per-element scheme appears three
  times: as intended (a wide index counted from `s`), as CUDA and ROCm write it
  (a 32-bit index) and as oneAPI writes it (counted from the buffer's start);
- five of the TRNG distributions p2rng ships: `uniform_int_dist`, `geometric_dist`,
  `lognormal_dist`, `powerlaw_dist` and `maxwell_dist`. Each has its parameter
  record as a datatype, the distribution object as a class with its setters, and
  its draw, `min`/`max`, `pdf` and `cdf` as functions. The three continuous ones
  also have `icdf`, on which their draw is built
  (`uniform_int.dfy`, `geometric.dfy`, `lognormal.dfy`, `powerlaw.dfy`,
  `maxwell.dfy`);
- the text form of `uniform_int_dist` with its guarded read (`text.dfy` holds
  the `int` reading and writing it needs);
- the library's example: a vector filled from `bind(uniform_int_dist(10, 100), e)`
  (`scenario.dfy`).

The floating-point code is modelled over exact reals.
- `Float` adds NaN and the infinities where a result can be one.
- EDOM is a returned flag (`Outcome`).
- `ln`, `exp`, `pow`, `erf`, `erfc`, `inv_Phi` and the constants `1/sqrt(2 pi)`,
  `1/sqrt 2` and `sqrt(2/pi)` are fields of a `MathLib` record passed as a
  parameter.
- Each property requires, by name, the facts about those functions that its proof
  uses. Examples are `ExpPositive`, `LnExpInverse`, `PowReciprocal` and
  `PhiInverse`. Each such fact holds of the real-valued function.

## Model

| member | source | states |
|---|---|---|
| Engines.UniformCo | include/p2rng/trng/uniform_int_dist.hpp:94 | the `uniformco` variate made from one engine word lies in [0, 1) |
| Engines.UniformOo | include/p2rng/trng/lognormal_dist.hpp:129 | the `uniformoo` variate made from one engine word lies in (0, 1) |
| Engines.UniformOc | include/p2rng/trng/powerlaw_dist.hpp:129 | the `uniformoc` variate made from one engine word lies in (0, 1] |
| Engines.Advance | include/p2rng/bind.hpp:18-24 | the engine state after k draws: k applications of `step`. DiscardExact, AdvanceAdd and DrawsAt are stated over it |
| Engines.DiscardExact | include/p2rng/bind.hpp:22-24 | the assumption that the engine's `discard(k)` lands where k draws would, from every state and for every k |
| Engines.AdvanceAdd | include/p2rng/bind.hpp:22-24 | skipping j steps and then k steps is skipping j + k steps |
| Numerics.Trunc | include/p2rng/trng/geometric_dist.hpp:93 | `static_cast<int>` rounds toward zero: the result is within 1 of x, on the side of 0 |
| BoundGenerators.NthDraw | include/p2rng/bind.hpp:18-20 | the (i+1)-th value of the stream: the distribution's draw from the word of the state after i steps. DrawsAt ties it to Draws |
| BoundGenerators.Draws | include/p2rng/bind.hpp:18-20 | the n values that n successive calls of one bound generator return, a sequence of length n. Every fill is compared with it |
| BoundGenerators.DrawsAt | include/p2rng/bind.hpp:18-20 | the i-th of n successive calls returns the draw made from the engine after i steps |
| BoundGenerators.DrawsSplit | include/p2rng/bind.hpp:18-20 | j + k successive calls are j calls followed by k calls from the state the first j reach |
| BoundGenerators.DiscardThenCall | include/p2rng/bind.hpp:19-24 | with an exact `discard`, `discard(k)` then one call returns the (k+1)-th of k + 1 successive calls |
| BoundGenerators.BoundGenerator.constructor | include/p2rng/bind.hpp:10-16 | the struct holds exactly the given distribution and engine |
| BoundGenerators.BoundGenerator.Call | include/p2rng/bind.hpp:18-20 | `operator()` returns the distribution's draw from the current engine word; the engine moves one step and the distribution stays |
| BoundGenerators.BoundGenerator.Discard | include/p2rng/bind.hpp:22-24 | `discard(k)` moves only the engine, by `discard(k)`; the distribution stays |
| BoundGenerators.BoundGenerator.Copy | include/p2rng/bind.hpp:26-28 | a by-value copy is a new object with equal members; using it leaves the original alone |
| BoundGenerators.Bind | include/p2rng/bind.hpp:31-33 | `bind(d, e)` yields a new bound generator holding d and e |
| BoundGenerators.SkipAheadMatchesCalls | include/p2rng/bind.hpp:19-24 | skip-ahead on one copy and k + 1 calls on another end on the same value, the (k+1)-th of the stream |
| Generate.BlockStart | include/p2rng/algorithm/generate.hpp:147-148 | where block t of `size` starts, `t*n/size`; the block ends where block t + 1 starts. BlockEnds, BlocksDisjoint and BlocksCover show these blocks partition [0, n) |
| Generate.BlockStartMonotone | include/p2rng/algorithm/generate.hpp:147-148 | a later worker's block never starts before an earlier one's |
| Generate.BlockEnds | include/p2rng/algorithm/generate.hpp:145-148 | block 0 starts at 0, block size - 1 ends at n, and each block ends where the next begins |
| Generate.BlocksDisjoint | include/p2rng/algorithm/generate.hpp:147-148 | the blocks of two different workers do not overlap |
| Generate.BlocksCover | include/p2rng/algorithm/generate.hpp:147-148 | every index below n lies in some worker's block |
| Generate.Worker | include/p2rng/algorithm/generate.hpp:144-152 | worker t writes exactly the slots of its block, each with the draw of that index in the serial stream; the caller's generator is unchanged |
| Generate.GenerateBlocks | include/p2rng/algorithm/generate.hpp:136-154 | for any worker count of at least 1, `[s, e)` holds the first e - s serial draws and nothing outside it changes |
| Generate.JobSize | include/p2rng/algorithm/generate.hpp:21-23 | the launch of (n/256 + 1) blocks of 256 threads has more threads than indices |
| Generate.Kernel | include/p2rng/algorithm/generate.hpp:58-69 | thread idx writes only slot idx, and only when idx < n, with the (idx+1)-th serial draw |
| Generate.GenerateOneApi | include/p2rng/algorithm/generate.hpp:11-47 | the oneAPI launch as written: its `size_t` index loses nothing, but it writes `oa[idx]` over the whole buffer, so the first e - s slots of the buffer hold the first e - s serial draws and every slot from e - s on keeps its old value, wherever s points |
| Generate.OneApiMissesRangeEnd | include/p2rng/algorithm/generate.hpp:24-40 | when s is not the buffer's first slot, the last slot of `[s, e)` keeps its old value after the oneAPI fill |
| Generate.OneApiAgreesAtBufferStart | include/p2rng/algorithm/generate.hpp:11-47 | over a whole buffer, with s its first slot, the oneAPI fill as written equals the intended per-element fill |
| Generate.GeneratePerElement | include/p2rng/algorithm/generate.hpp:58-85 | the per-element launch as intended, with an index as wide as n counted from s (CUDA's `out = &s[0]` with oneAPI's `size_t`): `[s, e)` holds the first e - s serial draws and nothing else changes |
| Generate.GenerateDevice | include/p2rng/algorithm/generate.hpp:58-85 | the CUDA launch (ROCm's, lines 96-123, is the same), with the index wrapped modulo 2^32: the first min(e - s, 2^32) slots hold the serial draws, and every slot from there on, including any from s + 2^32 to e, keeps its old value |
| Generate.DeviceThread | include/p2rng/algorithm/generate.hpp:64-68 | thread k runs the kernel for index k mod 2^32: it extends the filled prefix of min(n, 2^32) serial draws by slot k, and writes nothing outside that prefix |
| Generate.DeviceMissesSlot | include/p2rng/algorithm/generate.hpp:64 | when the range has more than 2^32 slots, slot s + 2^32 is never written by the CUDA/ROCm fill |
| Generate.GenerateSerial | test/unit_tests_openmp.cpp:25-30 | `std::generate` over one generator fills the range with the first e - s draws |
| Generate.AllSchemesAgree | test/unit_tests_openmp.cpp:41-53 | block splitting with any two worker counts, the intended per-element fill and the serial loop give the same array, for every length |
| Generate.DeviceAgreesWithSerial | test/unit_tests_openmp.cpp:41-53 | the CUDA/ROCm fill equals the serial fill on the first 2^32 slots, and so on the whole array when it has at most 2^32 slots |
| Text.IntText | include/p2rng/trng/uniform_int_dist.hpp:156 | the decimal text `<<` writes for an int: a '-' for negative values, then the digits of the magnitude. ReadIntText reads it back |
| Text.ReadInt | include/p2rng/trng/uniform_int_dist.hpp:167 | `>>` into an int: a sign, then a maximal digit run. A success gives a value in [INT_MIN, INT_MAX] and consumes at least one character |
| Text.SkipSpaces | include/p2rng/trng/uniform_int_dist.hpp:203 | `utility::ignore_spaces()`: the result is a suffix of the input, everything dropped before it is white space, and it does not start with white space |
| Text.Expect | include/p2rng/trng/uniform_int_dist.hpp:167 | `utility::delim(lit)`: it succeeds exactly when the input starts with lit, and the input is lit followed by what it returns |
| Text.ReadIntText | include/p2rng/trng/uniform_int_dist.hpp:156-167 | reading back the text `<<` writes for an int gives the same int and leaves the rest of the input |
| Text.ReadIntRejectsOverflow | include/p2rng/trng/uniform_int_dist.hpp:164-169 | the text of every value outside [INT_MIN, INT_MAX] fails the read |
| UniformInt.DefaultParam | include/p2rng/trng/uniform_int_dist.hpp:53 | `param_type()` is a consistent record with a < b, so its support [min(), max()] is not empty |
| UniformInt.MakeParam | include/p2rng/trng/uniform_int_dist.hpp:74 | `param_type(a, b)` stores a and b and the width d = b - a |
| UniformInt.WithA | include/p2rng/trng/uniform_int_dist.hpp:61-64 | setting a keeps b and recomputes d = b - a |
| UniformInt.WithB | include/p2rng/trng/uniform_int_dist.hpp:68-71 | setting b keeps a and recomputes d = b - a |
| UniformInt.ParamEq | include/p2rng/trng/uniform_int_dist.hpp:140-143 | param_type `==`: compares a and b only. ParamEqIsEquality shows this is record equality |
| UniformInt.ParamEqIsEquality | include/p2rng/trng/uniform_int_dist.hpp:140-143 | comparing a and b only is record equality for records whose cache is consistent |
| UniformInt.Sample | include/p2rng/trng/uniform_int_dist.hpp:94 | the draw `static_cast<int>(d * u) + a` from one engine word. SampleInSupport gives its range |
| UniformInt.SampleInSupport | include/p2rng/trng/uniform_int_dist.hpp:94 | for a < b, a draw lies in [min(), max()] = [a, b - 1] |
| UniformInt.Min | include/p2rng/trng/uniform_int_dist.hpp:103 | `min()` is a. PdfPositiveOnSupport and SampleInSupport relate it to the pdf and the draws |
| UniformInt.Max | include/p2rng/trng/uniform_int_dist.hpp:105 | `max()` is b - 1. PdfPositiveOnSupport and SampleInSupport relate it to the pdf and the draws |
| UniformInt.PdfPositiveOnSupport | include/p2rng/trng/uniform_int_dist.hpp:103-124 | for a < b the pdf is positive exactly on [min(), max()] |
| UniformInt.Pdf | include/p2rng/trng/uniform_int_dist.hpp:120-124 | pdf as the source writes it. PdfValues and PdfSumsToOne state its values |
| UniformInt.Cdf | include/p2rng/trng/uniform_int_dist.hpp:127-133 | cdf as the source writes it. CdfIsPdfSum and CdfShape state its meaning |
| UniformInt.PdfValues | include/p2rng/trng/uniform_int_dist.hpp:120-124 | pdf is 1/(b - a) on [a, b) and 0 elsewhere |
| UniformInt.CdfIsPdfSum | include/p2rng/trng/uniform_int_dist.hpp:127-133 | cdf(x) is the sum of pdf over [a, x] |
| UniformInt.PdfSumsToOne | include/p2rng/trng/uniform_int_dist.hpp:120-124 | the pdf sums to 1 over [a, b) |
| UniformInt.CdfShape | include/p2rng/trng/uniform_int_dist.hpp:127-133 | cdf lies in [0, 1], is 0 below min(), 1 from max() on, and never decreases |
| UniformInt.ParamText | include/p2rng/trng/uniform_int_dist.hpp:151-159 | the text `(a b)` that `<<` writes for a record. ReadParamText reads it back |
| UniformInt.DistText | include/p2rng/trng/uniform_int_dist.hpp:186-195 | the text `[uniform_int (a b)]` that `<<` writes for a distribution. ReadDistText reads it back |
| UniformInt.ReadParam | include/p2rng/trng/uniform_int_dist.hpp:161-172 | `>>` into a record. A success gives a consistent record with bounds in int range, after reading at least 5 characters |
| UniformInt.ReadDist | include/p2rng/trng/uniform_int_dist.hpp:197-209 | `>>` into a distribution. A success gives a consistent record with bounds in int range, after reading at least 19 characters |
| UniformInt.ReadParamText | include/p2rng/trng/uniform_int_dist.hpp:151-172 | reading back the text `(a b)` of a record gives the same record and leaves the rest of the input |
| UniformInt.ReadDistText | include/p2rng/trng/uniform_int_dist.hpp:186-209 | reading back `[uniform_int (a b)]` gives the same parameters and leaves the rest of the input |
| UniformInt.UniformIntDist.constructor | include/p2rng/trng/uniform_int_dist.hpp:85 | the new object holds a, b and a consistent width |
| UniformInt.UniformIntDist.FromParam | include/p2rng/trng/uniform_int_dist.hpp:87 | the new object holds the given record |
| UniformInt.UniformIntDist.Reset | include/p2rng/trng/uniform_int_dist.hpp:90 | `reset()` changes nothing |
| UniformInt.UniformIntDist.SetParam | include/p2rng/trng/uniform_int_dist.hpp:109 | `param(p)` replaces the whole record |
| UniformInt.UniformIntDist.SetA | include/p2rng/trng/uniform_int_dist.hpp:113 | `a(a_new)` sets a, keeps b and keeps the width consistent |
| UniformInt.UniformIntDist.SetB | include/p2rng/trng/uniform_int_dist.hpp:117 | `b(b_new)` sets b, keeps a and keeps the width consistent |
| UniformInt.UniformIntDist.Read | include/p2rng/trng/uniform_int_dist.hpp:197-209 | `>>` changes the parameters exactly when the whole text was read, to what was read, and the object stays valid |
| UniformInt.UniformIntDist.Equals | include/p2rng/trng/uniform_int_dist.hpp:177-179 | distribution `==` compares the records with param_type `==`. For valid objects this is equality of the records |
| Geometric.MakeParam | include/p2rng/trng/geometric_dist.hpp:67-74 | the constructor and the setter `p(p_new)` store p with q = 1 - p and 1/ln(q) consistent |
| Geometric.DefaultParam | include/p2rng/trng/geometric_dist.hpp:73 | the default record has p = 0.5 with a consistent cache |
| Geometric.ParamEq | include/p2rng/trng/geometric_dist.hpp:129-132 | param_type `==`: compares p only. ParamEqIsEquality shows this is record equality |
| Geometric.ParamEqIsEquality | include/p2rng/trng/geometric_dist.hpp:129-132 | comparing p only is record equality, because the cached fields are functions of p |
| Geometric.Sample | include/p2rng/trng/geometric_dist.hpp:93 | the draw `static_cast<int>(ln(u) / ln(q))` from one engine word. SampleInSupport gives its range |
| Geometric.SampleInSupport | include/p2rng/trng/geometric_dist.hpp:93 | for 0 < p < 1, a draw whose product fits the int cast lies in [min(), max()] = [0, INT_MAX] |
| Geometric.Min | include/p2rng/trng/geometric_dist.hpp:102 | `min()` is 0. SampleInSupport bounds the draws by it |
| Geometric.Max | include/p2rng/trng/geometric_dist.hpp:104 | `max()` is INT_MAX. SampleInSupport bounds the draws by it |
| Geometric.Pdf | include/p2rng/trng/geometric_dist.hpp:115-117 | pdf is 0 below 0 |
| Geometric.Cdf | include/p2rng/trng/geometric_dist.hpp:120-122 | cdf is 0 below 0 |
| Geometric.CdfStep | include/p2rng/trng/geometric_dist.hpp:115-122 | each step of the cdf adds the pdf at that point |
| Geometric.CdfIsPdfSum | include/p2rng/trng/geometric_dist.hpp:115-122 | cdf(x) is the sum of pdf over [0, x] |
| Geometric.CdfShape | include/p2rng/trng/geometric_dist.hpp:120-122 | cdf lies in [0, 1) and never decreases |
| Geometric.CdfNonDecreasing | include/p2rng/trng/geometric_dist.hpp:120-122 | x <= y implies cdf(x) <= cdf(y) |
| Geometric.GeometricDist.constructor | include/p2rng/trng/geometric_dist.hpp:84 | the new object holds p with a consistent cache |
| Geometric.GeometricDist.FromParam | include/p2rng/trng/geometric_dist.hpp:86 | the new object holds the given record |
| Geometric.GeometricDist.Reset | include/p2rng/trng/geometric_dist.hpp:89 | `reset()` changes nothing |
| Geometric.GeometricDist.SetParam | include/p2rng/trng/geometric_dist.hpp:108 | `param(P)` replaces the whole record |
| Geometric.GeometricDist.Equals | include/p2rng/trng/geometric_dist.hpp:168-170 | distribution `==` compares the records with param_type `==`. ParamEqIsEquality shows this is record equality |
| Geometric.GeometricDist.SetP | include/p2rng/trng/geometric_dist.hpp:112 | `p(p_new)` sets p and keeps q and 1/ln(q) in step with it |
| Lognormal.DefaultParam | include/p2rng/trng/lognormal_dist.hpp:59 | `param_type()` has mu = 0 and sigma = 1: sigma > 0, so pdf, cdf and every lemma below apply to it |
| Lognormal.Min | include/p2rng/trng/lognormal_dist.hpp:138 | `min()` is 0. IcdfEndsAreBounds and SampleInSupport relate it to icdf and the draws |
| Lognormal.Max | include/p2rng/trng/lognormal_dist.hpp:140 | `max()` is +infinity, the value of icdf at 1 (IcdfEndsAreBounds) |
| Lognormal.ParamEq | include/p2rng/trng/lognormal_dist.hpp:78-81 | param_type `==`: compares mu and sigma |
| Lognormal.ParamEqIsEquality | include/p2rng/trng/lognormal_dist.hpp:78-81 | comparing mu and sigma is record equality |
| Lognormal.Pdf | include/p2rng/trng/lognormal_dist.hpp:155-161 | pdf is 0 for x <= 0 |
| Lognormal.Cdf | include/p2rng/trng/lognormal_dist.hpp:164-170 | cdf is 0 for x <= 0 |
| Lognormal.Icdf | include/p2rng/trng/lognormal_dist.hpp:173-185 | EDOM exactly outside [0, 1], with NaN; 0 at 0; +infinity at 1; exp(inv_Phi(x) sigma + mu) inside |
| Lognormal.IcdfEndsAreBounds | include/p2rng/trng/lognormal_dist.hpp:138-185 | icdf gives min() at 0 and max() at 1 without EDOM, and the cdf is 0 at min() |
| Lognormal.Sample | include/p2rng/trng/lognormal_dist.hpp:128-130 | the draw `icdf(uniformoo(r))` from one engine word. SampleInSupport gives its range |
| Lognormal.SampleInSupport | include/p2rng/trng/lognormal_dist.hpp:128-130 | a draw never raises EDOM and is a finite value above min() = 0 |
| Lognormal.CdfIsPhi | include/p2rng/trng/lognormal_dist.hpp:164-170 | the erfc form of the cdf is Phi((ln x - mu)/sigma) |
| Lognormal.IcdfOfCdf | include/p2rng/trng/lognormal_dist.hpp:164-185 | for x > 0, cdf(x) is in (0, 1) and icdf(cdf(x)) = x |
| Lognormal.CdfOfIcdf | include/p2rng/trng/lognormal_dist.hpp:164-185 | for u in (0, 1), icdf(u) is finite and cdf(icdf(u)) = u |
| Lognormal.CdfNonDecreasing | include/p2rng/trng/lognormal_dist.hpp:164-170 | for sigma > 0 the cdf is never negative and never decreases. This needs ln to be increasing and erfc to be non-negative and decreasing |
| Lognormal.PdfNonNegative | include/p2rng/trng/lognormal_dist.hpp:155-161 | for sigma > 0 the pdf is never negative |
| Lognormal.LognormalDist.constructor | include/p2rng/trng/lognormal_dist.hpp:120 | the new object holds mu and sigma |
| Lognormal.LognormalDist.FromParam | include/p2rng/trng/lognormal_dist.hpp:122 | the new object holds the given record |
| Lognormal.LognormalDist.Reset | include/p2rng/trng/lognormal_dist.hpp:125 | `reset()` changes nothing |
| Lognormal.LognormalDist.SetParam | include/p2rng/trng/lognormal_dist.hpp:144 | `param(P)` replaces the whole record |
| Lognormal.LognormalDist.SetMu | include/p2rng/trng/lognormal_dist.hpp:148 | `mu(mu_new)` changes mu only |
| Lognormal.LognormalDist.SetSigma | include/p2rng/trng/lognormal_dist.hpp:152 | `sigma(sigma_new)` changes sigma only |
| Lognormal.LognormalDist.Equals | include/p2rng/trng/lognormal_dist.hpp:192-195 | distribution `==` holds exactly when the records are equal |
| Powerlaw.DefaultParam | include/p2rng/trng/powerlaw_dist.hpp:57 | `param_type()` has gamma = 1 and theta = 1: both positive, so every lemma below applies to it |
| Powerlaw.Min | include/p2rng/trng/powerlaw_dist.hpp:138 | `min()` is theta. SampleAtLeastMin bounds the draws by it, and IcdfEndsAreBounds gives it as icdf(0) |
| Powerlaw.Max | include/p2rng/trng/powerlaw_dist.hpp:140 | `max()` is +infinity, the corrected icdf's value at 1 (IcdfEndsAreBounds) |
| Powerlaw.ParamEq | include/p2rng/trng/powerlaw_dist.hpp:77-80 | param_type `==`: compares gamma and theta |
| Powerlaw.ParamEqIsEquality | include/p2rng/trng/powerlaw_dist.hpp:77-80 | comparing gamma and theta is record equality |
| Powerlaw.Sample | include/p2rng/trng/powerlaw_dist.hpp:128-130 | the draw `theta * pow(uniformoc(r), -1/gamma)` from one engine word. SampleAtLeastMin and SampleIsIcdfOfComplement describe it |
| Powerlaw.SampleAtLeastMin | include/p2rng/trng/powerlaw_dist.hpp:128-130 | for gamma, theta > 0 a draw is at least min() = theta |
| Powerlaw.Pdf | include/p2rng/trng/powerlaw_dist.hpp:155-159 | pdf is 0 below theta |
| Powerlaw.PdfNonNegative | include/p2rng/trng/powerlaw_dist.hpp:155-159 | for gamma, theta > 0 the pdf is never negative |
| Powerlaw.CdfAsWritten | include/p2rng/trng/powerlaw_dist.hpp:162-166 | cdf with the source's guard `x <= 0`. CdfAsWrittenNegative and CdfAsWrittenAgreesOutside compare it with Cdf |
| Powerlaw.CdfAsWrittenNegative | include/p2rng/trng/powerlaw_dist.hpp:162-166 | the cdf as written is negative on (0, theta), where the distribution's cdf is 0 |
| Powerlaw.CdfAsWrittenAgreesOutside | include/p2rng/trng/powerlaw_dist.hpp:162-166 | outside (0, theta) the cdf as written and the corrected cdf agree |
| Powerlaw.Cdf | include/p2rng/trng/powerlaw_dist.hpp:162-166 | the corrected cdf is 0 below theta |
| Powerlaw.CdfShape | include/p2rng/trng/powerlaw_dist.hpp:162-166 | the corrected cdf lies in [0, 1) and never decreases |
| Powerlaw.Icdf | include/p2rng/trng/powerlaw_dist.hpp:169-181 | corrected guard: EDOM exactly outside [0, 1], with NaN; theta at 0; +infinity at 1 |
| Powerlaw.IcdfEndsAreBounds | include/p2rng/trng/powerlaw_dist.hpp:176-179 | the corrected icdf gives min() at 0 and max() at 1 without EDOM, as the branches the source's guard makes dead intend |
| Powerlaw.IcdfAsWritten | include/p2rng/trng/powerlaw_dist.hpp:169-181 | icdf with the source's guard `x <= 0 or x >= 1`. IcdfAsWrittenRejectsEnds compares it with Icdf |
| Powerlaw.IcdfAsWrittenRejectsEnds | include/p2rng/trng/powerlaw_dist.hpp:169-181 | the guard as written gives EDOM and NaN at 0 and at 1, where the corrected icdf does not; elsewhere they agree |
| Powerlaw.SampleIsIcdfOfComplement | include/p2rng/trng/powerlaw_dist.hpp:128-130 | a draw from variate u is icdf(1 - u), including theta at u = 1 |
| Powerlaw.SampleAsWrittenMismatch | include/p2rng/trng/powerlaw_dist.hpp:169-175 | for a variate u = 1, which uniformoc's interval (0, 1] admits, the draw is theta = icdf(0), but the as-written icdf(1 - u) is NaN with EDOM |
| Powerlaw.IcdfOfCdf | include/p2rng/trng/powerlaw_dist.hpp:162-181 | from theta on, cdf(x) is in [0, 1) and icdf(cdf(x)) = x without EDOM |
| Powerlaw.CdfOfIcdf | include/p2rng/trng/powerlaw_dist.hpp:162-181 | for u in [0, 1), icdf(u) is finite and at least theta, and cdf(icdf(u)) = u |
| Powerlaw.PowerlawDist.constructor | include/p2rng/trng/powerlaw_dist.hpp:120 | the new object holds gamma and theta |
| Powerlaw.PowerlawDist.FromParam | include/p2rng/trng/powerlaw_dist.hpp:122 | the new object holds the given record |
| Powerlaw.PowerlawDist.Reset | include/p2rng/trng/powerlaw_dist.hpp:125 | `reset()` changes nothing |
| Powerlaw.PowerlawDist.SetParam | include/p2rng/trng/powerlaw_dist.hpp:144 | `param(P)` replaces the whole record |
| Powerlaw.PowerlawDist.SetGamma | include/p2rng/trng/powerlaw_dist.hpp:148 | `gamma(gamma_new)` changes gamma only |
| Powerlaw.PowerlawDist.SetTheta | include/p2rng/trng/powerlaw_dist.hpp:152 | `theta(theta_new)` changes theta only |
| Powerlaw.PowerlawDist.Equals | include/p2rng/trng/powerlaw_dist.hpp:188-191 | distribution `==` holds exactly when the records are equal |
| Maxwell.DefaultParam | include/p2rng/trng/maxwell_dist.hpp:58 | `param_type()` has theta = 1: theta > 0, so every lemma below applies to it |
| Maxwell.Min | include/p2rng/trng/maxwell_dist.hpp:132 | `min()` is 0, the value of icdf at 0 (IcdfEndsAreBounds) |
| Maxwell.Max | include/p2rng/trng/maxwell_dist.hpp:134 | `max()` is +infinity, the value of icdf at 1 (IcdfEndsAreBounds) |
| Maxwell.Digits | include/p2rng/trng/maxwell_dist.hpp:170 | `numeric_limits<double>::digits`, 53 |
| Maxwell.Epsilon | include/p2rng/trng/maxwell_dist.hpp:173 | `numeric_limits<double>::epsilon()`, 2^-52, the tolerance of the exit test (Converged, ConvergedMeansClose) |
| Maxwell.MaxSteps | include/p2rng/trng/maxwell_dist.hpp:170 | the loop bound digits + 2 = 55, the step budget of Newton in IcdfSpec and Icdf |
| Maxwell.ParamEq | include/p2rng/trng/maxwell_dist.hpp:72-75 | param_type `==`: compares theta |
| Maxwell.ParamEqIsEquality | include/p2rng/trng/maxwell_dist.hpp:72-75 | comparing theta is record equality |
| Maxwell.Pdf | include/p2rng/trng/maxwell_dist.hpp:143-148 | pdf as the source writes it. PdfNonNegative gives its sign |
| Maxwell.Cdf | include/p2rng/trng/maxwell_dist.hpp:151-155 | cdf as the source writes it. CdfAtZero gives its start, and StepFixedIffRoot ties its roots to the Newton step |
| Maxwell.PdfNonNegative | include/p2rng/trng/maxwell_dist.hpp:143-148 | for theta > 0 the pdf is never negative |
| Maxwell.CdfAtZero | include/p2rng/trng/maxwell_dist.hpp:151-155 | cdf(0) = 0, which matches icdf(0) = 0 |
| Maxwell.InitialGuess | include/p2rng/trng/maxwell_dist.hpp:169 | the starting point `2 theta sqrt(2/pi)` |
| Maxwell.Converged | include/p2rng/trng/maxwell_dist.hpp:173-174 | the exit test `abs(y/y_old - 1) < 4 epsilon`, false on NaN, infinity or y_old = 0. ConvergedMeansClose gives its meaning |
| Maxwell.Newton | include/p2rng/trng/maxwell_dist.hpp:170-176 | at most `steps` Newton steps, stopping after the first step that passes the exit test. Icdf is proved equal to it, and NewtonNonFinite and RootIsFixedPoint describe it |
| Maxwell.Step | include/p2rng/trng/maxwell_dist.hpp:171-172 | a Newton step from NaN or an infinity gives NaN |
| Maxwell.IcdfSpec | include/p2rng/trng/maxwell_dist.hpp:158-177 | EDOM exactly outside [0, 1], with NaN; +infinity at 1; 0 at 0 |
| Maxwell.IcdfEndsAreBounds | include/p2rng/trng/maxwell_dist.hpp:158-168 | icdf gives min() at 0 and max() at 1 without EDOM |
| Maxwell.Icdf | include/p2rng/trng/maxwell_dist.hpp:158-177 | the loop with its early exit returns the bounded Newton iteration from 2 theta sqrt(2/pi) after at most digits + 2 steps |
| Maxwell.Sample | include/p2rng/trng/maxwell_dist.hpp:122-124 | the draw `icdf(uniformoo(r))` from one engine word. SampleIsNewton says which branch it takes |
| Maxwell.SampleIsNewton | include/p2rng/trng/maxwell_dist.hpp:122-124 | a draw never raises EDOM and is always the result of the Newton branch |
| Maxwell.NewtonNonFinite | include/p2rng/trng/maxwell_dist.hpp:170-176 | once y is NaN or infinite, the remaining iteration returns NaN |
| Maxwell.StepFixedIffRoot | include/p2rng/trng/maxwell_dist.hpp:172 | where pdf(y) is nonzero, a step leaves y unchanged exactly when cdf(y) = x |
| Maxwell.RootIsFixedPoint | include/p2rng/trng/maxwell_dist.hpp:170-176 | the iteration started at a nonzero root, where the pdf is nonzero, stops there after one step |
| Maxwell.ConvergedMeansClose | include/p2rng/trng/maxwell_dist.hpp:173-174 | the exit test bounds the last step: the change in y is less than 4 epsilon times the previous y |
| Maxwell.MaxwellDist.constructor | include/p2rng/trng/maxwell_dist.hpp:114 | the new object holds theta |
| Maxwell.MaxwellDist.FromParam | include/p2rng/trng/maxwell_dist.hpp:116 | the new object holds the given record |
| Maxwell.MaxwellDist.Reset | include/p2rng/trng/maxwell_dist.hpp:119 | `reset()` changes nothing |
| Maxwell.MaxwellDist.SetParam | include/p2rng/trng/maxwell_dist.hpp:138 | `param(P)` replaces the record |
| Maxwell.MaxwellDist.Equals | include/p2rng/trng/maxwell_dist.hpp:184-187 | distribution `==` holds exactly when the records are equal |
| Scenario.ExampleDrawInRange | example/rand100_openmp.cpp:12-16 | every draw of `uniform_int_dist(10, 100)` lies in [10, 99] |
| Scenario.FillExample | example/rand100_openmp.cpp:12-16 | a parallel fill from that generator holds values in [10, 99] and equals the serial fill |

## Left out

- The engine pcg32 and `utility::uniformco/oo/oc` are not part of this model.
  - The engine is an abstract state with `step`, `output` and `discard`.
  - That `discard(k)` equals k steps is an explicit assumption (`DiscardExact`).
  - Each variate is made from one engine word, with stand-ins of the right interval:
    w/2^32, (w+1)/(2^32+1) and (w+1)/2^32.
  - Proofs use only the intervals, with one exception. Powerlaw.SampleAsWrittenMismatch
    is about a variate equal to 1. The interval (0, 1] admits it, and the stand-in
    for `uniformoc` gives it at the top word.
- `uniform_dist`, the real-valued uniform distribution the unit tests and benchmarks
  use, is not part of this model. Neither are the other distributions of the TRNG
  directory.
- Concurrency is not modelled. This covers `#pragma omp parallel`, kernel launches,
  SYCL queues, accessors and events. Workers share nothing and write disjoint slots,
  so they run one after another. Thread numbers are loop counters.
- `generate_n` is not part of this model: its definition is in a header outside the
  modelled files. The example's `generate_n(begin(v), n, g)` is modelled as
  `generate` over the whole vector (`Scenario.FillExample`).
- IEEE 754 rounding, overflow to infinity and signed zeros are not modelled. Doubles
  are exact reals. Where the source divides by zero (the Newton step when
  `pdf(y) = 0`), the model writes out the IEEE result, with a zero pdf taken as +0.
- Uniform_int's draw `static_cast<int>(d * u) + a`: the range property holds over
  exact reals; 32-bit overflow of `b - a` or of the sum is not modelled.
- Geometric.Sample: `static_cast<int>` of a product of 2^31 or more is undefined
  behaviour in C++. The product can be that large when p is below about 1e-8.
  The model truncates without a range, so Geometric.SampleInSupport requires the
  product to fit and says nothing about the draws for which it does not.
- Geometric.Cdf: `x + 1` overflows an int at x = INT_MAX, which is undefined
  behaviour. The model computes x + 1 exactly there.
- Generate.GenerateDevice: CUDA allows at most 2^31 - 1 blocks in a grid, so a
  launch for more than about 2^39 indices fails. The model runs every block.
  `blocks_per_grid` is also narrowed to the 32-bit grid dimension; that is not
  modelled either.
- The library functions `exp`, `ln`, `pow`, `erf`, `erfc` and `inv_Phi` are not
  modelled. Their accuracy is not either. They are parameters, and each lemma names
  the properties of them it uses.
- `errno` is a returned flag. The `__CUDA_ARCH__` guard, which skips the write on
  the device, is not modelled.
- The stream operators of the four floating-point distributions are not modelled:
  fixed-precision decimal text does not round-trip exactly. The integer text of
  `uniform_int_dist` is modelled.
- `param_type`'s own setters (`mu(m)`, `gamma(g)`, `theta(t)`) are the datatype
  update `P.(field := value)`. The distributions' setters that call them are
  modelled as methods. For uniform_int and geometric the setters are `WithA`,
  `WithB` and `MakeParam`, because they maintain a cache.
- The getters and `operator()(r, param)` are not modelled. The latter builds a
  temporary distribution from `param` and draws from it.
- NaN or infinite parameters and arguments are not modelled. Arguments are finite
  reals.
- Geometric.MakeParam requires ln(1 - p) != 0, because 1/ln(q) is infinite
  otherwise (p = 0).
- Lognormal.Pdf and Lognormal.Cdf require sigma != 0, because the source divides
  by sigma.
- Powerlaw.Sample and Powerlaw.Icdf require gamma != 0. Powerlaw.Pdf and
  Powerlaw.Cdf require theta != 0. The source divides by these.
- Maxwell.Pdf, Maxwell.Cdf, Maxwell.Step, Maxwell.Newton, Maxwell.IcdfSpec,
  Maxwell.Icdf and Maxwell.Sample require theta != 0, because the source divides
  by theta.
- Maxwell.Cdf: that the cdf never decreases is not stated. It holds because the pdf,
  its derivative, is never negative. The model has no derivatives and no named
  fact about erf that would give it.
- Maxwell.Icdf: how close the Newton iteration comes to the true inverse cdf is
  not stated. It depends on floating-point numerics and on erf and exp.
- The model takes `float_t = double` for the template distributions:
  digits = 53, epsilon = 2^-52.

## Findings

| source | as written | input that shows it | evidently intended | confidence | as-written member | corrected member |
|---|---|---|---|---|---|---|
| include/p2rng/trng/powerlaw_dist.hpp:170-179 | `icdf` rejects `x <= 0 or x >= 1` with NaN and EDOM, so the branches for `x == 0` (theta) and `x == 1` (+infinity) are never taken | x = 0 or x = 1; also a draw whose variate u is 1, which `uniformoc`'s interval (0, 1] admits: icdf(1 - u) is NaN | reject only `x < 0 or x > 1`, as lognormal and maxwell do, so that icdf(0) = theta and icdf(1) = +infinity | not executed | Powerlaw.IcdfAsWrittenRejectsEnds | Powerlaw.Icdf |
| include/p2rng/trng/powerlaw_dist.hpp:162-166 | `cdf` returns 0 only for `x <= 0`, so for 0 < x < theta it returns 1 - (x/theta)^(-gamma) < 0 | gamma = 1, theta = 2, x = 1 gives cdf = 1 - 2 = -1 | 0 below theta = min(), matching the pdf's `x < theta` test | not executed | Powerlaw.CdfAsWrittenNegative | Powerlaw.CdfShape |
| include/p2rng/algorithm/generate.hpp:64 | the CUDA and ROCm kernels compute `blockIdx.x * blockDim.x + threadIdx.x` in 32-bit `unsigned int`, so the index wraps modulo 2^32 | a range of 2^32 + 1 elements: slot 2^32 is never written, and slot 0 is written twice | an index as wide as `n`, as the oneAPI version's `size_t` index is, so that every slot gets its draw | not executed | Generate.GenerateDevice | Generate.GeneratePerElement |
| include/p2rng/algorithm/generate.hpp:24-40 | the oneAPI accessor spans the whole buffer behind `s` and the kernel writes `oa[idx]`, so the draws land in the buffer's first e - s slots, not in `[s, e)` | a 10-element buffer with s = begin + 5 and e = end: slots 0-4 get the draws and slots 5-9 are left alone | write slot `s + idx` of the buffer (the offset of `s`), as CUDA and ROCm do with `out = &s[0]` | not executed | Generate.GenerateOneApi | Generate.GeneratePerElement |
