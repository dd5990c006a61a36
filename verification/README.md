# Pure Data's signal engine, verified

A model of the parts of Pure Data in which an index, a counter or an order can go wrong: the compiler that turns a
signal graph into a chain of routines over recycled buffers, the virtual machine that runs the chain, the two threads
of `readsf~`, sound file headers and sample transfer, the rings and queues of the control objects, the bit reversal
and the array layouts of the FFT objects, the resonant filters, and the patch editor's fan-out rewriting.  Samples are
mathematical reals; bytes, machine words and file offsets are written out.  `PD_BIGORSMALL` is a parameter, an
arbitrary predicate on samples.

`dafny verify dfyconfig.toml` checks everything.

## How it is built

Code that changes things step by step is a class or a method over arrays, proved against functions of the old state;
what those functions are worth is then proved in lemmas, which end in plain numbers: samples, bytes at offsets,
counts of routines done.

- **Signal graphs.** `DspGraph` has graphs, orders and loops.  `DspChain` gives a chain of instructions its meaning
  twice: as equations over the graph, and as a machine over buffers.  `DspPool` has the bookkeeping of a sort in
  progress -- reference counts, the free list, what every buffer holds -- and shows that each small step keeps it.
  `DspSort` is the sorter itself, recursion and all.  `BlockVm` has the chain as words of code with jumps, and blocks
  nested to any depth; `BlockParams` has the arithmetic that fits a block into its parent.
- **readsf~.** `Readsf` is a state machine with one step for each stretch of code between a lock and an unlock of the
  mutex; `ReadsfProof` has the invariants over all interleavings; `ReadsfLimits` has the runs in which the stream is
  not what it should be, when exactly they happen, and how soon requests are answered.
- **Sound files.** `SoundHeader`, `ByteOrder` and one module for each of the four formats; `AiffRate` for the 80-bit
  rate; `SampleTransfer` for the samples.  Each format has its header as one function of the sound's description, the
  writer and the updater as methods over a file, and the reader against a scan of the file's chunks, from the bytes
  alone (CAF) or with the reader's buffer carried along (WAVE, AIFF).
- **Rings, windows and queues.** `DelayLine`, `EnvFollower`, `VLine`.
- **FFT.** `BitReversal` for `makeipt`, `bitrv2` and `bitrv2conj`; `SpectrumLayout` for the copying around the
  transforms, which are parameters.
- **Filters.** `Biquad` and `BiquadStability`, `Filters`.
- **Patch rewriting.** `PatchModel` states the rewritings as functions of a patch, `FanOut` is the editor's code on a
  patch, `FanOutOrder` and `FanOutRun` show what rewriting keeps.

## Where the code does not do what it is for

Each of these is proved: an input on which the code fails, or the exact condition under which it is right, or both.

- `readsf~` delivers a vector, or a last frame, that is one byte short exactly if the bytes read stop one short of it
  (`ReadsfLimits.ShortVectorIff`, `ReadsfLimits.ShortFrameIff`); in a run that has been right so far this is the only
  way to go wrong (`ReadsfLimits.FirstShort`), and a run from the start gets there (`ReadsfLimits.ShortRun`).  The
  stream results hold for every run up to such a delivery, and for whole runs whose reads end on other bytes
  (`ReadsfLimits.AlignedRun`).
- `readsf~`: an `open` that fails after a newer one has come in ends the newer one's stream before it begins
  (`ReadsfLimits.StaleRun`), and nothing else does (`ReadsfLimits.StaleIff`, `ReadsfLimits.LaterOpenIff`).
- `delread4~` near the far end of the ring blends in the newest samples (`DelayLine.TapsRightIff`).
- `env~` clears a slot past the end of its summing buffer exactly when 32 windows are open, which happens exactly if 31
  periods are shorter than the window (`EnvFollower.SpareIff`, `EnvFollower.SpareEver`, `EnvFollower.SpareExample`).
- `czero_rev~` has the sign of the imaginary part turned round against its own comment; it is right
  for every input only with a zero coefficient (`Filters.ReversedZeroIff`, `Filters.ReversedZeroAlways`,
  `Filters.ReversedZeroFails`).
- Biquad coefficients with a double pole on the unit circle are accepted, and what rings on can then grow without
  bound (`BiquadStability.RampGrows`); all other accepted coefficients ring within a bound
  (`BiquadStability.BoundedIff`).
- The most negative code of a sample does not survive reading and writing (`SampleTransfer.EncodeDecode`).
- WAVE: a header written for an odd number of bytes differs from one updated to it (`WaveHeader.WriteMatchesUpdateIff`).
- AIFF: little-endian floats are read back as big-endian (`AiffHeader.ByteOrderRecoveredIff`).
- CAF: a header for no frames is read back with a data size of -1 (`CafHeader.FramesRecoveredIff`).
- NeXT: a length beyond 32 bits is cut off by the writer and marked unknown by the updater
  (`NextHeader.UpdateIsWriteIff`, `NextHeader.UpdateDiffers`).
- Expanding a trigger in place moves the connections that led to it to the end of their lists
  (`FanOutOrder.MovedInOrderIff`, `FanOutOrder.MovedOutOfOrder`).

## Model

| member | source | states |
|---|---|---|
| DspGraph.OrderedAvoidsLoops | src/d_ugen.c:855-897 | a box reachable from a signal loop can be in no order in which every box follows all that feed it |
| DspGraph.LeftOutIsBehindLoop | src/d_ugen.c:1080-1098 | a box that an order cannot be extended by, and that is not in it, is reachable from a loop |
| DspGraph.ExactSchedule | src/d_ugen.c:1071-1119 | the boxes left undone by the sorter are exactly those reachable from a signal loop |
| DspGraph.AcyclicSchedulesAll | src/d_ugen.c:1080-1098 | every box is scheduled exactly when the graph has no loop |
| DspChain.PerformReads | src/d_ugen.c:775-829 | at its turn a box finds in its input buffers the sums of all that is connected to its inlets, its scalar or zero if nothing is |
| DspChain.RunSolves | src/d_ugen.c:370-378 | running a chain with correct buffers solves the graph's equations at every box performed, whatever the buffers held before and although outputs reuse the inputs' buffers |
| DspChain.SolutionUnique | src/d_ugen.c:750-898 | along an order the equations of the graph have one solution at most |
| DspChain.ChainComputesGraph | src/d_ugen.c:750-898 | a tick of the chain gives each box's outlets the values the graph means, over any stale buffer contents |
| DspChain.SumIsTotal | src/d_ugen.c:775-829 | a sum of buffers is, sample by sample, the real sum over the connections of what their outlets put out |
| DspChain.SolutionReceives | src/d_ugen.c:775-829 | in every solution an inlet without connections works on its scalar, sample by sample, or on zeros, and any other on the sum over its connections |
| DspChain.RunReads | src/d_ugen.c:775-829 | and a box in a running chain finds just that in its buffers at its turn |
| DspPool.TakeShape | src/d_ugen.c:463-506 | taking a signal leaves the free list without repetitions, and every other signal as it was |
| DspPool.FreshIsUnused | src/d_ugen.c:463-506 | no undelivered connection and no waiting inlet holds the signal that signal_new returns |
| DspPool.FillUnconnectedKeeps | src/d_ugen.c:775-790 | giving an unconnected inlet a buffer keeps counts, free list and buffer contents right |
| DspPool.ReleaseKeeps | src/d_ugen.c:793-807 | so does taking an input, which may free its signal before the outputs are made |
| DspPool.NewOutletKeeps | src/d_ugen.c:808-825 | so does making an output, perhaps on an input's signal |
| DspPool.PutKeeps | src/d_ugen.c:826-829 | so does putting a box on the chain, which comes last in its order |
| DspPool.SettleKeeps | src/d_ugen.c:835-839 | so does freeing an output that is connected to nothing |
| DspPool.DeliverKeeps | src/d_ugen.c:857-881 | so does delivering a connection, by handing the signal on or by adding two signals into a third |
| DspSort.NewConnection | src/d_ugen.c:690-735 | a new connection adds one edge to the graph, duplicates included, and moves no other |
| DspSort.StartOfSort | src/d_ugen.c:1070-1078 | with all signals free and nothing sent every invariant of the sort holds |
| DspSort.AllReturned | src/d_ugen.c:863-881 | once every box is finished nobody holds a signal and each is on the free list exactly once |
| DspSort.EndOfSort | src/d_ugen.c:1080-1119 | when nothing more can be started the chain is right, its order complete but for boxes behind loops, and without loops the pool is whole |
| DspSort.DspContext.Add | src/d_ugen.c:669-687 | adds a box without connections at the end of the list |
| DspSort.DspContext.Connect | src/d_ugen.c:690-735 | adds exactly the edge asked for, or nothing if an end is missing |
| DspSort.DspContext.SignalNew | src/d_ugen.c:463-506 | reuses the signal freed last or makes another, unreferenced |
| DspSort.DspContext.MakeReusable | src/d_ugen.c:413-457 | puts a signal on the free list unless it is there already |
| DspSort.DspContext.FillInlet | src/d_ugen.c:775-790 | as FillUnconnectedKeeps, on the sorter's fields |
| DspSort.DspContext.TakeInput | src/d_ugen.c:793-807 | hands out the signal waiting at an inlet, which holds the inlet's value at this point of the chain |
| DspSort.DspContext.NewOutput | src/d_ugen.c:808-825 | a signal counted once for each connection of the outlet |
| DspSort.DspContext.SettleOutput | src/d_ugen.c:835-839 | frees the signal of an unconnected outlet |
| DspSort.DspContext.PutBox | src/d_ugen.c:758-829 | puts one box on the chain with all invariants kept |
| DspSort.DspContext.DeliverConn | src/d_ugen.c:855-881 | delivers one connection; only the box it leads to can have become ready |
| DspSort.DspContext.PassOne | src/d_ugen.c:855-893 | delivers one connection and trips the box it leads to exactly if that was its last |
| DspSort.DspContext.PassOn | src/d_ugen.c:843-897 | delivers all that leaves a box; boxes started meanwhile are finished |
| DspSort.DspContext.DoIt | src/d_ugen.c:750-898 | the recursion ends, never starts a box twice although done is set late, and leaves no box ready |
| DspSort.DspContext.SortGraph | src/d_ugen.c:1070-1119 | for every graph: the chain computes it, a loop is reported exactly if there is one, and without one all signals are back on the free list |
| BlockVm.Exec1Refines | src/d_ugen.c:268-305 | from its first word, the code of one item does what the item means and stops just after its last word |
| BlockVm.ExecRefines | src/d_ugen.c:268-305 | so does the code of any nesting of blocks, jumps back and forth included |
| BlockVm.TickHalts | src/d_ugen.c:370-378 | every tick, in any phase and switch state, reaches dsp_done having done what the patch means |
| BlockVm.BangRunsOnce | src/d_ugen.c:243-262 | a bang to a switched-off block runs its body once and leaves the block as it was |
| BlockVm.OnsetLies | src/d_ugen.c:1121-1146 | in a patch laid out, a block's code begins two words before the onset noted for it, at any depth |
| BlockVm.BangFromOnset | src/d_ugen.c:243-262 | so a bang run from the noted onset runs the body of any switched-off block once, and leaves the block as it was |
| BlockVm.OneTick | src/d_ugen.c:268-305 | a tick advances the phase of a block by one, and runs its body frequency times at phase zero, not at all otherwise: each routine at the top of the body is done that often for each time it stands there; the block may lie inside others that run once in a tick |
| BlockVm.EveryTick | src/d_ugen.c:268-305 | the phase of such a block, whatever its body, follows the tick counter forever, and over any number of ticks the body has run frequency times for each multiple of the period |
| BlockVm.OnePeriod | src/d_ugen.c:268-305 | in any period consecutive ticks the body of such a block runs exactly frequency times |
| BlockVm.HitsAre | src/d_ugen.c:268-288 | how many multiples of the period a stretch of ticks holds |
| BlockVm.BlockCounts | src/d_ugen.c:268-305 | how often one tick does a routine of the body and one of the outlet epilogs, for a block that is off, out of phase, reblocked or not |
| BlockVm.BlockState | src/d_ugen.c:268-305 | and what becomes of its phase and counter |
| BlockVm.OffNever | src/d_ugen.c:273-275 | in any patch a routine that stands only in the body of a block that is off is not done, and the block does not change |
| BlockVm.OffEpilog | src/d_ugen.c:273-275 | but its outlet epilogs are done, once, however deep it lies in blocks that run once a tick |
| BlockVm.HaltsOnce | src/d_ugen.c:370-378 | a run of the flat machine ends in one way only |
| BlockVm.PlayedIs | src/d_ugen.c:370-378 | tick for tick, any run of the flat machine does what the patch means |
| BlockVm.OffRun | src/d_ugen.c:268-378 | so over any number of ticks of the flat machine a block that is off does nothing of its body, and its phase and count stay |
| BlockVm.OffRunEpilog | src/d_ugen.c:268-378 | and does its outlet epilogs once in every one of them |
| BlockVm.WatchedRun | src/d_ugen.c:268-378 | and a block that is on does its body frequency times in tick t if the tick counter is then a multiple of its period, and not at all otherwise |
| BlockVm.DspInstance.DspAdd | src/d_ugen.c:332-354 | a routine takes the place of dsp_done, which moves behind its arguments |
| BlockVm.DspInstance.Layout | src/d_ugen.c:1121-1146 | the words laid out for a nest of canvases are its code, each block's jump lengths are the lengths of its parts, and its onset is where its body begins |
| BlockVm.DspInstance.EmitBlock | src/d_ugen.c:1121-1146 | the same for one block: prolog, body, epilog, whatever follows |
| BlockParams.ILog2 | src/d_ugen.c:382-392 | the place of the highest bit, zero if there is none |
| BlockParams.Block.Set | src/d_ugen.c:167-226 | which factors are taken and which are replaced by one |
| BlockParams.Block.Configure | src/d_ugen.c:964-994 | samples made and used agree: frequency * vecsize * downsample == period * parent vecsize * overlap * upsample; period or frequency is 1; the phase is the tick counter modulo the period |
| BlockParams.RatesMatch | src/d_ugen.c:974-981 | the two truncating divisions give matching powers of two |
| ReadsfProof.ControlKept | src/d_soundfile.c:1683-1965 | every step of either thread keeps the control invariant; the child never turns to a request with a file still open |
| Readsf.FifoSizeNumber | src/d_soundfile.c:1774-1781 | the fifo is the most whole vectors of 128 frames that the buffer holds |
| Readsf.WantReadNumber | src/d_soundfile.c:1800-1855 | how much the disk thread reads at once, and when it waits instead |
| ReadsfProof.StreamKept | src/d_soundfile.c:1773-1897 | every step but a delivery one byte short keeps the stream invariant: what waits in the ring is the next stretch of the file |
| ReadsfProof.EveryState | src/d_soundfile.c:1683-2184 | so the control invariant holds in every state of every interleaving, and the stream invariant up to the first delivery one byte short |
| ReadsfProof.StreamFidelity | src/d_soundfile.c:2021-2097 | up to such a delivery what has come out is a prefix of the file, after the bang too; then it is all of it, unless opening or reading failed or an older open's failure came in |
| ReadsfProof.ReadsStayClear | src/d_soundfile.c:1791-1863 | a read with the mutex released never touches undelivered bytes, across the ring's end too |
| ReadsfProof.RequestsAndFiles | src/d_soundfile.c:1713-1951 | a request is taken or replaced, never erased; each descriptor is closed exactly once; none is open when the object is gone |
| ReadsfProof.NeverBothWait | src/d_soundfile.c:2035-2050 | the threads never both wait, and a starved parent never meets a child without room |
| ReadsfProof.FullIsNotStarved | src/d_soundfile.c:1798-1855 | a ring with no room for a read holds a whole vector |
| ReadsfProof.ChildCanStep | src/d_soundfile.c:1702-1951 | while the parent waits the child is not blocked |
| ReadsfProof.ChildAnswers | src/d_soundfile.c:1702-1951 | each of the child's steps brings the answer nearer, the last gives it |
| ReadsfProof.QuitEnds | src/d_soundfile.c:2215-2228 | readsf_free comes to an end, the request cleared by the thread's exit |
| ReadsfProof.HungryChildReads | src/d_soundfile.c:1798-1863 | asked for data, the child does read some if the file has any |
| ReadsfProof.DeliverKeeps | src/d_soundfile.c:2077-2088 | a delivered vector is the next vector of the file and leaves the rest in place |
| ReadsfProof.CommitKeeps | src/d_soundfile.c:1879-1890 | counting a read in appends the next bytes of the file to the ring |
| ReadsfProof.ScribbleKeeps | src/d_soundfile.c:1859-1863 | whatever an unlocked read writes meanwhile, the stream is intact |
| ReadsfProof.FinishTakes | src/d_soundfile.c:2051-2075 | the last, shorter vector takes exactly the frames left |
| ReadsfLimits.ShortVectorIff | src/d_soundfile.c:2035-2088 | a whole vector takes bytes not yet read exactly if one byte less than it has been read, and then that byte |
| ReadsfLimits.ShortFrameIff | src/d_soundfile.c:2051-2060 | the last vector does exactly if one byte less than a whole frame is left over |
| ReadsfLimits.FirstShort | src/d_soundfile.c:2035-2088 | in every run right so far, the next call overruns exactly in these two cases |
| ReadsfLimits.ShortRun | src/d_soundfile.c:1683-2088 | a run from the start: the first read stops a byte short of a vector, and the vector goes out with what the buffer held there |
| ReadsfLimits.AlignedRun | src/d_soundfile.c:1859-1890 | a run whose reads stop nowhere such, measured from the start of the ring, is never short |
| ReadsfLimits.StaleIff | src/d_soundfile.c:1755-1769 | in every run, eof stands for another open's failure exactly if an older open has failed since the last one came in |
| ReadsfLimits.LaterOpenIff | src/d_soundfile.c:1755-1769 | a finished stream without faults of its own is then empty, and otherwise the whole file |
| ReadsfLimits.StaleRun | src/d_soundfile.c:1702-1769 | a run from the start in which a failed older open ends a newer stream before it begins |
| ReadsfLimits.ZerosFollow | src/d_soundfile.c:2051-2097 | in every run, what has been heard since the last start is the frames delivered and then only zeros |
| ReadsfLimits.WholeThenZeros | src/d_soundfile.c:2051-2097 | after the bang: the file, whole, and then only zeros |
| ReadsfLimits.AnsweredSoon | src/d_soundfile.c:1702-1951 | however the threads interleave, a waiting parent is answered within seven steps of the child |
| ReadsfLimits.GoneSoon | src/d_soundfile.c:2215-2228 | however they interleave, the child is gone within six of its steps after readsf_free asks, its file closed |
| BitReversal.MakeNext | src/d_fft_fftsg.c:919-927 | from the table for t bits the one for t + 1 |
| BitReversal.MakeIpt | src/d_fft_fftsg.c:912-929 | entry m + k of each table is k bit-reversed, scaled, for all table sizes |
| BitReversal.TableCovers | src/d_fft_fftsg.c:851-929 | the tables made for an FFT of size n are large enough for its bit reversal |
| BitReversal.RevTwice | src/d_fft_fftsg.c:1104-1448 | reversing an index twice gives it back |
| BitReversal.RevSplit | src/d_fft_fftsg.c:1104-1448 | reversing adjoining fields reverses each and exchanges them |
| BitReversal.RevBits | src/d_fft_fftsg.c:1104-1448 | bit k of the reversed index is bit b - 1 - k of the index |
| BitReversal.RevPosIsRev | src/d_fft_fftsg.c:1104-1448 | exchanging the outer fields and reversing the middle reverses the index |
| BitReversal.FieldsOf | src/d_fft_fftsg.c:1104-1448 | every index below the size has fields, so the swaps leave none out |
| BitReversal.IndexInjective | src/d_fft_fftsg.c:1104-1448 | different fields are different indices, so no element is swapped back |
| BitReversal.Split | src/d_fft_fftsg.c:1109-1115 | how the loop at the top splits the bits, and when it takes the wide branch |
| BitReversal.Reverse | src/d_fft_fftsg.c:1113-1448 | both branches move element i to its bit-reversed place for every power of two from 32 |
| BitReversal.Bitrv2 | src/d_fft_fftsg.c:1104-1448 | bit reversal in place, nothing beyond the array's n floats touched |
| BitReversal.Bitrv2Conj | src/d_fft_fftsg.c:1451-1803 | the same with every imaginary part negated once |
| BitReversal.ReverseTwice | src/d_fft_fftsg.c:1104-1448 | applied twice, either routine restores the array |
| BitReversal.ConjIsReverseThenNegate | src/d_fft_fftsg.c:1451-1803 | bitrv2conj is bitrv2 followed by conjugation |
| SpectrumLayout.PackUnpack | src/d_fft_fftsg.c:156-190 | the packing of mayer_realifft undoes the unpacking of mayer_realfft and the other way round |
| SpectrumLayout.MayerRealFft | src/d_fft_fftsg.c:156-172 | the transform's output unpacked in place |
| SpectrumLayout.MayerRealIfft | src/d_fft_fftsg.c:174-190 | the inverse of the packed input, doubled |
| SpectrumLayout.Flip | src/d_fft.c:45-53 | negated and reversed, also within one buffer |
| SpectrumLayout.RFft | src/d_fft.c:181-200 | outputs hold the half-complex spectrum, for each allowed sharing of buffers: in terms of the packed transform, its even entries, and its odd ones negated, each at its bin |
| SpectrumLayout.HoldsBins | src/d_fft_fftsg.c:156-172 | the half-complex layout in terms of the packed transform, bin by bin |
| SpectrumLayout.Load | src/d_fft.c:241-263 | the inverse is handed both parts of the spectrum, for each sharing of buffers |
| SpectrumLayout.RIFft | src/d_fft.c:241-263 | and its result is the output |
| SpectrumLayout.JoinedBins | src/d_fft_fftsg.c:174-190 | what the inverse transform is given, bin by bin: the same numbers at the same places |
| SpectrumLayout.LoadComplex | src/d_fft.c:102-122 | the outputs get the inputs even if they are each other's buffers |
| SpectrumLayout.JoinedHolds | src/d_fft.c:241-263 | rifft~ transforms exactly the array rfft~ had made |
| SpectrumLayout.ScalesTwice | src/d_fft_fftsg.c:186-190 | doubling makes up for the halved factor of the real transform |
| SpectrumLayout.RoundTrip | src/d_fft.c:181-263 | rfft~ then rifft~ gives the signal n times as large if the transforms invert each other up to n/2 |
| DelayLine.PushTracks | src/d_delay.c:95-122 | writing one sample keeps the ring, its mirrored margin included, a window on history |
| DelayLine.SilenceTracks | src/d_delay.c:55-60 | a ring is as if never written exactly if every sample is zero |
| DelayLine.ReadStartIs | src/d_delay.c:195-212 | the read position holds the sample delsamps ago, across the wrap |
| DelayLine.TapsConsecutive | src/d_delay.c:302-310 | the four taps are consecutive samples of history while the oldest is in reach |
| DelayLine.TapsRunIntoNewest | src/d_delay.c:302-310 | beyond that a tap is a whole lap too new |
| DelayLine.TapsRightIff | src/d_delay.c:302-310 | so the taps are right for every history exactly in reach |
| DelayLine.InterpolateLine | src/d_delay.c:310-315 | the four-point interpolation is exact on straight lines |
| DelayLine.InterpolateCubic | src/d_delay.c:310-315 | it is the cubic through the four taps, weight by weight, up to what the seven digits of 1/6 leave over |
| DelayLine.InterpolatePolynomial | src/d_delay.c:310-315 | so a cubic signal is met exactly, but for that rest |
| DelayLine.LineDelayedExactly | src/d_delay.c:272-318 | and the delay is met exactly there, fractions included, writer first or second |
| DelayLine.DeclaredDelaysFit | src/d_delay.c:36-53 | every delay up to the declared length can be met with blocks of up to 64 |
| DelayLine.DelayedGrows | src/d_delay.c:195-212 | delayed stretches join up to a longer delayed stretch |
| DelayLine.DelWrite.RingLength | src/d_delay.c:36-53 | the ring holds the delay asked for and 64 samples more, in blocks of four |
| DelayLine.DelWrite.UpdateSr | src/d_delay.c:36-53 | the ring gets its length, samples stay where they were, new ones are zero |
| DelayLine.DelWrite.Clear | src/d_delay.c:55-60 | history begins anew, in silence |
| DelayLine.DelWrite.Perform | src/d_delay.c:95-122 | history grows by the block |
| DelayLine.DelRead.Float | src/d_delay.c:180-193 | the delay is clamped between a block and the ring, one block less if the writer is later |
| DelayLine.DelRead.Dsp | src/d_delay.c:214-235 | the same, after the ring got its length |
| DelayLine.DelRead.Perform | src/d_delay.c:195-212 | the output is history, delsamps behind |
| DelayLine.DelRead4.Perform | src/d_delay.c:272-318 | each output blends what history has at its four ring positions, in reach or not, at its own delay, clamped; in reach it is on the cubic through the four samples around the moment asked for, weights and positions in plain numbers; zeros for a block longer than the ring |
| DelayLine.DelRead4.Sample | src/d_delay.c:288-315 | one output: four taps of history at the clamped delay, blended |
| DelayLine.DelRead4.TapOnCubic | src/d_delay.c:288-315 | the same for one sample: milliseconds, writer order and both limits included |
| DelayLine.DelRead4.Dsp | src/d_delay.c:320-342 | the rate, and on which side of the writer the reader is |
| DelayLine.Tick | src/d_delay.c:95-212 | one tick of writer and reader in either order |
| DelayLine.RunChain | src/d_delay.c:95-212 | over a whole run the output is the input delayed, by a block less if the writer is first |
| DelayLine.SamplesAt | src/d_delay.c:107-113 | what is written is the input, sample by sample, with the unusable values silenced |
| EnvFollower.PowerPadded | src/d_ctl.c:622-641 | zeros behind the window do not change a report |
| EnvFollower.PowerTerms | src/d_ctl.c:584-620 | the sum of a report, term by term from the newest sample |
| EnvFollower.PowerIsWindowedSum | src/d_ctl.c:584-620 | a report is the sum of window[k] * x[now - k]^2 |
| EnvFollower.PowerOfClick | src/d_ctl.c:584-620 | a click k samples back in silence counts window[k] times its square |
| EnvFollower.OverlapBound | src/d_ctl.c:551-582 | at most 32 windows are open at once |
| EnvFollower.AddedIsSums | src/d_ctl.c:591-607 | adding a block to each open window keeps the partial sums right |
| EnvFollower.ShiftedIsSums | src/d_ctl.c:609-618 | so does moving them down at a report |
| EnvFollower.PhaseMoves | src/d_ctl.c:608-616 | a report is due exactly at the multiples of the period |
| EnvFollower.SpareIff | src/d_ctl.c:591-607 | the slot cleared lies past the source's buffer exactly when 32 windows are open |
| EnvFollower.SpareEver | src/d_ctl.c:551-607 | which happens at some phase exactly if 31 periods are shorter than the window |
| EnvFollower.SpareExample | src/d_ctl.c:551-607 | a window of 2000 samples with reports every 64, in blocks of 64, does it |
| EnvFollower.Env.constructor | src/d_ctl.c:551-582 | defaults and the bound on overlap, an empty history |
| EnvFollower.Env.Dsp | src/d_ctl.c:622-641 | the period becomes whole blocks, the window is padded |
| EnvFollower.Env.AddBlock | src/d_ctl.c:595-605 | one window's share of a block |
| EnvFollower.Env.AddToAll | src/d_ctl.c:591-607 | the block is added to every open window, the slot behind them cleared, and the slots further on left alone |
| EnvFollower.Env.ShiftDown | src/d_ctl.c:612-616 | all partial sums one slot down |
| EnvFollower.Env.Perform | src/d_ctl.c:584-620 | a report comes exactly when due and is the windowed power of the history |
| VLine.CutAt | src/d_ctl.c:310-345 | cutting the queue at the first segment the new one supplants keeps it strictly ordered and drops exactly the supplanted |
| VLine.OrderedTail | src/d_ctl.c:261-267 | what is left of an ordered queue is ordered |
| VLine.SlideStarts | src/d_ctl.c:254-260 | a slide begins on the line to its target |
| VLine.LineGoesOn | src/d_ctl.c:270-274 | and stays on it |
| VLine.LineInHull | src/d_ctl.c:240-275 | a line between values of an interval stays in it |
| VLine.BeginAllIs | src/d_ctl.c:239-269 | the segments begun by the end of a sample are taken off, no others, and the last of them says where the envelope is going |
| VLine.BoundStays | src/d_ctl.c:237-276 | the envelope stays bound for its last segment, lands on it at its end, and rests if it rested |
| VLine.QueuedFront | src/d_ctl.c:310-345 | a new segment leaves everything that starts before it as it was |
| VLine.RanAgree | src/d_ctl.c:237-276 | two envelopes that differ only in what starts at s or later give the same samples up to s |
| VLine.MessageAgrees | src/d_ctl.c:310-345 | and still do so after the same message, so no message changes a sample that ends by its start |
| VLine.VLine.Stop | src/d_ctl.c:280-290 | the queue is emptied and the value kept |
| VLine.VLine.Dsp | src/d_ctl.c:351-356 | milliseconds per sample from the rate |
| VLine.VLine.Enqueue | src/d_ctl.c:310-345 | as CutAt, on the object's list |
| VLine.VLine.Float | src/d_ctl.c:292-349 | a number becomes the last segment, or jumps at once for a negative delay |
| VLine.VLine.CheckNext | src/d_ctl.c:239-269 | every segment begun is taken off in turn, each slide from where the last had got |
| VLine.VLine.BeginNext | src/d_ctl.c:243-268 | one segment begins, sliding from wherever the last had got |
| VLine.VLine.OneSample | src/d_ctl.c:237-275 | one sample: on the line, snapped to the target at its end |
| VLine.VLine.Perform | src/d_ctl.c:219-278 | samples and state are those of the recursion; a block stays in the hull of value and targets; the last segment, queued or already under way, stays the one the envelope ends with, and from its end on the output is its target |
| VLine.VLine.BeginBlock | src/d_ctl.c:222-236 | audio time is set by logical time whenever that has moved, and runs on otherwise |
| VLine.VLine.RunBlock | src/d_ctl.c:237-276 | the samples of a block, from any time on |
| VLine.Receive | src/d_ctl.c:280-349 | messages, each at its own time, keep queue and hull, and the envelope is bound for the last of them |
| VLine.RunTick | src/d_ctl.c:219-278 | so does a tick of any number of samples in blocks of any size that divides it, and the last segment lands in it just the same; the next tick goes on where it ends |
| VLine.Play | src/m_sched.c:239-261 | over whole runs of ticks, with messages handled before them at any logical times, no sample leaves the hull of the start and the numbers sent, and every sample after the end of the last message handled so far is exactly its number |
| VLine.LastByStays | src/d_ctl.c:292-349 | the last message stays the last until another comes |
| VLine.SettlesUntil | src/d_ctl.c:219-349 | so from the tick before which a message was handled until another comes, every sample after its end is its cleaned number: sent inside the tick, it is there from its own sample on |
| VLine.SlideHeard | src/d_ctl.c:237-276 | what a slide from rest sounds like, sample by sample: the resting value, the straight line to the target, the target |
| VLine.HeardFrom | src/d_ctl.c:219-349 | in numbers: with blocks of 64 or more, or that make 64, audio time starts with the clock, and a message has taken effect in every sample that ends after its start and not before its end |
| VLine.FirstSample | src/d_ctl.c:224-236 | so a number without delay that comes during sample k of a tick is there from sample k on |
| VLine.NoSampleBefore | src/d_ctl.c:224-236 | and no sample that ends by its start knows of it: audio time begins 64 samples before the logical time of the tick |
| Biquad.EnergyStep | src/d_filter.c:395-421 | in silence the energy is multiplied by -fb2 |
| Biquad.EnergyDecays | src/d_filter.c:395-421 | so after k samples it is (-fb2)^k times what it was |
| Biquad.EnergyBounds | src/d_filter.c:423-455 | with a negative discriminant energy bounds the state |
| Biquad.ComplexPolesBounded | src/d_filter.c:423-455 | accepted complex poles: a bound on everything that rings on, forever |
| Biquad.AcceptsRealIff | src/d_filter.c:423-455 | real poles are accepted exactly if both are in [-1, 1] |
| Biquad.AcceptsComplexIff | src/d_filter.c:423-455 | complex ones exactly if they are in the closed unit disc |
| Biquad.RealPoleSplits | src/d_filter.c:395-421 | with real poles the ringing splits into two geometric parts |
| Biquad.RealPolesBounded | src/d_filter.c:423-455 | accepted real poles: growth at most linear |
| BiquadStability.AcceptsMeans | src/d_filter.c:423-455 | what acceptance says about the coefficients, real poles or complex |
| BiquadStability.FormStep | src/d_filter.c:395-421 | a quadratic form that no sample of silence increases |
| BiquadStability.FormShrinks | src/d_filter.c:395-421 | nor any number of them |
| BiquadStability.InsideWithin | src/d_filter.c:395-455 | no pole at 1 or -1: the ringing stays within a bound made from that form |
| BiquadStability.EdgeWithin | src/d_filter.c:395-455 | a single pole at 1: within another |
| BiquadStability.Mirror | src/d_filter.c:395-421 | turning the sign of fb1 turns the sign of every other sample |
| BiquadStability.RampGrows | src/d_filter.c:395-421 | a double pole at 1: an impulse grows by its own height with every sample |
| BiquadStability.DoublePolesAccepted | src/d_filter.c:423-455 | the test lets double poles at 1 and at -1 through |
| BiquadStability.BoundedIff | src/d_filter.c:395-455 | accepted coefficients ring within a bound from every start exactly if they are not a double pole at 1 or -1 |
| Biquad.SilenceRings | src/d_filter.c:395-421 | the samples computed in silence are the recursion's |
| Biquad.Biquad.List | src/d_filter.c:423-455 | coefficients are kept exactly if the test accepts them, all zero otherwise |
| Biquad.Biquad.Perform | src/d_filter.c:395-421 | a block in place or not: what is kept is the recursion, cleaned up, and each output blends the last three values kept |
| Biquad.DifferenceEquation | src/d_filter.c:404-418 | y[i] - fb1 y[i-1] - fb2 y[i-2] == ff1 x[i] + ff2 x[i-1] + ff3 x[i-2] wherever clean-up finds nothing to do at the sample and the two before |
| Biquad.Biquad.Run | src/d_filter.c:395-421 | so over whole runs of blocks of any sizes, across their borders |
| Filters.PoleZeroInverse | src/d_filter.c:809-929 | pole and zero filter of equal, varying coefficients undo each other both ways |
| Filters.PoleEquation | src/d_filter.c:820-833 | each output of the pole filter is the input and the coefficient times the output before, in real and imaginary parts |
| Filters.ZeroEquation | src/d_filter.c:913-925 | and each of the zero filter the input less the coefficient times the input before |
| Filters.ReversedZeroIff | src/d_filter.c:992-1021 | when the reversed zero filter is conj(A) - 1/z as its comment says |
| Filters.ReversedZeroAlways | src/d_filter.c:992-1021 | which is for every input exactly if the coefficient is zero |
| Filters.ReversedZeroFails | src/d_filter.c:992-1021 | a sample for which it is not |
| Filters.CPole.Perform | src/d_filter.c:809-839 | a block, with buffers shared in any allowed way |
| Filters.CZero.Perform | src/d_filter.c:902-929 | the same for the zero filter |
| Filters.Slop.Perform | src/d_filter.c:1091-1140 | every output moves from the one before by what its difference, rates and limits ask for, and lies between it and the input, so runs stay in the hull |
| Filters.Slop.Step | src/d_filter.c:1107-1134 | the same for one sample of any limits and rates; full rates follow the input |
| Filters.SlewSlopes | src/d_filter.c:1107-1134 | the slope of that move: the one rate within the limits, the two others above and below, limits and rates cut to what makes sense |
| Filters.SlewBetween | src/d_filter.c:1107-1134 | it goes toward the input, never past it, and at full rates all the way |
| Filters.Slop.RunAt | src/d_filter.c:1107-1134 | which of a sample's inputs is which in that |
| Filters.Slop.Dsp | src/d_filter.c:1142-1144 | the coefficient that makes frequencies into rates |
| AiffRate.SetSampleRate | src/d_soundfile_aiff.c:183-195 | the ten bytes stored in place |
| AiffRate.GetSampleRate | src/d_soundfile_aiff.c:163-180 | the number decoded from them |
| AiffRate.ShiftRound | src/d_soundfile_aiff.c:171-178 | the shifting loop divides by a power of two and adds the last bit lost |
| AiffRate.RoundQuotient | src/d_soundfile_aiff.c:171-178 | which is rounding half up |
| AiffRate.ExponentByte | src/d_soundfile_aiff.c:163-195 | the eight-bit exponent arithmetic of writer and reader agrees |
| AiffRate.RateRoundTrip | src/d_soundfile_aiff.c:163-195 | reading a written rate gives the nearest integer, for every rate in range |
| AiffRate.EncodedInteger | src/d_soundfile_aiff.c:183-195 | the ten bytes of an integer rate, in numbers |
| AiffRate.IntegerRateExact | src/d_soundfile_aiff.c:163-195 | integer rates below 2^32 come back exactly |
| SampleTransfer.QuantizeIsFloor | src/d_soundfile.c:789-895 | biased truncation and clamping are floor and clamping |
| SampleTransfer.DecodeEncode | src/d_soundfile.c:433-503 | a sample written and read is clamp(floor(f * 2^b)) / 2^b |
| SampleTransfer.EncodeDecode | src/d_soundfile.c:789-895 | a code read and written is itself exactly if it is not the most negative |
| SampleTransfer.NormalizedNeverClamps | src/d_soundfile.c:1500-1512 | the normalising factor never lets the clamp act |
| SampleTransfer.AddressOf | src/d_soundfile.c:789-895 | each byte position belongs to one frame, channel and byte |
| SampleTransfer.PositionOf | src/d_soundfile.c:789-895 | and each has a position |
| SampleTransfer.ImageSplits | src/d_soundfile.c:1514-1536 | writing in chunks is writing at once |
| SampleTransfer.ImageSample | src/d_soundfile.c:433-503 | a sample of the image is the encoded sample |
| SampleTransfer.EncodedNumber | src/d_soundfile.c:789-895 | the number in a sample's bytes, in either order: the floor of 2^15 or 2^23 times the scaled sample, clamped, or the bits of a float |
| SampleTransfer.ImageNumber | src/d_soundfile.c:789-895 | and at which byte of the file it stands |
| SampleTransfer.XferOut | src/d_soundfile.c:789-895 | the buffer's front becomes the frames' image, every byte of it, and nothing else changes |
| SampleTransfer.XferIn | src/d_soundfile.c:505-577 | tables get their channels' samples, the others zeros |
| SampleTransfer.Biggest | src/d_soundfile.c:1454-1464 | the largest absolute value among the samples to be written |
| SampleTransfer.AllFit | src/d_soundfile.c:1497-1512 | with the factor chosen for it no integer sample is clamped by more than one code; scaled, none at all, and the biggest is one part in 32768 short of full scale |
| SampleTransfer.Write | src/d_soundfile.c:1453-1536 | so the file written is the start of the image under that factor, whole frames counted |
| SampleTransfer.WriteChunk | src/d_soundfile.c:1517-1536 | one chunk, written whole or as far as the disk has room |
| SampleTransfer.DoWrite | src/d_soundfile.c:1514-1536 | the file is the start of the image of all frames; the count is of whole frames |
| SampleTransfer.ReadChunk | src/d_soundfile.c:1323-1334 | one chunk, the whole frames of it |
| SampleTransfer.ReadChunks | src/d_soundfile.c:1322-1334 | as many frames as wanted and there |
| SampleTransfer.DoRead | src/d_soundfile.c:1322-1357 | whatever tables held, they then hold the file's samples and zeros behind them |
| SampleTransfer.ReadBack | src/d_soundfile.c:433-503 | a sample of a written file, read back, is the rounded sample |
| SampleTransfer.DecodedNumber | src/d_soundfile.c:433-503 | what a sample's bytes are read as: a signed number over 2^15 or 2^23, or a float |
| SampleTransfer.FinishedNumber | src/d_soundfile.c:433-503 | which bytes of the file end up where in which table, and where zeros do |
| SampleTransfer.WriteThenRead | src/d_soundfile.c:1320-1536 | writing and reading through any chunks rounds each sample and does nothing else |
| NextHeader.WriteHeader | src/d_soundfile_next.c:181-223 | the file's front becomes the header, byte for byte at offsets given in numbers |
| NextHeader.UpdateHeader | src/d_soundfile_next.c:225-247 | only the length field changes, to the size or all ones |
| NextHeader.HeaderBytes | src/d_soundfile_next.c:181-223 | what stands at which offset of a file that starts with a header |
| NextHeader.ReadWritten | src/d_soundfile_next.c:121-178 | what the reader makes of a file that starts with a header, of unknown length too |
| NextHeader.Accepted | src/d_soundfile_next.c:121-178 | which files are read at all, and what is taken from which bytes |
| NextHeader.RoundTrip | src/d_soundfile_next.c:121-223 | reading a written header recovers everything, in either byte order, whatever follows |
| NextHeader.UpdateIsWriteIff | src/d_soundfile_next.c:181-247 | updating to n > 0 frames gives the header written for n exactly if the length fits 32 bits or its low 32 are all ones |
| NextHeader.UpdateDiffers | src/d_soundfile_next.c:181-247 | 2^30 mono float frames, the shortest such file for which it does not |
| WaveHeader.WriteHeader | src/d_soundfile_wave.c:352-430 | the chunks for any width, float headers included, byte for byte at offsets given in numbers: byte rate, block align, valid bits, sub-format and frame count too |
| WaveHeader.UpdateHeader | src/d_soundfile_wave.c:432-478 | the file becomes header, data and padding of n frames, with the sizes and the frame count at their offsets |
| WaveHeader.HeaderBytes | src/d_soundfile_wave.c:352-430 | what stands at which offset of a file that starts with a header |
| WaveHeader.ReadHeader | src/d_soundfile_wave.c:219-350 | on every file, malformed ones too, the loop over chunks gives what a recursive scan gives that has the reader's 128-byte buffer as an argument; a format chunk longer than the buffer is outside the model |
| WaveHeader.RoundTrip | src/d_soundfile_wave.c:219-430 | reading a written header recovers everything, the size rounded up to even |
| WaveHeader.ForeignChunks | src/d_soundfile_wave.c:128-145 | other chunks before and after the format chunk, of even or odd length, make no difference to what is read but where the sound data starts |
| WaveHeader.FormatRead | src/d_soundfile_wave.c:250-310 | a written format chunk is read as that format |
| WaveHeader.FormatAccepted | src/d_soundfile_wave.c:262-296 | which format chunks are accepted, in numbers, and what is taken from them |
| WaveHeader.WriteMatchesUpdateIff | src/d_soundfile_wave.c:352-478 | writing for n frames and updating to n agree exactly for even sizes |
| AiffHeader.PStringRoundTrip | src/d_soundfile_aiff.c:122-145 | a pascal string is of even length and read back |
| AiffHeader.FrexpOfInt | src/d_soundfile_aiff.c:183-195 | the mantissa and exponent of an integer rate |
| AiffHeader.RateBack | src/d_soundfile_aiff.c:163-195 | the rate in the header is the rate read |
| AiffHeader.WriteHeader | src/d_soundfile_aiff.c:444-522 | the header of AIFF or AIFF-C, chunk by chunk, and byte for byte at offsets given in numbers |
| AiffHeader.UpdateHeader | src/d_soundfile_aiff.c:524-568 | the header becomes the one for n frames, data untouched, with the sizes and the frame count at their offsets |
| AiffHeader.HeaderBytes | src/d_soundfile_aiff.c:444-522 | what stands at which offset of a file that starts with a header |
| AiffHeader.RateIsBytes | src/d_soundfile_aiff.c:183-195 | the ten bytes of the rate: exponent, a mantissa with its highest bit set, and zeros, which make the rate |
| AiffHeader.ReadHeader | src/d_soundfile_aiff.c:272-442 | the same for its loop and scan; chunks longer than the buffer or of negative size are outside the model |
| AiffHeader.RoundTrip | src/d_soundfile_aiff.c:272-522 | reading a written header recovers everything but the byte order of floats |
| AiffHeader.ForeignChunks | src/d_soundfile_aiff.c:208-222 | other chunks before and after the common chunk make no difference to what is read but where the sound data starts |
| AiffHeader.CommAccepted | src/d_soundfile_aiff.c:327-405 | which common chunks are accepted, in numbers, and what is taken from them |
| AiffHeader.ByteOrderRecoveredIff | src/d_soundfile_aiff.c:272-522 | and that exactly if they are not little-endian |
| CafHeader.WriteHeader | src/d_soundfile_caf.c:319-366 | the header, byte for byte at offsets given in numbers; for no frames the unknown size plus 4, which wraps round to 3 |
| CafHeader.UpdateHeader | src/d_soundfile_caf.c:368-383 | only the data size changes, to the sound's and 4 |
| CafHeader.HeaderBytes | src/d_soundfile_caf.c:319-366 | what stands at which offset of a file that starts with a header |
| CafHeader.UpdateIsWrite | src/d_soundfile_caf.c:319-383 | updating to n > 0 frames gives the header written for n |
| CafHeader.ReadHeader | src/d_soundfile_caf.c:192-317 | the buffered reader agrees with a scan of the file's bytes on every file; a chunk whose size takes the scan backwards is outside the model |
| CafHeader.RoundTrip | src/d_soundfile_caf.c:192-366 | reading a written header recovers everything |
| CafHeader.ForeignChunks | src/d_soundfile_caf.c:131-150 | other chunks between description and sound data make no difference to what is read but where that starts |
| CafHeader.DescAccepted | src/d_soundfile_caf.c:192-317 | which descriptions are accepted, in numbers, and what is taken from them |
| CafHeader.FramesRecoveredIff | src/d_soundfile_caf.c:192-366 | the frame count exactly if there are any |
| PatchModel.RemoveAll | src/g_editor_extras.c:212-232 | disconnecting an outlet's connections last to first empties it, duplicates included |
| PatchModel.PlacedIs | src/g_editor_extras.c:95-116 | each moved connection ends on an outlet of its own, the first on the last |
| PatchModel.MovedStep | src/g_editor_extras.c:51-70 | disconnecting and reconnecting while walking the live list ends, having moved each connection once |
| FanOut.Patch.Disconnect | src/m_obj.c:690-732 | the list is walked and the first such connection taken out, any later equal one kept |
| FanOut.Patch.StackConn | src/g_editor_extras.c:95-116 | an outlet's connections on successive outlets of the new trigger |
| FanOut.Patch.Defanout | src/g_editor_extras.c:212-232 | the same counting down |
| FanOut.Patch.HasFanoutIn | src/g_editor_extras.c:117-139 | whether a control outlet has two connections or more |
| FanOut.Patch.Dereconnect | src/g_editor_extras.c:38-73 | every connection in the patch to the old box leads to the new one |
| FanOut.Patch.CreateTrigger | src/g_editor_extras.c:82-94 | a new trigger, last in the list |
| FanOut.Patch.FanoutInplace | src/g_editor_extras.c:160-211 | a trigger with a fan-out is replaced by its expansion, any other left alone |
| FanOut.Patch.SplitOutlet | src/g_editor_extras.c:275-313 | one outlet's connections taken over by a new, selected trigger |
| FanOut.Patch.Fanout | src/g_editor_extras.c:234-316 | one box's control fan-outs resolved |
| FanOut.Patch.Fanouts | src/g_editor_extras.c:317-334 | after the run no selected box has a control fan-out, and every box still sends the same kinds of message to the same inlets, through new triggers that pass on what they get, in the same order but for those to replaced triggers |
| FanOutOrder.FireSingles | src/x_connective.c:1023-1046 | one outlet for each connection sends what one outlet with all of them sends |
| FanOutOrder.FireSpread | src/g_editor_extras.c:160-211 | an expanded trigger sends what the trigger sent: places, order, kinds |
| FanOutOrder.OutStub | src/g_editor_extras.c:275-313 | through the new trigger an outlet reaches the same inlets in the same order |
| FanOutOrder.RelayPasses | src/x_connective.c:1023-1046 | a trigger whose arguments are all `a` sends on the kind it gets, from the right |
| FanOutOrder.RelayAt | src/x_connective.c:1023-1046 | connection i of outlet o of a trigger comes after all those to its right, with the kind its outlet's argument makes of the message |
| FanOutOrder.OutThrough | src/g_editor_extras.c:275-313 | so a connection to it reaches what its own connections reach, kinds and order kept |
| FanOutOrder.MovedClose | src/g_editor_extras.c:38-73 | redirecting to a replacement changes only when that is reached |
| FanOutOrder.MovedInOrderIff | src/g_editor_extras.c:38-73 | and keeps the order exactly if the replaced box came last |
| FanOutOrder.MovedOutOfOrder | src/g_editor_extras.c:38-73 | two connections whose order changes |
| FanOutOrder.CloseIsSame | src/g_editor_extras.c:317-334 | with no trigger replaced, the same means exactly the same sequence |
| FanOutOrder.InvStarts | src/g_editor_extras.c:317-334 | a patch does what it does |
| FanOutOrder.InvSplit | src/g_editor_extras.c:275-313 | resolving a fan-out keeps what every box of the patch sends |
| FanOutOrder.InvExpand | src/g_editor_extras.c:160-211 | so does expanding a trigger, but for when it is reached itself |
| FanOutRun.ExpandFanouts | src/g_editor_extras.c:160-211 | an expanded trigger has no fan-out, and no other box gains or loses one |
| FanOutRun.SplitAllResolves | src/g_editor_extras.c:254-316 | a box gone through has no fan-out, and there are new triggers exactly if it had one |
| FanOutRun.SplitAllOthers | src/g_editor_extras.c:254-316 | no other box is changed |
| FanOutRun.InvSplitAll | src/g_editor_extras.c:254-316 | going through all outlets of a box keeps what every box sends |
| FanOutRun.StandsExpand | src/g_editor_extras.c:160-211 | old and new boxes stay in one-to-one correspondence |
| FanOutRun.RunExpands | src/g_editor_extras.c:317-334 | what holds along a run is kept when a trigger is visited |
| FanOutRun.RunSplits | src/g_editor_extras.c:317-334 | and when another box is |

## Left out

- Signal vectors whose size is not a power of two, and graphs of mixed sizes and rates: the free lists are per size, the model has one size.
- Canvases within canvases in the sorter: borrowed signals, inlet and outlet prologs and epilogs, and cloned canvases.  `BlockVm` has the nesting of code.
- What single signal objects compute: a box is an arbitrary function that reads its inputs before it writes its outputs.
- DspSort.DspContext.Connect: an outlet or inlet number out of range of an existing box is required not to occur: the code reports a bug and goes on beyond its arrays.
- Rounding, overflow and special values of floating-point numbers; widths of counters and shifts.
- BlockParams.Block.Configure: u_phase is masked with period - 1 in the code, here it is the remainder; parent size and period are powers of two, so these agree.
- A change of vector size while readsf~ is playing, and vector sizes that do not divide 128.
- The channel count and sample rate reported when one open overtakes another.
- writesf~.
- BitReversal.Reverse: `bitrv2` and `bitrv2conj` are one method with a flag; transforms of fewer than 32 complex elements have routines of their own, which are not part of the model.
- The butterflies and weights of the FFT; transforms are parameters of `SpectrumLayout`.
- DelayLine.DelWrite.UpdateSr: a ring that changes length while it holds sound keeps the old samples at their old places; its history restarts only from silence.
- EnvFollower.Env.Dsp: changing the block size with windows half filled is stated only where the sums stay in step.  The slot one past the source's buffer is part of the model's, which is one longer.
- VLine.VLine.Perform: the hull needs the envelope at rest, or audio time to run on from where the last block ended, as it does unless blocks overlap or the sample rate changes under a slide.
- VLine.Play: the `stop` message, which is `VLine.VLine.Stop`, is not one of the run's messages.
- Real pole and zero filters: the complex ones with zero imaginary parts.
- Hosts that are big-endian.
- WaveHeader.ReadHeader: a format chunk longer than the reader's buffer is answered `OutOfModel`.
- AiffHeader.ReadHeader: version and common chunks longer than the reader's buffer and chunk sizes that are negative as signed numbers are answered `OutOfModel`.
- CafHeader.ReadHeader: a chunk whose size takes the scan backwards is answered `OutOfModel`; the 64-bit floating-point rate is stored and loaded by functions that are parameters.
- WaveHeader.RoundTrip: for descriptions that are little-endian, as the WAVE type makes them (src/d_soundfile_wave.c:504-507).
- Sound files as text, file name handling and skipping frames.
- SampleTransfer.XferIn: needs tables that do not overlap; the variant for arrays of words and the one for samples are the same here.  The bits of a four-byte float are given by functions that are parameters.
- FanOut.Patch.FanoutInplace: a trigger without arguments, which has two outlets, is not a trigger of the model.
- FanOut.Patch.Fanouts: positions, undo records and drawing; the messages' contents, beyond the kinds a trigger's arguments name.
- The rewriting of lines, the minimising of triggers and the adding of outlets to them.
