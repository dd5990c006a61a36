/** readsf~ where it falls short, and how far it can be relied on: exactly when a byte goes out that was not
  read, exactly when a failed open harms a later one, what is heard, and how soon a waiting thread is answered. */
module ReadsfLimits {
  import opened Arith
  import opened Readsf
  import opened ReadsfProof

  // ---------------------------------------------------------------------------------------
  // One byte short
  // ---------------------------------------------------------------------------------------

  ghost function Taken(st: State): int {
    st.base + st.tail
  }

  /** The bytes that the last, partial vector takes. */
  function LastBytes(st: State): int
    requires st.bpf > 0
  {
    (st.head - st.tail + 1) / st.bpf * st.bpf
  }

  /** The next call of readsf_perform hands out a byte that no read has put into the fifo. */
  ghost predicate Overruns(st: State)
    requires st.bpf > 0
  {
    if !Starved(st) then Taken(DeliverStep(st)) > FifoOf(st).Got()
    else st.eof && LastBytes(st) > st.head - st.tail
  }

  /** A whole vector overruns exactly if one byte less has been read, and then by that byte. */
  lemma ShortVectorIff(st: State)
    requires Geometry(FifoOf(st)) && !Starved(st)
    ensures Taken(DeliverStep(st)) > FifoOf(st).Got() <==> ShortVector(st)
    ensures ShortVector(st) ==> Taken(DeliverStep(st)) == FifoOf(st).Got() + 1
  {
    VectorFits(FifoOf(st));
    VecTwo(st);
    hide Geometry, Want, Fifo.Vec;
    WantIsVec(st);
    TakenAfter(st);
    hide DeliverStep;
  }

  lemma WantIsVec(st: State)
    ensures Want(st) == FifoOf(st).Vec()
  {
  }

  lemma TakenAfter(st: State)
    requires st.tail + Want(st) <= st.fifosize
    ensures Taken(DeliverStep(st)) == Taken(st) + Want(st)
  {
    hide Want, Slice;
  }

  lemma VectorFits(f: Fifo)
    requires Geometry(f)
    ensures f.tail + f.Vec() <= f.fifosize
  {
    hide FifoSize, Multiple;
    FifoFits(f);
    MultipleGap(f.tail, f.fifosize, f.Vec());
  }

  /** A last vector overruns exactly if one byte less than a whole frame has been read. */
  lemma ShortFrameIff(st: State)
    requires st.bpf >= 2 && st.eof && Starved(st)
    ensures LastBytes(st) > st.head - st.tail <==> ShortFrame(st)
  {
    var d, b := st.head - st.tail, st.bpf;
    DivMod(d, b);
    if d % b == b - 1 {
      DivIs(d + 1, b, d / b + 1, 0);
    } else {
      WholeFrames(d, b);
    }
  }

  /** In every run that has been faithful so far, the next call overruns exactly if the fifo is one byte short. */
  lemma FirstShort(run: seq<State>, evs: seq<Event>, i: nat)
    requires Run(run, evs) && i < |evs| && TameRun(run, evs, i) && (evs[i] == PPerform || evs[i] == PResume)
    ensures run[i].bpf > 0 && (Overruns(run[i]) <==> !Tame(run[i], evs[i]))
  {
    var st := run[i];
    EveryState(run, evs, i);
    assert Follows(st, evs[i], run[i + 1]);
    hide Run, TameRun, ControlInv, StreamInv, Next, Geometry, LastBytes, DeliverStep;
    PerformPlays(st, evs[i]);
    if Starved(st) {
      if st.eof { ShortFrameIff(st); }
    } else {
      DeliverFrom(st);
      ShortVectorIff(st);
    }
  }

  lemma PerformPlays(st: State, ev: Event)
    requires ControlInv(st) && Enabled(st, ev) && (ev == PPerform || ev == PResume)
    ensures Playing(st) && st.play == Streaming && st.bpf >= 2
  {
    hide FdInv;
  }

  /** A run in which the byte is missed: of a file of 16-bit frames, the first read stops a byte short of a
    vector, and the vector goes out with whatever the buffer held there. */
  lemma ShortRun(st: State, data: seq<byte>) returns (run: seq<State>, evs: seq<Event>)
    requires Init(st) && |data| % 2 == 0 && 2 * st.vecsize <= |data|
    ensures |run| == 8 && |evs| == 7 && run[0] == st && evs[3] == COpened(File(data, 2)) && evs[6] == PPerform
    ensures var n := 2 * st.vecsize - 1;
            0 <= n < |st.buf| && evs[5] == CRead(n) && run[7].out == data[..n] + [st.buf[n]]
    ensures Run(run, evs)
  {
    var n := 2 * st.vecsize - 1;
    var f := File(data, 2);
    SmallVector(st.vecsize);
    var st3 := StartedRun(st);
    OpenedRun(st, st3, f);
    ReadRun(OpenedStep(st3, f), n);
    hide OpenedStep, FeedStep, ReadStep, DeliverStep, OpenStep, TopStep, Enabled, Next, Follows;
    var st1 := OpenStep(st, 2);
    var st4 := OpenedStep(st3, f);
    var st5 := FeedStep(st4);
    var st6 := ReadStep(st5, n);
    RunStarts(st);
    hide Init, Run;
    run, evs := [st], [];
    run, evs := RunSteps(run, evs, POpen(2), st1, CTop, TopStep(st1), PStart, st3);
    run, evs := RunSteps(run, evs, COpened(f), st4, CFeed, st5, CRead(n), st6);
    run, evs := RunStep(run, evs, PPerform, DeliverStep(st6));
  }

  lemma RunStarts(st: State)
    requires Init(st)
    ensures Run([st], [])
  {
  }

  /** A run, one step longer. */
  lemma RunStep(run: seq<State>, evs: seq<Event>, ev: Event, st: State) returns (r: seq<State>, e: seq<Event>)
    requires Run(run, evs) && |run| == |evs| + 1 && Follows(run[|evs|], ev, st)
    ensures Run(r, e) && |r| == |run| + 1 && |e| == |evs| + 1 && r[|evs| + 1] == st && e[|evs|] == ev
    ensures forall k: nat :: k < |run| ==> r[k] == run[k]
    ensures forall k: nat :: k < |evs| ==> e[k] == evs[k]
  {
    hide Follows, Init;
    r, e := run + [st], evs + [ev];
    forall i | 0 <= i < |e| ensures Follows(r[i], e[i], r[i + 1]) {
      if i < |evs| { assert Follows(run[i], evs[i], run[i + 1]); }
    }
  }

  /** Three steps longer. */
  lemma RunSteps(run: seq<State>, evs: seq<Event>, ev1: Event, st1: State, ev2: Event, st2: State, ev3: Event,
                 st3: State)
    returns (r: seq<State>, e: seq<Event>)
    requires Run(run, evs) && |run| == |evs| + 1
    requires Follows(run[|evs|], ev1, st1) && Follows(st1, ev2, st2) && Follows(st2, ev3, st3)
    ensures Run(r, e) && |r| == |run| + 3 && |e| == |evs| + 3
    ensures r[|evs|] == run[|evs|] && r[|evs| + 1] == st1 && r[|evs| + 2] == st2 && r[|evs| + 3] == st3
    ensures e[|evs|] == ev1 && e[|evs| + 1] == ev2 && e[|evs| + 2] == ev3
    ensures r[0] == run[0] && forall k: nat :: k < |evs| ==> e[k] == evs[k]
    ensures forall k: nat :: k < |run| ==> r[k] == run[k]
  {
    hide Follows, Init, Run;
    r, e := RunStep(run, evs, ev1, st1);
    r, e := RunStep(r, e, ev2, st2);
    r, e := RunStep(r, e, ev3, st3);
  }

  /** The object is asked to open a file; the child takes the request up, and the parent starts. */
  lemma StartedRun(st: State) returns (st3: State)
    requires Init(st)
    ensures Follows(st, POpen(2), OpenStep(st, 2)) && Follows(OpenStep(st, 2), CTop, TopStep(OpenStep(st, 2)))
    ensures Follows(TopStep(OpenStep(st, 2)), PStart, st3)
    ensures st3 == TopStep(OpenStep(st, 2)).(play := Streaming)
    ensures st3 == st.(req := Busy, head := 0, tail := 0, eof := false, play := Streaming, bpf := 2, src := [],
        base := 0,
                       out := [], bangs := 0, fault := false, stale := false, posted := Open, settled := true,
                       child := Opening)
  {
    st3 := TopStep(OpenStep(st, 2)).(play := Streaming);
  }

  lemma OpenedRun(st: State, st3: State, f: File)
    requires Init(st) && f.bpf == 2 && |f.data| % 2 == 0
    requires st3 == st.(req := Busy, head := 0, tail := 0, eof := false, play := Streaming, bpf := 2, src := [],
        base := 0,
                        out := [], bangs := 0, fault := false, stale := false, posted := Open, settled := true,
                        child := Opening)
    ensures Follows(st3, COpened(f), OpenedStep(st3, f))
    ensures var st4 := OpenedStep(st3, f);
      && st4.child == Feed && st4.req == Busy && !st4.eof && st4.fifosize > READSIZE && st4.limit == |f.data|
      && st4.src == f.data && st4.head == 0 && st4.tail == 0 && st4.base == 0 && st4.bpf == 2 && st4.parent == Running
      && st4.play == Streaming && st4.out == [] && st4.buf == st.buf && st4.vecsize == st.vecsize
  {
    var v := VecInMax(st.vecsize, 2);
    FifoSizeIs(|st.buf|, 2, st.vecsize * 2, v);
    hide FifoSize;
  }

  lemma ReadRun(st4: State, n: nat)
    requires st4.child == Feed && st4.req == Busy && !st4.eof && st4.fifosize > READSIZE && st4.limit == |st4.src|
    requires st4.head == 0 && st4.tail == 0 && st4.base == 0 && st4.bpf == 2 && st4.parent == Running
    requires st4.play == Streaming && st4.out == [] && |st4.buf| >= MINBUFSIZE && st4.vecsize > 0
    requires n == 2 * st4.vecsize - 1 && n < |st4.src| && n < READSIZE
    ensures var st5 := FeedStep(st4);
      && Follows(st4, CFeed, st5) && st5.child.Reading? && Follows(st5, CRead(n), ReadStep(st5, n))
      && var st6 := ReadStep(st5, n);
         && Follows(st6, PPerform, DeliverStep(st6))
         && DeliverStep(st6).out == st4.src[..n] + [st4.buf[n]]
  {
    FirstFeed(st4);
    hide FeedStep, ReadStep, DeliverStep, Blit, Follows;
    ReadPart(FeedStep(st4), n);
    ShortDelivery(st4, ReadStep(FeedStep(st4), n), n);
  }

  lemma FirstFeed(st: State)
    requires st.child == Feed && st.req == Busy && !st.eof && st.fifosize > READSIZE && st.limit == |st.src|
    requires st.head == 0 && st.tail == 0
    ensures FeedStep(st) == st.(child := Reading(0, if |st.src| < READSIZE then |st.src| else READSIZE))
    ensures Follows(st, CFeed, FeedStep(st))
  {
  }

  lemma ShortDelivery(st4: State, st6: State, n: nat)
    requires st6.parent == Running && st6.play == Streaming && st6.req == Busy && st6.tail == 0 && st6.bpf == 2
    requires !st6.eof && st6.out == [] && st6.vecsize > 0 && n == 2 * st6.vecsize - 1 == st6.head && n < |st4.buf|
    requires n <= |st4.src| && st6.buf == Blit(st4.buf, 0, st4.src[..n])
    ensures Follows(st6, PPerform, DeliverStep(st6))
    ensures DeliverStep(st6).out == st4.src[..n] + [st4.buf[n]]
  {
    assert !Starved(st6);
    BlitThenSlice(st4.buf, st4.src, n);
    hide Blit, Slice;
  }

  lemma BlitThenSlice(buf: seq<byte>, src: seq<byte>, n: nat)
    requires n < |buf| && n <= |src|
    ensures [] + Slice(Blit(buf, 0, src[..n]), 0, n + 1) == src[..n] + [buf[n]]
  {
  }

  lemma ReadPart(st: State, n: nat)
    requires st.child.Reading? && st.child.at == 0 && st.req == Busy && st.head == 0 && st.tail == 0 && st.base == 0
    requires 0 < n < st.limit == |st.src| && n < st.fifosize && st.parent == Running
    ensures ReadStep(st, n) == st.(buf := Blit(st.buf, 0, st.src[..n]), head := n, limit := st.limit - n, child := Feed)
    ensures n <= st.child.want ==> Follows(st, CRead(n), ReadStep(st, n))
  {
    hide Blit;
    assert st.src[0..n] == st.src[..n];
  }

  lemma SmallVector(vecsize: nat)
    requires vecsize > 0 && MAXVECSIZE % vecsize == 0
    ensures vecsize <= MAXVECSIZE
  {
    var v := VecInMax(vecsize, 1);
  }

  // ---------------------------------------------------------------------------------------
  // Reads that keep a run faithful
  // ---------------------------------------------------------------------------------------

  /** A read that does not leave the fifo one byte short of a whole number of vectors, nor the stream one byte
    short of a frame. */
  ghost predicate Aligned(st: State, ev: Event) {
    st.req == Busy && st.bpf > 0 && st.vecsize > 0 ==>
      match ev
      case CRead(n) =>
        if n == 0 then st.head % st.bpf != st.bpf - 1
        else n < st.limit ==> (st.head + n) % Want(st) != Want(st) - 1
      case CReadFailed => st.head % st.bpf != st.bpf - 1
      case _ => true
  }

  ghost predicate HeadAligned(f: Fifo, eof: bool) {
    Fresh(f) || (f.Vec() > 0 && f.bpf > 0
                 && if eof then f.head % f.bpf != f.bpf - 1 else f.head % f.Vec() != f.Vec() - 1)
  }

  ghost predicate AlignedInv(st: State) {
    Playing(st) ==>
      match st.req
      case Busy => st.child == ClosingOld || st.child == Opening || HeadAligned(FifoOf(st), st.eof)
      case Nothing => HeadAligned(FifoOf(st), true)
      case _ => true
  }

  /** While the head is aligned the fifo is not one byte short. */
  lemma AlignedTame(st: State, ev: Event)
    requires ControlInv(st) && StreamInv(st) && Enabled(st, ev) && AlignedInv(st)
    ensures Tame(st, ev)
  {
    if ev == PPerform || ev == PResume {
      hide ControlInv, StreamInv, Geometry, Next, Tame;
      PerformPlays(st, ev);
      AlignedFull(st);
      if !Starved(st) {
        NotShortOfVector(st);
      } else if st.eof {
        NotShortOfFrame(st);
      }
      hide Enabled, AlignedInv;
      assert Tame(st, ev) by { TameIs(st, ev); }
    }
  }

  lemma TameIs(st: State, ev: Event)
    requires !Starved(st) ==> !ShortVector(st)
    requires Starved(st) && st.eof ==> !ShortFrame(st)
    ensures Tame(st, ev)
  {
  }

  lemma AlignedFull(st: State)
    requires ControlInv(st) && StreamInv(st) && Playing(st) && AlignedInv(st)
    ensures !Fresh(FifoOf(st)) && (!Starved(st) || st.eof) ==> HeadAligned(FifoOf(st), st.eof) && Geometry(FifoOf(st))
    ensures Want(st) >= 2
  {
    hide FdInv, Geometry, Content;
    VecTwo(st);
  }

  lemma NotShortOfVector(st: State)
    requires !Starved(st) && Want(st) >= 2
    requires !Fresh(FifoOf(st)) ==> HeadAligned(FifoOf(st), st.eof) && Geometry(FifoOf(st))
    ensures !ShortVector(st)
  {
    var f := FifoOf(st);
    if ShortVector(st) && !Fresh(f) {
      FifoFits(f);
      LastOfVector(f.head, f.tail, f.Vec());
      ShortOfBoth(f.head, f.Vec(), f.bpf);
    }
  }

  lemma NotShortOfFrame(st: State)
    requires st.bpf >= 2
    requires !Fresh(FifoOf(st)) ==> HeadAligned(FifoOf(st), true) && Geometry(FifoOf(st))
    ensures !ShortFrame(st)
  {
    var f := FifoOf(st);
    if !Fresh(f) {
      TailInFrames(f);
      ModMinusMultiple(f.head, f.tail, f.bpf);
    }
  }

  /** A remainder one short of a whole vector is one short of a whole frame too. */
  lemma ShortOfBoth(x: int, vec: int, bpf: int)
    requires vec > 0 && Multiple(vec, bpf) && x % vec == vec - 1
    ensures x % bpf == bpf - 1
  {
    DivMod(x, vec);
    DivMod(vec, bpf);
    var k := vec / bpf;
    var q := x / vec;
    assert x == (bpf * k) * q + bpf * k - 1;
    assert (bpf * k) * q == bpf * (k * q);
    assert bpf * (k * q + k - 1) == bpf * (k * q) + bpf * k - bpf;
    DivIs(x, bpf, k * q + k - 1, bpf - 1);
  }

  lemma LastOfVector(head: int, tail: int, vec: int)
    requires Multiple(tail, vec) && head == tail + vec - 1
    ensures head % vec == vec - 1
  {
    DivMod(tail, vec);
    DivIs(head, vec, tail / vec, vec - 1);
  }

  lemma AlignedParent(st: State, ev: Event)
    requires ControlInv(st) && Enabled(st, ev) && AlignedInv(st)
    requires ev.POpen? || ev.PStart? || ev.PStop? || ev.PIdle? || ev.PFree? || ev.PResumeFree? || ev.PSpurious?
    ensures AlignedInv(Next(st, ev))
  {
    hide RequestInv, WakeInv, FdInv, HeadAligned;
  }

  lemma AlignedOld(st: State, ev: Event)
    requires ControlInv(st) && StreamInv(st) && Enabled(st, ev) && AlignedInv(st)
    requires ev.COpenFailed? || ev.CClosedOld?
    ensures AlignedInv(Next(st, ev))
  {
    hide RequestInv, WakeInv, FdInv, Geometry, Content, Leftover;
    BeforeOpened(st);
    hide ControlInv, StreamInv, Fresh;
  }

  /** Until the file is open the fifo is as the request left it. */
  lemma BeforeOpened(st: State)
    requires ControlInv(st) && StreamInv(st) && (st.child == Opening || st.child == ClosingOld)
    ensures st.req != Nothing && (Playing(st) && st.req == Busy ==> Fresh(FifoOf(st)))
  {
    hide FdInv, Geometry, Content;
  }

  lemma AlignedChild(st: State, ev: Event)
    requires ControlInv(st) && StreamInv(st) && Enabled(st, ev) && AlignedInv(st)
    requires ev.CTop? || ev.CWake? || ev.CScribble? || ev.CSpurious? || ev.CClosedLost? || ev.CClosedClose?
             || ev.CClosedQuit?
    ensures AlignedInv(Next(st, ev))
  {
    hide RequestInv, WakeInv, FdInv, Geometry, Content, Blit;
    FdTop(st);
  }

  lemma AlignedOther(st: State, ev: Event)
    requires ControlInv(st) && StreamInv(st) && Enabled(st, ev) && AlignedInv(st)
    requires !(ev.CRead? || ev.CReadFailed? || ev.COpened? || ev.PPerform? || ev.PResume? || ev.CFeed?)
    ensures AlignedInv(Next(st, ev))
  {
    hide Next, Enabled, AlignedInv, StreamInv, ControlInv;
    if ev.POpen? || ev.PStart? || ev.PStop? || ev.PIdle? || ev.PFree? || ev.PResumeFree? || ev.PSpurious? {
      AlignedParent(st, ev);
    } else if ev.COpenFailed? || ev.CClosedOld? {
      AlignedOld(st, ev);
    } else {
      AlignedChild(st, ev);
    }
  }

  lemma FeedFacts(st: State)
    requires ControlInv(st) && StreamInv(st) && st.child == Feed
    ensures Playing(st) && st.req != Busy ==> st.req == Open || st.req == Nothing
    ensures st.req != Nothing && (Playing(st) && st.req == Busy && st.eof ==> Fresh(FifoOf(st)))
  {
    hide FdInv, Geometry, Content;
  }

  lemma AlignedFeed(st: State)
    requires ControlInv(st) && StreamInv(st) && st.child == Feed && AlignedInv(st)
    ensures AlignedInv(FeedStep(st))
  {
    hide RequestInv, WakeInv, FdInv, Geometry, Content, WantRead, Leftover;
    FeedFacts(st);
    hide StreamInv, PhaseInv;
  }

  lemma AlignedOpened(st: State, f: File)
    requires ControlInv(st) && StreamInv(st) && st.child == Opening && GoodFile(f) && st.vecsize > 0
    ensures AlignedInv(OpenedStep(st, f))
  {
    hide RequestInv, WakeInv, FdInv, Geometry, Content, FifoSize;
  }

  lemma AlignedFailed(st: State)
    requires ControlInv(st) && StreamInv(st) && st.child.Reading? && AlignedInv(st) && Aligned(st, CReadFailed)
    ensures AlignedInv(ReadFailedStep(st))
  {
    hide RequestInv, WakeInv, FdInv, Geometry, Content;
    if st.req == Busy {
      ReadingFor(st);
      ReadLimit(st);
    }
  }

  lemma AlignedPerform(st: State, ev: Event)
    requires ControlInv(st) && StreamInv(st) && Enabled(st, ev) && AlignedInv(st) && (ev == PPerform || ev == PResume)
    ensures AlignedInv(Next(st, ev))
  {
    hide ControlInv, StreamInv, AlignedInv, Geometry, Content, DeliverStep, FinishStep, SignalRequest, Starved;
    PerformPlays(st, ev);
    if !st.eof && Starved(st) {
      AlignedWaits(st);
    } else if st.eof && Starved(st) {
      FinishIdle(st);
      NotPlaying(FinishStep(st));
    } else {
      DeliverFrom(st);
      AlignedDelivers(st);
    }
  }

  lemma AlignedWaits(st: State)
    requires AlignedInv(st) && Playing(st)
    ensures AlignedInv(SignalRequest(st).(parent := WaitData(false)))
  {
    hide AlignedInv;
    AlignedMoves(st, SignalRequest(st).(parent := WaitData(false)));
  }

  lemma AlignedDelivers(st: State)
    requires AlignedInv(st) && Playing(st) && !Fresh(FifoOf(st))
    ensures AlignedInv(DeliverStep(st))
  {
    hide AlignedInv, Slice, Want;
    AlignedMoves(st, DeliverStep(st));
  }

  lemma FinishIdle(st: State)
    requires st.bpf > 0
    ensures FinishStep(st).play == Idle
  {
  }

  lemma NotPlaying(st: State)
    requires st.play == Idle
    ensures AlignedInv(st)
  {
  }

  /** What AlignedInv looks at is the same, the fifo's tail apart. */
  lemma AlignedMoves(st: State, st1: State)
    requires AlignedInv(st) && Playing(st) && st1.eof == st.eof && st1.req == st.req
    requires st1.head == st.head && st1.vecsize == st.vecsize && st1.bpf == st.bpf
    requires st1.child == st.child || (st.child != ClosingOld && st.child != Opening)
    requires Fresh(FifoOf(st)) ==> Fresh(FifoOf(st1))
    ensures AlignedInv(st1)
  {
  }

  lemma AlignedRead(st: State, n: nat)
    requires ControlInv(st) && StreamInv(st) && st.child.Reading? && n <= st.child.want
    requires AlignedInv(st) && Aligned(st, CRead(n))
    ensures AlignedInv(ReadStep(st, n))
  {
    hide ControlInv, StreamInv, AlignedInv, ReadStep, Busily, Geometry, Content;
    if st.req != Busy {
      ReadLate(st, n);
    } else {
      ReadingFor(st);
      ReadLimit(st);
      if n == 0 {
        ReadNone(st);
      } else {
        ReadFifo(st, n);
        ReadTame(st, n);
        HeadAfter(st, n, Committed(FifoOf(st), n));
        AlignedCounted(st, n, Committed(FifoOf(st), n));
      }
    }
  }

  lemma ReadTame(st: State, n: nat)
    requires Aligned(st, CRead(n)) && st.req == Busy && st.bpf > 0 && st.vecsize > 0 && n > 0
    ensures n < st.limit ==> (st.head + n) % Want(st) != Want(st) - 1
  {
  }

  lemma ReadLate(st: State, n: nat)
    requires ControlInv(st) && st.child.Reading? && st.req != Busy && AlignedInv(st)
    ensures AlignedInv(ReadStep(st, n))
  {
    hide RequestInv, WakeInv, FdInv, ReadBuf;
  }

  lemma ReadNone(st: State)
    requires st.child.Reading? && st.req == Busy && Aligned(st, CRead(0)) && st.bpf > 0 && st.vecsize > 0
    ensures AlignedInv(ReadStep(st, 0))
  {
    var st1 := st.(buf := ReadBuf(st, 0));
    MulAtLeast(st.bpf, st.vecsize);
    assert HeadAligned(FifoOf(st1), true);
    assert ReadStep(st, 0) == Lost(st1.(fault := st.fault || st.limit > 0, eof := true));
    hide ReadStep, ReadBuf, AlignedInv, HeadAligned;
    AlignedLost(st1.(fault := st.fault || st.limit > 0), FifoOf(st1));
  }

  lemma AlignedCounted(st: State, n: nat, g: Fifo)
    requires st.child.Reading? && st.req == Busy && 0 < n <= st.limit && !st.eof && ReadBuf(st, n) == g.buf
    requires g.head == (if st.head + n == st.fifosize then 0 else st.head + n)
    requires FifoOf(st.(buf := g.buf, head := g.head, limit := st.limit - n)) == g
    requires g.Vec() > 0 && g.bpf > 0
    requires if n < st.limit then g.head % g.Vec() != g.Vec() - 1 else g.head % g.bpf != g.bpf - 1
    ensures AlignedInv(ReadStep(st, n))
  {
    var st2 := st.(buf := g.buf, head := g.head, limit := st.limit - n);
    assert HeadAligned(g, n == st.limit);
    hide HeadAligned, AlignedInv, ReadStep, FifoOf, ReadBuf;
    if n < st.limit {
      ReadOn(st, n, g.buf, g.head);
      AlignedFed(st2, g);
    } else {
      ReadOut(st, n, g.buf, g.head);
      AlignedLost(st2, g);
    }
  }

  lemma ReadOn(st: State, n: nat, buf: seq<byte>, head: nat)
    requires st.child.Reading? && st.req == Busy && 0 < n < st.limit && ReadBuf(st, n) == buf
    requires head == if st.head + n == st.fifosize then 0 else st.head + n
    ensures ReadStep(st, n) == SignalAnswer(st.(buf := buf, head := head, limit := st.limit - n, child := Feed))
  {
    hide ReadBuf, SignalAnswer, Lost;
  }

  lemma ReadOut(st: State, n: nat, buf: seq<byte>, head: nat)
    requires st.child.Reading? && st.req == Busy && 0 < n == st.limit && ReadBuf(st, n) == buf
    requires head == if st.head + n == st.fifosize then 0 else st.head + n
    ensures ReadStep(st, n) == Lost(st.(buf := buf, head := head, limit := st.limit - n, eof := true))
  {
    hide ReadBuf, SignalAnswer, Lost;
  }

  lemma AlignedFed(st: State, g: Fifo)
    requires FifoOf(st) == g && HeadAligned(g, false) && st.req == Busy && !st.eof
    ensures AlignedInv(SignalAnswer(st.(child := Feed)))
  {
    hide HeadAligned;
    AnswerAligned(st.(child := Feed));
    hide SignalAnswer;
  }

  lemma AlignedLost(st: State, g: Fifo)
    requires FifoOf(st) == g && HeadAligned(g, true) && st.req == Busy
    ensures AlignedInv(Lost(st.(eof := true)))
  {
    hide HeadAligned;
    AnswerAligned(st.(eof := true, req := Nothing, child := Top));
    hide SignalAnswer;
  }

  lemma AnswerAligned(st: State)
    ensures FifoOf(SignalAnswer(st)) == FifoOf(st) && (Playing(SignalAnswer(st)) <==> Playing(st))
    ensures SignalAnswer(st).req == st.req && SignalAnswer(st).eof == st.eof && SignalAnswer(st).child == st.child
  {
  }

  lemma HeadAfter(st: State, n: nat, g: Fifo)
    requires Geometry(g) && 0 < n <= st.limit && st.bpf == g.bpf && st.vecsize == g.vecsize
    requires st.limit - n == |g.src| - g.Got() && g.head == if st.head + n == st.fifosize then 0 else st.head + n
    requires n < st.limit ==> (st.head + n) % Want(st) != Want(st) - 1
    ensures if n < st.limit then g.Vec() > 0 && g.head % g.Vec() != g.Vec() - 1
            else g.bpf > 0 && g.head % g.bpf != g.bpf - 1
    ensures g.Vec() > 0 && g.bpf > 0
  {
    FifoFits(g);
    GeometryBpf(g);
    if n == st.limit {
      EndAligned(g);
      hide Geometry;
    } else {
      hide Geometry, Fifo.Got;
      var w := g.Vec();
      assert w == Want(st);
      hide Want, Fifo.Vec;
      assert 0 % w == 0;
    }
  }

  lemma GeometryBpf(g: Fifo)
    requires Geometry(g)
    ensures g.bpf >= 2
  {
  }

  lemma EndAligned(f: Fifo)
    requires Geometry(f) && f.Got() == |f.src|
    ensures f.head % f.bpf == 0
  {
    hide Multiple, FifoSize;
    FifoFits(f);
    TailInFrames(f);
    MultipleOfMultiple(f.fifosize, f.Vec(), f.bpf);
    MultipleSum(|f.src|, f.base, f.bpf);
    MultipleSum(|f.src| - f.base, f.fifosize, f.bpf);
    MultipleZero(f.head, f.bpf);
  }

  /** Aligned reads keep the head aligned, whatever else happens. */
  lemma AlignedKept(st: State, ev: Event)
    requires ControlInv(st) && StreamInv(st) && Enabled(st, ev) && AlignedInv(st) && Aligned(st, ev)
    ensures AlignedInv(Next(st, ev))
  {
    match ev
    case CRead(n) => AlignedRead(st, n);
    case CReadFailed => AlignedFailed(st);
    case COpened(f) => AlignedOpened(st, f);
    case PPerform => AlignedPerform(st, ev);
    case PResume => AlignedPerform(st, ev);
    case CFeed => AlignedFeed(st);
    case _ => AlignedOther(st, ev);
  }

  /** So a run whose reads are aligned is never one byte short. */
  lemma {:induction false} AlignedRun(run: seq<State>, evs: seq<Event>, i: nat)
    requires Run(run, evs) && i < |run| && forall k: nat :: k < i ==> Aligned(run[k], evs[k])
    ensures TameRun(run, evs, i) && AlignedInv(run[i])
    decreases i
  {
    hide ControlInv, StreamInv, Next, Enabled, Aligned, AlignedInv, Tame;
    if i == 0 {
      NothingYet(run[0]);
    } else {
      var k := i - 1;
      AlignedRun(run, evs, k);
      EveryState(run, evs, k);
      assert Follows(run[k], evs[k], run[k + 1]);
      AlignedTame(run[k], evs[k]);
      AlignedKept(run[k], evs[k]);
    }
  }

  lemma NothingYet(st: State)
    requires Init(st)
    ensures AlignedInv(st)
  {
  }

  // ---------------------------------------------------------------------------------------
  // A failed open and a later one
  // ---------------------------------------------------------------------------------------

  /** At step k an open failed although the parent had asked for something else by then. */
  ghost predicate LateFailure(st: State, ev: Event) {
    ev == COpenFailed && st.req != Busy
  }

  ghost predicate Harmed(run: seq<State>, evs: seq<Event>, i: nat)
    requires |run| == |evs| + 1 && i < |run|
  {
    exists k: nat :: k < i && LateFailure(run[k], evs[k]) && forall j: nat :: k < j < i ==> !evs[j].POpen?
  }

  /** eof stands for another open's failure exactly if such a failure has come since the last open. */
  lemma {:induction false} StaleIff(run: seq<State>, evs: seq<Event>, i: nat)
    requires Run(run, evs) && i < |run|
    ensures run[i].stale <==> Harmed(run, evs, i)
    decreases i
  {
    hide Next, Enabled, Init;
    if i == 0 {
      assert Init(run[0]);
      NotStaleAtFirst(run[0]);
    } else {
      var k: nat := i - 1;
      StaleIff(run, evs, k);
      assert Follows(run[k], evs[k], run[k + 1]);
      StaleStep(run[k], evs[k]);
      HarmedStep(run, evs, k);
      assert run[i] == Next(run[k], evs[k]) && i == k + 1;
    }
  }

  lemma NotStaleAtFirst(st: State)
    requires Init(st)
    ensures !st.stale
  {
  }

  lemma FailedStale(st: State)
    ensures OpenFailedStep(st).stale == (st.stale || st.req != Busy)
    ensures OpenFailedStep(st).out == st.out && OpenFailedStep(st).play == st.play
  {
    LostSame(st.(eof := true, fault := st.fault || st.req == Busy, stale := st.stale || st.req != Busy));
    hide Lost;
  }

  lemma PerformStale(st: State)
    requires st.bpf > 0
    ensures PerformStep(st).stale == st.stale
  {
    hide Slice, Starved, Want;
  }

  lemma OrdinaryStale(st: State, ev: Event)
    requires Enabled(st, ev) && !ChildStep(ev) && !ev.CScribble? && !ev.CSpurious? && ev != PPerform && ev != PResume
    ensures Next(st, ev).stale == if ev.POpen? then false else st.stale
  {
  }

  lemma ParentStale(st: State, ev: Event)
    requires Enabled(st, ev) && !ChildStep(ev) && !ev.CScribble? && !ev.CSpurious?
    ensures Next(st, ev).stale == if ev.POpen? then false else st.stale
  {
    hide Slice, Starved, FinishStep, DeliverStep, SignalRequest;
    if ev == PPerform || ev == PResume {
      PerformStale(st);
    } else {
      OrdinaryStale(st, ev);
      hide Next, Enabled;
    }
  }

  lemma StaleStep(st: State, ev: Event)
    requires Enabled(st, ev)
    ensures Next(st, ev).stale <==> !ev.POpen? && (st.stale || LateFailure(st, ev))
  {
    if ev == COpenFailed {
      FailedStale(st);
    } else if ChildStep(ev) || ev.CScribble? || ev.CSpurious? {
      ChildSame(st, ev);
      hide Next, Enabled;
    } else {
      ParentStale(st, ev);
      hide Next, Enabled;
    }
  }

  /** What the child's steps leave alone. */
  predicate SameHistory(a: State, b: State) {
    a.stale == b.stale && a.out == b.out && a.play == b.play
  }

  lemma LostSame(st: State)
    ensures SameHistory(Lost(st), st)
  {
  }

  lemma CountSame(st: State, n: nat)
    ensures SameHistory(CountStep(st, n), st)
  {
    hide Lost;
    LostSame(st);
    LostSame(st.(eof := true, fault := st.fault || st.limit > 0));
    var head1 := st.head + n;
    LostSame(st.(head := if head1 == st.fifosize then 0 else head1, limit := st.limit - n, eof := true));
  }

  lemma OpenedSame(st: State, f: File)
    requires f.bpf > 0 && st.vecsize > 0
    ensures SameHistory(OpenedStep(st, f), st)
  {
    hide Lost, FifoSize;
    LostSame(st.(fd := st.nextfd, nextfd := st.nextfd + 1, bpf := f.bpf, limit := |f.data|));
  }

  lemma ChildSame(st: State, ev: Event)
    requires Enabled(st, ev) && ev != COpenFailed && (ChildStep(ev) || ev.CScribble? || ev.CSpurious?)
    ensures SameHistory(Next(st, ev), st)
  {
    if ev.CRead? {
      CountSame(st.(buf := ReadBuf(st, ev.n)), ev.n);
      hide CountStep, ReadBuf;
    } else if ev.COpened? {
      OpenedSame(st, ev.f);
      hide OpenedStep;
    } else if ev.CFeed? || ev.CReadFailed? || ev.CClosedOld? {
      LostSame(st);
      LostSame(st.(fault := true));
      ClosedOldSame(st);
      hide Lost, WantRead, ClosedOldStep;
    } else {
      RestSame(st, ev);
      hide Next, Enabled;
    }
  }

  lemma ClosedOldSame(st: State)
    ensures SameHistory(ClosedOldStep(st), st)
  {
    LostSame(CloseFd(st));
    hide Lost;
  }

  lemma RestSame(st: State, ev: Event)
    requires Enabled(st, ev) && (ev.CTop? || ev.CWake? || ev.CClosedLost? || ev.CClosedClose? || ev.CClosedQuit?
                                 || ev.CScribble? || ev.CSpurious?)
    ensures SameHistory(Next(st, ev), st)
  {
    hide SignalRequest, TopStep;
    if ev.CTop? {
      TopSame(st);
    } else if ev.CSpurious? {
      RequestSame(st);
    } else if ev.CWake? || ev.CScribble? {
      PlainSame(st, ev);
      hide Next;
    } else {
      ClosedSame(st, ev);
      hide Next;
    }
  }

  lemma RequestSame(st: State)
    ensures SameHistory(SignalRequest(st), st)
  {
  }

  lemma AnswerSame(st: State)
    ensures SameHistory(SignalAnswer(st), st)
  {
  }

  lemma PlainSame(st: State, ev: Event)
    requires Enabled(st, ev) && (ev.CWake? || ev.CScribble?)
    ensures SameHistory(Next(st, ev), st)
  {
    hide Blit;
  }

  lemma ClosedSame(st: State, ev: Event)
    requires Enabled(st, ev) && (ev.CClosedLost? || ev.CClosedClose? || ev.CClosedQuit?)
    ensures SameHistory(Next(st, ev), st)
  {
    hide SignalAnswer;
    AnswerSame(CloseFd(st).(child := Top));
    AnswerSame(CloseFd(st).(req := Nothing, settled := true, child := Top));
    AnswerSame(CloseFd(st).(req := Nothing, settled := true, child := Exited));
  }

  lemma TopSame(st: State)
    ensures SameHistory(TopStep(st), st)
  {
    hide SignalAnswer;
    AnswerSame(st);
    AnswerSame(st.(req := Nothing, settled := true, child := Top));
    AnswerSame(st.(req := Nothing, settled := true, child := Exited));
  }

  lemma HarmedStep(run: seq<State>, evs: seq<Event>, k: nat)
    requires |run| == |evs| + 1 && k < |evs|
    ensures Harmed(run, evs, k + 1) <==> LateFailure(run[k], evs[k]) || (Harmed(run, evs, k) && !evs[k].POpen?)
  {
    hide LateFailure;
    if Harmed(run, evs, k) && !evs[k].POpen? {
      var m: nat :| m < k && LateFailure(run[m], evs[m]) && forall j: nat :: m < j < k ==> !evs[j].POpen?;
      assert forall j: nat :: m < j < k + 1 ==> !evs[j].POpen?;
    }
  }

  /** A finished stream whose own opening and reading went well is the whole file, or nothing at all; it is
    nothing exactly if an earlier open failed after the later one had been asked for -- or the file is empty. */
  lemma LaterOpenIff(run: seq<State>, evs: seq<Event>, i: nat)
    requires Run(run, evs) && i < |run| && TameRun(run, evs, i) && run[i].bangs == 1 && !run[i].fault
    ensures Harmed(run, evs, i) ==> run[i].out == []
    ensures !Harmed(run, evs, i) ==> run[i].out == run[i].src
  {
    hide Run, Harmed, TameRun;
    StreamFidelity(run, evs, i);
    StaleIff(run, evs, i);
  }

  /** The shortest such run: two opens, of which the first fails; the second's stream ends at once. */
  lemma StaleRun(st: State) returns (run: seq<State>, evs: seq<Event>)
    requires Init(st)
    ensures |run| == 7 && |evs| == 6 && run[0] == st
    ensures evs[0] == POpen(2) && evs[1] == CTop && evs[2] == POpen(2) && evs[3] == COpenFailed
    ensures evs[4] == PStart && evs[5] == PPerform
    ensures run[6].bangs == 1 && run[6].out == [] && run[6].req == Open && run[6].child == Top
    ensures Run(run, evs) && Harmed(run, evs, 6)
  {
    RunStarts(st);
    var st1, st2, st3, st4, st5, st6 := StaleSteps(st);
    hide Init, Run, Follows, LateFailure, Harmed;
    run, evs := [st], [];
    run, evs := RunSteps(run, evs, POpen(2), st1, CTop, st2, POpen(2), st3);
    run, evs := RunSteps(run, evs, COpenFailed, st4, PStart, st5, PPerform, st6);
    HarmedAt(run, evs, 3);
  }

  lemma HarmedAt(run: seq<State>, evs: seq<Event>, k: nat)
    requires |run| == |evs| + 1 && k < |evs| && LateFailure(run[k], evs[k])
    requires forall j: nat :: k < j < |evs| ==> !evs[j].POpen?
    ensures Harmed(run, evs, |evs|)
  {
  }

  lemma TakenUp(st: State, st2: State)
    requires Init(st) && st2 == TopStep(OpenStep(st, 2))
    ensures Follows(st, POpen(2), OpenStep(st, 2)) && Follows(OpenStep(st, 2), CTop, st2)
    ensures st2.child == Opening && st2.fd == -1 && st2.parent == Running && st2.vecsize > 0
  {
  }

  lemma Overtaken(st2: State)
    requires st2.child == Opening && st2.fd == -1 && st2.parent == Running && st2.vecsize > 0
    ensures var st3 := OpenStep(st2, 2);
      var st4 := OpenFailedStep(st3);
      var st5 := st4.(play := Streaming);
      && Follows(st2, POpen(2), st3) && Follows(st3, COpenFailed, st4) && LateFailure(st3, COpenFailed)
      && Follows(st4, PStart, st5) && Enabled(st5, PPerform) && st5.eof && st5.parent == Running && st5.bangs == 0
      && st5.out == [] && st5.head == 0 && st5.tail == 0 && st5.vecsize > 0 && st5.bpf == 2
      && st5.req == Open && st5.child == Top && st5.play == Streaming
  {
  }

  lemma StaleSteps(st: State) returns (st1: State, st2: State, st3: State, st4: State, st5: State, st6: State)
    requires Init(st)
    ensures Follows(st, POpen(2), st1) && Follows(st1, CTop, st2) && Follows(st2, POpen(2), st3)
    ensures Follows(st3, COpenFailed, st4) && Follows(st4, PStart, st5) && Follows(st5, PPerform, st6)
    ensures LateFailure(st3, COpenFailed) && st6.bangs == 1 && st6.out == [] && st6.req == Open && st6.child == Top
  {
    st1, st2 := OpenStep(st, 2), TopStep(OpenStep(st, 2));
    TakenUp(st, st2);
    hide Init;
    st3, st4 := OpenStep(st2, 2), OpenFailedStep(OpenStep(st2, 2));
    st5 := st4.(play := Streaming);
    Overtaken(st2);
    hide TopStep, OpenStep, OpenFailedStep;
    NothingPlays(st5);
    st6 := PerformStep(st5);
    hide PerformStep;
  }

  lemma NothingPlays(st: State)
    requires st.eof && st.play == Streaming && st.parent == Running && st.bangs == 0 && st.out == []
    requires st.head == 0 && st.tail == 0 && st.vecsize > 0 && st.bpf >= 2
    ensures PerformStep(st) == st.(play := Idle, bangs := 1)
  {
    MulAtLeast(st.bpf, st.vecsize);
    DivIs(1, st.bpf, 0, 1);
  }

  // ---------------------------------------------------------------------------------------
  // What is heard
  // ---------------------------------------------------------------------------------------

  /** The bytes that become samples, and the samples set to zero, a byte's worth each. */
  datatype Heard = Byte(b: byte) | Zero

  function Sounds(bytes: seq<byte>): (r: seq<Heard>)
    ensures |r| == |bytes|
  {
    seq(|bytes|, i requires 0 <= i < |bytes| => Byte(bytes[i]))
  }

  function Zeros(n: nat): (r: seq<Heard>)
    ensures |r| == n
  {
    seq(n, _ => Zero)
  }

  /** What one call of readsf_perform puts out, if it does not wait. */
  ghost function Output(st: State): seq<Heard> {
    if st.play != Streaming || st.bpf == 0 then Zeros(Want(st))
    else if Starved(st) then
      var n := (st.head - st.tail + 1) / st.bpf * st.bpf;
      Sounds(Slice(st.buf, st.tail, n)) + Zeros(if n <= Want(st) then Want(st) - n else 0)
    else Sounds(Slice(st.buf, st.tail, Want(st)))
  }

  ghost predicate Plays(st: State, ev: Event) {
    ev == PIdle || ((ev == PPerform || ev == PResume) && (st.eof || !Starved(st)))
  }

  /** All that has been put out since the last start. */
  ghost function AllHeard(run: seq<State>, evs: seq<Event>, i: nat): seq<Heard>
    requires |run| == |evs| + 1 && i < |run|
    decreases i
  {
    if i == 0 || evs[i - 1].POpen? || evs[i - 1].PStart? then []
    else AllHeard(run, evs, i - 1) + if Plays(run[i - 1], evs[i - 1]) then Output(run[i - 1]) else []
  }

  /** Sound comes first and only zeros after it: while streaming, nothing but the bytes delivered. */
  ghost predicate ThenZeros(st: State, heard: seq<Heard>) {
    exists z: nat :: heard == Sounds(st.out) + Zeros(z) && (st.play == Streaming ==> z == 0)
  }

  lemma {:induction false} ZerosFollow(run: seq<State>, evs: seq<Event>, i: nat)
    requires Run(run, evs) && i < |run|
    ensures run[i].play == Startup ==> run[i].out == []
    ensures ThenZeros(run[i], AllHeard(run, evs, i))
    decreases i
  {
    hide Next, Enabled, Output, ThenZeros, Init;
    if i == 0 {
      assert Init(run[0]);
      SilentAtFirst(run[0]);
    } else {
      var k: nat := i - 1;
      ZerosFollow(run, evs, k);
      assert Follows(run[k], evs[k], run[k + 1]);
      EveryState(run, evs, k);
      ResumeStreams(run[k], evs[k]);
      HeardStep(run[k], evs[k], AllHeard(run, evs, k));
    }
  }

  lemma SilentAtFirst(st: State)
    requires Init(st)
    ensures st.play != Startup && ThenZeros(st, [])
  {
    assert [] == Sounds(st.out) + Zeros(0);
  }

  lemma HeardStep(st: State, ev: Event, heard: seq<Heard>)
    requires Enabled(st, ev) && (st.play == Startup ==> st.out == []) && (ev == PResume ==> st.play == Streaming)
    requires ThenZeros(st, heard)
    ensures var st1 := Next(st, ev);
      && (st1.play == Startup ==> st1.out == [])
      && ThenZeros(st1, if ev.POpen? || ev.PStart? then [] else heard + if Plays(st, ev) then Output(st) else [])
  {
    assert heard + [] == heard;
    hide Next, Enabled, Output, ThenZeros, Starved;
    if ev == PPerform || ev == PResume {
      PerformHeard(st, ev, heard);
    } else if ev == PIdle {
      IdleSame(st);
      IdleHeard(st, heard);
    } else {
      SilentStep(st, ev);
      ThenZerosSame(st, Next(st, ev), heard);
      if ev == PStart || ev.POpen? { SilentStart(Next(st, ev)); }
    }
  }

  lemma IdleSame(st: State)
    requires Enabled(st, PIdle)
    ensures Next(st, PIdle) == st && st.play != Streaming
  {
  }

  lemma SilentStart(st: State)
    requires st.out == []
    ensures ThenZeros(st, [])
  {
    assert [] == Sounds([]) + Zeros(0);
  }

  lemma ThenZerosSame(st: State, st1: State, heard: seq<Heard>)
    requires ThenZeros(st, heard)
    ensures st1.out == st.out && (st1.play == st.play || st1.play == Idle) ==> ThenZeros(st1, heard)
  {
  }

  lemma ResumeStreams(st: State, ev: Event)
    requires ControlInv(st) && Enabled(st, ev)
    ensures ev == PResume ==> st.play == Streaming
  {
    hide FdInv;
  }

  lemma IdleHeard(st: State, heard: seq<Heard>)
    requires st.play != Streaming && ThenZeros(st, heard)
    ensures ThenZeros(st, heard + Output(st))
  {
    var z: nat :| heard == Sounds(st.out) + Zeros(z);
    assert heard + Output(st) == Sounds(st.out) + Zeros(z + Want(st));
  }

  lemma PerformHeard(st: State, ev: Event, heard: seq<Heard>)
    requires Enabled(st, ev) && (ev == PPerform || ev == PResume) && st.play == Streaming && ThenZeros(st, heard)
    ensures Next(st, ev).play != Startup
    ensures ThenZeros(Next(st, ev), heard + if Plays(st, ev) then Output(st) else [])
  {
    assert st.bpf > 0 && Next(st, ev) == PerformStep(st);
    hide Next, Enabled, Slice, Output, DeliverStep, FinishStep, SignalRequest, Starved;
    assert heard == Sounds(st.out) by { assert heard == Sounds(st.out) + Zeros(0); }
    assert heard + [] == heard;
    hide ThenZeros;
    if !st.eof && Starved(st) {
      WaitHeard(st);
    } else if Starved(st) {
      LastHeard(st);
    } else {
      VectorHeard(st);
    }
  }

  lemma WaitHeard(st: State)
    ensures var st1 := SignalRequest(st).(parent := WaitData(false));
            st1.play == st.play && ThenZeros(st1, Sounds(st.out))
  {
    assert Sounds(st.out) == Sounds(st.out) + Zeros(0);
  }

  lemma LastHeard(st: State)
    requires st.play == Streaming && st.bpf > 0 && Starved(st)
    ensures FinishStep(st).play == Idle && ThenZeros(FinishStep(st), Sounds(st.out) + Output(st))
  {
    hide Starved;
    var n := (st.head - st.tail + 1) / st.bpf * st.bpf;
    var part := Slice(st.buf, st.tail, n);
    var z := if n <= Want(st) then Want(st) - n else 0;
    hide Slice, Want;
    assert Sounds(st.out) + (Sounds(part) + Zeros(z)) == Sounds(st.out + part) + Zeros(z);
  }

  lemma VectorHeard(st: State)
    requires st.play == Streaming && st.bpf > 0 && !Starved(st)
    ensures DeliverStep(st).play == Streaming && ThenZeros(DeliverStep(st), Sounds(st.out) + Output(st))
  {
    hide Starved, Slice, Want;
    var part := Slice(st.buf, st.tail, Want(st));
    assert Sounds(st.out) + Sounds(part) == Sounds(st.out + part) + Zeros(0);
  }

  lemma SilentStep(st: State, ev: Event)
    requires Enabled(st, ev) && !(ev == PPerform || ev == PResume || ev == PIdle)
    ensures var st1 := Next(st, ev);
      && (ev.POpen? ==> st1.play == Startup && st1.out == [])
      && (ev.PStart? ==> st.play == Startup && st1.play == Streaming && st1.out == st.out)
      && (!ev.POpen? && !ev.PStart? ==> st1.out == st.out && (st1.play == st.play || st1.play == Idle))
  {
    if ev == COpenFailed {
      FailedStale(st);
      hide OpenFailedStep;
    } else if ChildStep(ev) || ev.CScribble? || ev.CSpurious? {
      ChildSame(st, ev);
      hide Next, Enabled;
    }
  }

  /** Once the stream has been played to its end, the file has been heard, whole, and then nothing but zeros. */
  lemma WholeThenZeros(run: seq<State>, evs: seq<Event>, i: nat) returns (z: nat)
    requires Run(run, evs) && i < |run| && TameRun(run, evs, i)
    requires run[i].bangs == 1 && !run[i].fault && !run[i].stale
    ensures AllHeard(run, evs, i) == Sounds(run[i].src) + Zeros(z)
  {
    assert |run| == |evs| + 1;
    hide Run, TameRun, AllHeard;
    StreamFidelity(run, evs, i);
    ZerosFollow(run, evs, i);
    EveryState(run, evs, i);
    BangedIdle(run[i]);
    z :| AllHeard(run, evs, i) == Sounds(run[i].out) + Zeros(z);
  }

  lemma BangedIdle(st: State)
    requires ControlInv(st) && st.bangs == 1
    ensures st.play == Idle
  {
    hide FdInv;
  }

  // ---------------------------------------------------------------------------------------
  // How soon a waiting thread is answered
  // ---------------------------------------------------------------------------------------

  /** How many of the steps are the child's own. */
  ghost function ChildSteps(evs: seq<Event>, i: nat): nat
    requires i <= |evs|
  {
    if i == 0 then 0 else ChildSteps(evs, i - 1) + if ChildStep(evs[i - 1]) then 1 else 0
  }

  ghost predicate Segment(run: seq<State>, evs: seq<Event>) {
    && |run| == |evs| + 1
    && forall i :: 0 <= i < |evs| ==> Follows(run[i], evs[i], run[i + 1])
  }

  /** However the steps interleave, the child answers a waiting parent within seven steps of its own: as long
    as the parent waits the child has taken no more than its rank at the beginning. */
  lemma {:induction false} AnsweredSoon(run: seq<State>, evs: seq<Event>, i: nat)
    requires Segment(run, evs) && i < |run| && ControlInv(run[0])
    requires forall k: nat :: k <= i ==> ParentWaits(run[k])
    ensures ControlInv(run[i]) && ChildSteps(evs, i) + Rank(run[i].child) <= Rank(run[0].child) <= 7
    decreases i
  {
    hide ControlInv, Next, Enabled, ChildStep, ParentWaits;
    if i > 0 {
      var k := i - 1;
      AnsweredSoon(run, evs, k);
      assert Follows(run[k], evs[k], run[k + 1]);
      assert ParentWaits(run[k]) && ParentWaits(run[k + 1]);
      ControlKept(run[k], evs[k]);
      if ChildStep(evs[k]) { ChildAnswers(run[k], evs[k]); } else { OthersKeepRank(run[k], evs[k]); }
    }
  }

  lemma OthersKeepRank(st: State, ev: Event)
    requires ParentWaits(st) && Enabled(st, ev) && !ChildStep(ev)
    ensures Rank(Next(st, ev).child) == Rank(st.child)
  {
  }

  /** However the steps interleave, the child is gone within six steps of its own after a quit request. */
  lemma {:induction false} GoneSoon(run: seq<State>, evs: seq<Event>, i: nat)
    requires Segment(run, evs) && i < |run| && ControlInv(run[0]) && run[0].req == Quit
    ensures ControlInv(run[i])
    ensures if run[i].child == Exited then run[i].req == Nothing && run[i].fd == -1
            else run[i].req == Quit && ChildSteps(evs, i) + QuitRank(run[i].child) <= QuitRank(run[0].child) <= 6
    decreases i
  {
    hide ControlInv, Next, Enabled, ChildStep;
    if i == 0 {
      NotGone(run[0]);
    } else {
      var k := i - 1;
      GoneSoon(run, evs, k);
      assert Follows(run[k], evs[k], run[k + 1]);
      ControlKept(run[k], evs[k]);
      if run[k].child == Exited {
        GoneForGood(run[k], evs[k]);
      } else if ChildStep(evs[k]) {
        QuitEnds(run[k], evs[k]);
        QuitStands(run[k], evs[k]);
      } else {
        QuitKept(run[k], evs[k]);
      }
    }
  }

  lemma NotGone(st: State)
    requires ControlInv(st) && st.req == Quit
    ensures st.child != Exited
  {
    hide FdInv;
  }

  lemma GoneForGood(st: State, ev: Event)
    requires ControlInv(st) && st.child == Exited && Enabled(st, ev)
    ensures Next(st, ev).child == Exited && Next(st, ev).req == Nothing && Next(st, ev).fd == -1
  {
    hide FdInv;
    FdTop(st);
    FdLow(st);
  }

  lemma FdLow(st: State)
    requires FdInv(st)
    ensures st.fd >= -1
  {
  }

  lemma QuitStands(st: State, ev: Event)
    requires ControlInv(st) && st.req == Quit && ChildStep(ev) && Enabled(st, ev)
    ensures Next(st, ev).child != Exited ==> Next(st, ev).req == Quit
    ensures Next(st, ev).child == Exited ==> Next(st, ev).fd == -1
  {
    hide FdInv, FifoSize, ReadBuf, WantRead;
    FdTop(st);
    FdLow(st);
  }

  lemma QuitKept(st: State, ev: Event)
    requires ControlInv(st) && st.req == Quit && !ChildStep(ev) && Enabled(st, ev)
    ensures Next(st, ev).req == Quit && QuitRank(Next(st, ev).child) == QuitRank(st.child)
  {
    hide FdInv;
  }
}
