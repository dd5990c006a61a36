/** What every run of readsf~ keeps: the stream is delivered in order, requests are not lost,
  files are closed once, and the two threads never both wait. */
module ReadsfProof {
  import opened Arith
  import opened Readsf

  // ---------------------------------------------------------------------------------------
  // Requests, files, waiting
  // ---------------------------------------------------------------------------------------

  /** The parent's latest request is pending until the child has taken it. */
  ghost predicate RequestInv(st: State) {
    && (st.settled <==> st.req == Nothing || st.req == Busy)
    && (!st.settled ==> st.req == st.posted)
  }

  ghost predicate Serving(st: State) {
    st.child == ClosingOld || st.child == Opening || st.child == Feed || st.child.WaitFeed? || st.child.Reading?
  }

  /** A file is open just while the child has it in use. */
  ghost predicate FdInv(st: State) {
    && -1 <= st.fd < st.nextfd
    && (st.fd >= 0 <==> st.child == Feed || st.child.WaitFeed? || st.child.Reading? || st.child == ClosingLost)
    && st.child != ClosingOld && st.child != ClosingClose && st.child != ClosingQuit
    && (forall k :: k in st.closed ==> 0 <= k < st.nextfd)
    && (forall k: int :: 0 <= k < st.nextfd ==> multiset(st.closed)[k] == if k == st.fd then 0 else 1)
  }

  ghost predicate PhaseInv(st: State) {
    && (st.req == Busy ==> Serving(st) && (st.parent == Running || st.parent.WaitData?))
    && (Serving(st) ==> st.req != Nothing)
    && (st.req == Quit ==> st.parent.WaitQuit?)
    && (st.parent.WaitQuit? ==> st.req == Quit || (st.req == Nothing && st.child == Exited))
    && (st.child == Exited ==> st.req == Nothing && (st.parent.WaitQuit? || st.parent == Freed))
    && (st.parent == Freed ==> st.child == Exited)
    && (st.req == Close ==> st.play == Idle)
    && (st.parent.WaitData? ==> st.play == Streaming)
    && (st.play != Idle ==> st.bangs == 0)
    && st.bangs <= 1
    && st.bpf >= 2
  }

  /** A waiting thread that has not been woken has nothing to do, or the other one is awake. */
  ghost predicate WakeInv(st: State) {
    && (st.child == WaitTop(false) ==> st.req == Nothing)
    && (st.child == WaitFeed(false) ==> st.req == Busy)
    && !((st.child == WaitTop(false) || st.child == WaitFeed(false))
        && (st.parent == WaitData(false) || st.parent == WaitQuit(false)))
  }

  // ---------------------------------------------------------------------------------------
  // The fifo
  // ---------------------------------------------------------------------------------------

  /** The part of the state that the stream of bytes depends on. */
  datatype Fifo = Fifo(buf: seq<byte>, vecsize: nat, bpf: nat, fifosize: nat, head: nat, tail: nat,
                       src: seq<byte>, base: nat, out: seq<byte>)
  {
    function Vec(): nat { vecsize * bpf }

    /** Bytes of the file read so far, and bytes delivered so far. */
    function Got(): int { base + (if head >= tail then head else fifosize + head) }

    function Taken(): int { base + tail }

    /** The end of the run of undelivered bytes that starts at the tail. */
    function RunEnd(): int { if head >= tail then head else fifosize }

    predicate Short() { head >= tail && head < tail + Vec() - 1 }
  }

  ghost function FifoOf(st: State): Fifo {
    Fifo(st.buf, st.vecsize, st.bpf, st.fifosize, st.head, st.tail, st.src, st.base, st.out)
  }

  ghost predicate Playing(st: State) {
    st.play != Idle && (st.parent == Running || st.parent.WaitData?)
  }

  ghost predicate Sized(bufsize: nat, vecsize: nat) {
    bufsize >= MINBUFSIZE && vecsize > 0 && MAXVECSIZE % vecsize == 0
  }

  ghost predicate Geometry(f: Fifo) {
    && Sized(|f.buf|, f.vecsize) && 2 <= f.bpf && f.bpf * MAXVECSIZE <= READSIZE
    && f.fifosize == FifoSize(|f.buf|, f.bpf) && f.Vec() > 0
    && f.head < f.fifosize && f.tail < f.fifosize
    && Multiple(f.tail, f.Vec()) && Multiple(f.base, f.Vec())
    && f.Got() <= |f.src| && Multiple(|f.src|, f.bpf)
  }

  /** Two stretches of bytes agree. */
  ghost predicate Holds(buf: seq<byte>, lo: int, hi: int, src: seq<byte>, offset: int) {
    0 <= lo && hi <= |buf| && 0 <= lo + offset && hi + offset <= |src|
    && forall i {:trigger buf[i]} :: lo <= i < hi ==> buf[i] == src[i + offset]
  }

  /** What has been delivered is the file so far, and what waits in the fifo is what comes next. */
  ghost predicate Content(f: Fifo) {
    && f.Taken() <= |f.src| && f.out == f.src[..f.Taken()]
    && Holds(f.buf, f.tail, f.RunEnd(), f.src, f.base)
    && (f.head < f.tail ==> Holds(f.buf, 0, f.head, f.src, f.base + f.fifosize))
  }

  /** Nothing has been read or delivered since the last open. */
  ghost predicate Fresh(f: Fifo) {
    f.head == 0 && f.tail == 0 && f.base == 0 && f.out == []
  }

  /** A read of want bytes at the head stays clear of bytes not yet delivered. */
  ghost predicate ReadClear(f: Fifo, at: nat, want: nat) {
    && at == f.head && f.head + want <= f.fifosize
    && (f.head < f.tail ==> f.head + want < f.tail)
    && (f.head >= f.tail && f.head + want == f.fifosize ==> f.tail != 0)
  }

  /** The child is feeding the fifo from an open file. */
  ghost predicate Busily(f: Fifo, eof: bool, stale: bool, limit: int, child: Child) {
    && Geometry(f) && Content(f) && limit == |f.src| - f.Got()
    && (child.Reading? ==> ReadClear(f, child.at, child.want) && child.want <= limit)
    && (eof ==> child == Feed && stale)
  }

  /** What is left of a stream that the child has given up. */
  ghost predicate Leftover(f: Fifo, eof: bool, fault: bool, stale: bool) {
    && eof && (Fresh(f) || (Geometry(f) && Content(f)))
    && (fault || stale || (Geometry(f) && Content(f) && f.Got() == |f.src|))
  }

  ghost predicate PlayInv(st: State) {
    match st.req
    case Open => Fresh(FifoOf(st)) && (st.eof ==> st.stale)
    case Busy =>
      if st.child == ClosingOld || st.child == Opening then Fresh(FifoOf(st)) && (st.eof ==> st.stale)
      else Busily(FifoOf(st), st.eof, st.stale, st.limit, st.child)
    case Nothing => Leftover(FifoOf(st), st.eof, st.fault, st.stale)
    case _ => false
  }

  ghost predicate StreamInv(st: State) {
    && Sized(|st.buf|, st.vecsize)
    && (st.child.Reading? ==> st.child.at + st.child.want <= |st.buf|)
    && ((st.req == Open || st.req == Busy) && !st.eof ==> st.play != Idle)
    && (st.req == Busy && (st.child.Reading? || st.child.WaitFeed?) ==> !st.eof)
    && (Playing(st) ==> PlayInv(st))
    && (Playing(st) && st.stale ==> st.eof && Fresh(FifoOf(st)))
    && (st.bangs == 1 && !st.fault && !st.stale ==> st.out == st.src)
    && (st.bangs == 1 && st.stale ==> st.out == [])
    && (st.bangs == 1 ==> st.out <= st.src)
    && (st.bangs == 1 && (Serving(st) || st.req == Open || st.req == Busy) ==> st.stale)
  }

  ghost predicate Inv(st: State) {
    ControlInv(st) && StreamInv(st)
  }

  /** One byte less than a vector has been read: what the guard of readsf_perform lets through. */
  predicate ShortVector(st: State) {
    st.head == st.tail + Want(st) - 1
  }

  /** At the end of the stream, one byte less than a whole frame. */
  predicate ShortFrame(st: State) {
    st.eof && Starved(st) && st.bpf > 0 && (st.head - st.tail) % st.bpf == st.bpf - 1
  }

  /** What is asked of a run: the audio thread never finds the fifo just one byte short. */
  ghost predicate Tame(st: State, ev: Event) {
    ev == PPerform || ev == PResume ==> !ShortVector(st) && !ShortFrame(st)
  }

  // ---------------------------------------------------------------------------------------
  // Requests, files and waiting are kept
  // ---------------------------------------------------------------------------------------

  lemma InitHolds(st: State)
    requires Init(st)
    ensures Inv(st)
  {
  }

  lemma CloseCounts(st: State)
    requires FdInv(st) && st.fd >= 0
    ensures forall k: int :: 0 <= k < st.nextfd ==> multiset(CloseFd(st).closed)[k] == 1
    ensures forall k :: k in CloseFd(st).closed ==> 0 <= k < st.nextfd
  {
    assert multiset(st.closed + [st.fd]) == multiset(st.closed) + multiset{st.fd};
  }

  ghost predicate ControlInv(st: State) {
    RequestInv(st) && FdInv(st) && PhaseInv(st) && WakeInv(st)
  }

  /** Steps that leave the file descriptor and the record of closed ones alone. */
  lemma FdSame(st: State, st': State)
    requires FdInv(st) && st'.fd == st.fd && st'.closed == st.closed && st'.nextfd == st.nextfd
    requires st'.child != ClosingOld && st'.child != ClosingClose && st'.child != ClosingQuit
    requires st.fd >= 0 <==>
               st'.child == Feed || st'.child.WaitFeed? || st'.child.Reading? || st'.child == ClosingLost
    ensures FdInv(st')
  {
  }

  lemma FdClosed(st: State, st': State)
    requires FdInv(st) && st.fd >= 0 && st'.fd == -1 && st'.closed == CloseFd(st).closed && st'.nextfd == st.nextfd
    requires st'.child != ClosingOld && st'.child != ClosingClose && st'.child != ClosingQuit
    requires !(st'.child == Feed || st'.child.WaitFeed? || st'.child.Reading? || st'.child == ClosingLost)
    ensures FdInv(st')
  {
    CloseCounts(st);
  }

  lemma FdOpened(st: State, st': State)
    requires FdInv(st) && st.fd == -1 && st'.fd == st.nextfd && st'.closed == st.closed && st'.nextfd == st.nextfd + 1
    requires st'.child == Feed || st'.child.WaitFeed? || st'.child.Reading? || st'.child == ClosingLost
    ensures FdInv(st')
  {
    assert st.nextfd !in st.closed;
  }

  lemma RequestControl(st: State)
    requires ControlInv(st)
    ensures ControlInv(SignalRequest(st))
  {
    hide FdInv;
    FdTop(st);
    FdSame(st, SignalRequest(st));
  }

  lemma AnswerControl(st: State)
    requires ControlInv(st)
    ensures ControlInv(SignalAnswer(st))
  {
    hide FdInv;
    FdTop(st);
    FdSame(st, SignalAnswer(st));
  }

  lemma OpenControl(st: State, b: nat)
    requires ControlInv(st) && st.parent == Running && b >= 2
    ensures ControlInv(OpenStep(st, b))
  {
    hide FdInv;
    FdTop(st);
    FdSame(st, OpenStep(st, b));
  }

  lemma StopControl(st: State)
    requires ControlInv(st) && st.parent == Running
    ensures ControlInv(StopStep(st))
  {
    hide FdInv;
    FdTop(st);
    FdSame(st, StopStep(st));
  }

  lemma FreeControl(st: State)
    requires ControlInv(st) && st.parent == Running
    ensures ControlInv(FreeStep(st))
  {
    hide FdInv;
    FdTop(st);
    FdSame(st, FreeStep(st));
  }

  lemma PostControl(st: State, ev: Event)
    requires ControlInv(st) && Enabled(st, ev) && (ev.POpen? || ev.PStop? || ev.PFree?)
    ensures ControlInv(Next(st, ev))
  {
    hide ControlInv, OpenStep, StopStep, FreeStep;
    match ev
    case POpen(b) => OpenControl(st, b);
    case PStop => StopControl(st);
    case PFree => FreeControl(st);
  }

  lemma ResumeControl(st: State, ev: Event)
    requires ControlInv(st) && Enabled(st, ev) && (ev.PStart? || ev.PResumeFree?)
    ensures ControlInv(Next(st, ev))
  {
    hide FdInv;
    FdTop(st);
    FdSame(st, Next(st, ev));
  }

  lemma SpuriousControl(st: State, ev: Event)
    requires ControlInv(st) && Enabled(st, ev) && (ev.PSpurious? || ev.CSpurious?)
    ensures ControlInv(Next(st, ev))
  {
    hide ControlInv, SignalRequest, SignalAnswer;
    if ev.PSpurious? { AnswerControl(st); } else { RequestControl(st); }
  }

  lemma WaitControl(st: State)
    requires ControlInv(st) && st.play == Streaming && (st.parent == Running || st.parent == WaitData(true))
    ensures ControlInv(SignalRequest(st).(parent := WaitData(false)))
  {
    hide FdInv;
    FdTop(st);
    FdSame(st, SignalRequest(st).(parent := WaitData(false)));
  }

  lemma FinishControl(st: State)
    requires ControlInv(st) && st.play == Streaming && (st.parent == Running || st.parent == WaitData(true))
    ensures ControlInv(FinishStep(st))
  {
    hide FdInv, Slice;
    FdTop(st);
    FdSame(st, FinishStep(st));
  }

  /** The parent goes on; nothing else that control depends on has changed. */
  lemma RunsOn(st: State, st1: State)
    requires ControlInv(st) && (st.parent == Running || st.parent == WaitData(true))
    requires st1 == st.(parent := Running, out := st1.out, tail := st1.tail, base := st1.base,
        sigcountdown := st1.sigcountdown)
    ensures ControlInv(st1)
  {
    hide FdInv;
    FdTop(st);
    FdSame(st, st1);
  }

  lemma DeliverControl(st: State)
    requires ControlInv(st) && st.play == Streaming && (st.parent == Running || st.parent == WaitData(true))
    ensures ControlInv(DeliverStep(st))
  {
    hide ControlInv, Slice, SignalRequest;
    var wrap := st.tail + Want(st) >= st.fifosize;
    var st1 := st.(parent := Running, out := st.out + Slice(st.buf, st.tail, Want(st)),
                   tail := if wrap then 0 else st.tail + Want(st),
                       base := if wrap then st.base + st.fifosize else st.base,
                   sigcountdown := st.sigcountdown - 1);
    assert DeliverStep(st) == if st1.sigcountdown <= 0 then SignalRequest(st1).(sigcountdown := st1.sigperiod) else st1;
    hide DeliverStep;
    RunsOn(st, st1);
    RequestControl(st1);
    Bpf2(SignalRequest(st1));
    SameControl(SignalRequest(st1), SignalRequest(st1).(sigcountdown := st1.sigperiod));
  }

  lemma PerformControl(st: State)
    requires ControlInv(st) && st.play == Streaming && (st.parent == Running || st.parent == WaitData(true))
    ensures st.bpf > 0 && ControlInv(PerformStep(st))
  {
    hide ControlInv, Starved, SignalRequest, FinishStep, DeliverStep;
    Bpf2(st);
    WaitControl(st);
    FinishControl(st);
    DeliverControl(st);
  }

  lemma TopControl(st: State)
    requires ControlInv(st) && st.child == Top && st.req != Busy
    ensures ControlInv(TopStep(st))
  {
    hide FdInv;
    FdTop(st);
    FdSame(st, TopStep(st));
  }

  /** At the top of its loop, and while opening, the child has no file open. */
  lemma FdTop(st: State)
    requires FdInv(st)
    ensures st.child != ClosingOld && st.child != ClosingClose && st.child != ClosingQuit
    ensures st.fd >= 0 <==> st.child == Feed || st.child.WaitFeed? || st.child.Reading? || st.child == ClosingLost
  {
  }

  /** Only these fields matter for control. */
  lemma SameControl(st: State, st': State)
    requires ControlInv(st)
    requires st'.req == st.req && st'.child == st.child && st'.parent == st.parent && st'.play == st.play
    requires st'.fd == st.fd && st'.closed == st.closed && st'.nextfd == st.nextfd && st'.bangs == st.bangs
    requires st'.posted == st.posted && st'.settled == st.settled && st'.bpf >= 2
    ensures ControlInv(st')
  {
    hide FdInv;
    FdTop(st);
    FdSame(st, st');
  }

  lemma LostControl(st: State)
    requires ControlInv(st) && (st.child == Opening || st.child == Feed || st.child.Reading?)
    ensures ControlInv(Lost(st))
  {
    hide FdInv;
    FdTop(st);
    FdSame(st, Lost(st));
  }

  lemma FeedControl(st: State)
    requires ControlInv(st) && st.child == Feed
    ensures ControlInv(FeedStep(st))
  {
    hide FdInv, WantRead;
    if st.req != Busy || st.eof {
      LostControl(st);
    } else {
      FdTop(st);
      FdSame(st, FeedStep(st));
    }
  }

  lemma CountControl(st: State, n: nat)
    requires ControlInv(st) && st.child.Reading?
    ensures ControlInv(CountStep(st, n))
  {
    hide ControlInv, Lost, SignalAnswer;
    Bpf2(st);
    var st0 := st.(eof := true, fault := st.fault || st.limit > 0);
    var st1 := st.(head := if st.head + n == st.fifosize then 0 else st.head + n, limit := st.limit - n);
    SameControl(st, st0);
    SameControl(st, st1);
    SameControl(st, st1.(eof := true));
    LostControl(st);
    LostControl(st0);
    LostControl(st1.(eof := true));
    if st.req == Busy { FedControl(st1); }
  }

  lemma FedControl(st: State)
    requires ControlInv(st) && st.child.Reading? && st.req == Busy
    ensures ControlInv(SignalAnswer(st.(child := Feed)))
  {
    hide FdInv;
    FdTop(st);
    FdSame(st, SignalAnswer(st.(child := Feed)));
  }

  lemma ReadControl(st: State, n: nat)
    requires ControlInv(st) && st.child.Reading?
    ensures ControlInv(ReadStep(st, n))
  {
    hide ControlInv, ReadBuf, CountStep;
    assert st.bpf >= 2 by { Bpf2(st); }
    SameControl(st, st.(buf := ReadBuf(st, n)));
    CountControl(st.(buf := ReadBuf(st, n)), n);
  }

  lemma Bpf2(st: State)
    requires ControlInv(st)
    ensures st.bpf >= 2
  {
  }

  lemma FailControl(st: State)
    requires ControlInv(st) && st.child.Reading?
    ensures ControlInv(ReadFailedStep(st))
  {
    hide FdInv;
    FdTop(st);
    FdSame(st, ReadFailedStep(st));
  }

  lemma OpenedControl(st: State, f: File)
    requires ControlInv(st) && st.child == Opening && GoodFile(f) && st.vecsize > 0
    ensures ControlInv(OpenedStep(st, f))
  {
    hide FdInv, FifoSize;
    FdTop(st);
    FdFields(st);
    FdOpened(st, OpenedStep(st, f));
  }

  lemma FdFields(st: State)
    requires FdInv(st)
    ensures -1 <= st.fd < st.nextfd
  {
  }

  lemma OpenFailedControl(st: State)
    requires ControlInv(st) && st.child == Opening
    ensures ControlInv(OpenFailedStep(st))
  {
    hide FdInv;
    FdTop(st);
    FdSame(st, OpenFailedStep(st));
  }

  lemma ClosedControl(st: State)
    requires ControlInv(st) && st.child == ClosingLost
    ensures ControlInv(Next(st, CClosedLost))
  {
    hide FdInv;
    FdTop(st);
    FdClosed(st, Next(st, CClosedLost));
  }

  /** The control part of the invariant is kept by every step.  In particular the child never
    finds an old file still open when it turns to a new request. */
  lemma ControlKept(st: State, ev: Event)
    requires ControlInv(st) && Enabled(st, ev)
    ensures ControlInv(Next(st, ev))
  {
    hide RequestInv, FdInv, WakeInv;
    match ev
    case PIdle =>
    case PPerform => PerformControl(st);
    case PResume => ResumePlays(st); PerformControl(st);
    case CTop => TopControl(st);
    case CWake => WakeControl(st);
    case CClosedOld => FdTop(st);
    case COpened(f) => OpenedControl(st, f);
    case COpenFailed => OpenFailedControl(st);
    case CFeed => FeedControl(st);
    case CScribble(junk) => SameControl(st, Next(st, ev));
    case CRead(n) => ReadControl(st, n);
    case CReadFailed => FailControl(st);
    case CClosedLost => ClosedControl(st);
    case CClosedClose => FdTop(st);
    case CClosedQuit => FdTop(st);
    case POpen(_) => PostControl(st, ev);
    case PStop => PostControl(st, ev);
    case PFree => PostControl(st, ev);
    case PStart => ResumeControl(st, ev);
    case PResumeFree => ResumeControl(st, ev);
    case _ => SpuriousControl(st, ev);
  }

  lemma ResumePlays(st: State)
    requires ControlInv(st) && st.parent.WaitData?
    ensures st.play == Streaming
  {
  }

  lemma WakeControl(st: State)
    requires ControlInv(st) && (st.child == WaitTop(true) || st.child == WaitFeed(true))
    ensures ControlInv(Next(st, CWake))
  {
    hide FdInv;
    FdTop(st);
    FdSame(st, Next(st, CWake));
  }

  // ---------------------------------------------------------------------------------------
  // Arithmetic of the fifo
  // ---------------------------------------------------------------------------------------

  lemma VecInMax(vecsize: nat, bpf: nat) returns (v: nat)
    requires vecsize > 0 && bpf > 0 && MAXVECSIZE % vecsize == 0
    ensures bpf * MAXVECSIZE == v * (vecsize * bpf) && v >= 1
    ensures vecsize * bpf >= bpf && vecsize * bpf <= bpf * MAXVECSIZE
    ensures Multiple(vecsize * bpf, bpf)
  {
    v := MAXVECSIZE / vecsize;
    DivMod(MAXVECSIZE, vecsize);
    assert MAXVECSIZE == vecsize * v;
    assert bpf * (vecsize * v) == v * (vecsize * bpf);
    MulAtLeast(bpf, vecsize);
    MulAtLeast(vecsize * bpf, v);
    MultipleIs(vecsize * bpf, bpf, vecsize);
  }

  lemma FifoSizeIs(bufsize: nat, bpf: nat, vec: nat, v: nat)
    requires bpf > 0 && vec > 0 && bpf * MAXVECSIZE == v * vec
    ensures Multiple(FifoSize(bufsize, bpf), vec) && bufsize - bpf * MAXVECSIZE < FifoSize(bufsize, bpf) <= bufsize
  {
    var m := bpf * MAXVECSIZE;
    DivMod(bufsize, m);
    var q := bufsize / m;
    assert FifoSize(bufsize, bpf) == m * q;
    assert (v * vec) * q == (q * v) * vec;
    MultipleIs(FifoSize(bufsize, bpf), vec, q * v);
  }

  /** The fifo holds a whole number of vectors, and more than two reads beside a vector. */
  lemma FifoFits(f: Fifo)
    requires Geometry(f)
    ensures Multiple(f.fifosize, f.Vec()) && Multiple(f.Vec(), f.bpf) && 2 <= f.Vec() <= READSIZE
    ensures 3 * READSIZE <= f.fifosize <= |f.buf|
  {
    hide FifoSize, Multiple;
    var v := VecInMax(f.vecsize, f.bpf);
    FifoSizeIs(|f.buf|, f.bpf, f.Vec(), v);
  }

  /** When the fifo is not short of a vector, a whole vector is there. */
  lemma NotShort(f: Fifo)
    requires Geometry(f) && f.head != f.tail + f.Vec() - 1 && !f.Short()
    ensures f.tail + f.Vec() <= f.RunEnd()
    ensures f.Taken() + f.Vec() <= f.Got()
  {
    hide Multiple;
    FifoFits(f);
    if f.head < f.tail { MultipleGap(f.tail, f.fifosize, f.Vec()); }
  }

  // ---------------------------------------------------------------------------------------
  // What the fifo's operations do to the stream
  // ---------------------------------------------------------------------------------------

  ghost function Delivered(f: Fifo): Fifo {
    var wrap := f.tail + f.Vec() >= f.fifosize;
    f.(out := f.out + Slice(f.buf, f.tail, f.Vec()),
       tail := if wrap then 0 else f.tail + f.Vec(), base := if wrap then f.base + f.fifosize else f.base)
  }

  /** A stretch of undelivered bytes is the next stretch of the file. */
  lemma SliceIs(f: Fifo, n: nat)
    requires Content(f) && f.tail + n <= f.RunEnd()
    ensures f.Taken() + n <= |f.src| && Slice(f.buf, f.tail, n) == f.src[f.Taken()..f.Taken() + n]
    ensures f.out + Slice(f.buf, f.tail, n) == f.src[..f.Taken() + n]
  {
    var s, t := Slice(f.buf, f.tail, n), f.src[f.Taken()..f.Taken() + n];
    forall k | 0 <= k < n
      ensures s[k] == t[k]
    {
      var i := f.tail + k;
      assert f.buf[i] == f.src[i + f.base];
      assert s[k] == f.buf[i] && t[k] == f.src[f.Taken() + k];
    }
    assert s == t;
    assert f.src[..f.Taken()] + t == f.src[..f.Taken() + n];
  }

  /** Delivering a vector hands over the next vector of the file and keeps the rest in place. */
  lemma DeliverKeeps(f: Fifo)
    requires Geometry(f) && Content(f) && f.head != f.tail + f.Vec() - 1 && !f.Short()
    ensures var g := Delivered(f);
      && Geometry(g) && Content(g) && g.Got() == f.Got() && g.Taken() == f.Taken() + f.Vec()
  {
    NotShort(f);
    DeliverPlace(f);
    DeliverContent(f);
  }

  lemma DeliverPlace(f: Fifo)
    requires Geometry(f) && f.tail + f.Vec() <= f.RunEnd()
    ensures Geometry(Delivered(f)) && Delivered(f).Got() == f.Got() && Delivered(f).Taken() == f.Taken() + f.Vec()
  {
    hide Multiple, FifoSize, Slice;
    FifoFits(f);
    SelfMultiple(f.Vec());
    MultipleSum(f.tail, f.Vec(), f.Vec());
    MultipleSum(f.base, f.fifosize, f.Vec());
    MultipleSum(f.tail, f.tail, f.Vec());
    assert Delivered(f).Vec() == f.Vec();
    if f.tail + f.Vec() < f.fifosize {
    } else {
      assert Multiple(f.tail - f.tail, f.Vec());
    }
  }

  lemma SelfMultiple(p: int)
    requires p > 0
    ensures Multiple(p, p)
  {
    MultipleIs(p, p, 1);
  }

  lemma DeliverContent(f: Fifo)
    requires Content(f) && f.tail + f.Vec() <= f.RunEnd() && f.head < f.fifosize && f.tail < f.fifosize
    ensures Content(Delivered(f))
  {
    hide Slice;
    SliceIs(f, f.Vec());
  }

  lemma DeliverClear(f: Fifo, at: nat, want: nat)
    requires Geometry(f) && f.head != f.tail + f.Vec() - 1 && !f.Short() && ReadClear(f, at, want)
    ensures ReadClear(Delivered(f), at, want)
  {
    FifoFits(f);
    NotShort(f);
  }

  ghost function Committed(f: Fifo, n: nat): Fifo
    requires 0 <= f.Got() && f.Got() + n <= |f.src|
  {
    f.(buf := Blit(f.buf, f.head, f.src[f.Got()..f.Got() + n]),
        head := if f.head + n == f.fifosize then 0 else f.head + n)
  }

  lemma BlitAt(buf: seq<byte>, at: nat, data: seq<byte>, i: nat)
    requires at + |data| <= |buf| && i < |buf|
    ensures Blit(buf, at, data)[i] == if at <= i < at + |data| then data[i - at] else buf[i]
  {
  }

  lemma BlitElsewhere(buf: seq<byte>, at: nat, data: seq<byte>, lo: int, hi: int, src: seq<byte>, offset: int)
    requires Holds(buf, lo, hi, src, offset) && at + |data| <= |buf| && (hi <= at || at + |data| <= lo)
    ensures Holds(Blit(buf, at, data), lo, hi, src, offset)
  {
    forall i | lo <= i < hi
      ensures Blit(buf, at, data)[i] == src[i + offset]
    {
      BlitAt(buf, at, data, i);
    }
  }

  lemma BlitExtends(buf: seq<byte>, at: nat, n: nat, lo: int, src: seq<byte>, offset: int)
    requires Holds(buf, lo, at, src, offset) && lo <= at && at + n <= |buf| && 0 <= at + offset
        && at + offset + n <= |src|
    ensures Holds(Blit(buf, at, src[at + offset..at + offset + n]), lo, at + n, src, offset)
  {
    var data := src[at + offset..at + offset + n];
    forall i | lo <= i < at + n
      ensures Blit(buf, at, data)[i] == src[i + offset]
    {
      BlitAt(buf, at, data, i);
    }
  }

  /** Whatever the unlocked read puts into its stretch of the buffer, the stream stays intact. */
  lemma ScribbleKeeps(f: Fifo, at: nat, junk: seq<byte>)
    requires Geometry(f) && Content(f) && ReadClear(f, at, |junk|)
    ensures Geometry(f.(buf := Blit(f.buf, at, junk))) && Content(f.(buf := Blit(f.buf, at, junk)))
  {
    FifoFits(f);
    BlitElsewhere(f.buf, at, junk, f.tail, f.RunEnd(), f.src, f.base);
    if f.head < f.tail {
      BlitElsewhere(f.buf, at, junk, 0, f.head, f.src, f.base + f.fifosize);
    }
  }

  /** Counting a read in appends the next n bytes of the file to what waits in the fifo. */
  lemma CommitKeeps(f: Fifo, n: nat, want: nat)
    requires Geometry(f) && Content(f) && ReadClear(f, f.head, want) && n <= want && 0 < n
    requires f.Got() + n <= |f.src|
    ensures Geometry(Committed(f, n)) && Content(Committed(f, n)) && Committed(f, n).Got() == f.Got() + n
  {
    hide Multiple, FifoSize;
    FifoFits(f);
    if f.head < f.tail {
      CommitBehind(f, n);
    } else {
      CommitAhead(f, n);
    }
  }

  lemma CommitBehind(f: Fifo, n: nat)
    requires Content(f) && f.head + n < f.tail <= f.fifosize <= |f.buf| && 0 < n && 0 <= f.Got()
        && f.Got() + n <= |f.src|
    ensures Content(Committed(f, n))
  {
    var data := f.src[f.Got()..f.Got() + n];
    BlitElsewhere(f.buf, f.head, data, f.tail, f.fifosize, f.src, f.base);
    BlitExtends(f.buf, f.head, n, 0, f.src, f.base + f.fifosize);
    hide Blit;
  }

  lemma CommitAhead(f: Fifo, n: nat)
    requires Content(f) && f.tail <= f.head && f.head + n <= f.fifosize <= |f.buf| && 0 < n
    requires f.head + n == f.fifosize ==> f.tail != 0
    requires 0 <= f.Got() && f.Got() + n <= |f.src|
    ensures Content(Committed(f, n))
  {
    BlitExtends(f.buf, f.head, n, f.tail, f.src, f.base);
  }

  /** The frames that the last vector takes are the rest of the file, frame for frame. */
  lemma FinishTakes(f: Fifo) returns (n: nat)
    requires Geometry(f) && Content(f) && (f.head - f.tail) % f.bpf != f.bpf - 1 && f.Short()
    ensures n == (f.head - f.tail + 1) / f.bpf * f.bpf && f.tail + n <= f.head
    ensures n == (f.head - f.tail) - (f.head - f.tail) % f.bpf
    ensures f.Taken() + n <= |f.src| && f.out + Slice(f.buf, f.tail, n) == f.src[..f.Taken() + n]
    ensures f.Got() == |f.src| ==> f.Taken() + n == |f.src|
  {
    hide Multiple, FifoSize, Slice;
    n := FinishFrames(f);
    SliceIs(f, n);
  }

  lemma FinishFrames(f: Fifo) returns (n: nat)
    requires Geometry(f) && (f.head - f.tail) % f.bpf != f.bpf - 1 && f.Short()
    ensures n == (f.head - f.tail + 1) / f.bpf * f.bpf && f.tail + n <= f.head
    ensures n == (f.head - f.tail) - (f.head - f.tail) % f.bpf
    ensures f.Got() == |f.src| ==> f.Taken() + n == |f.src|
  {
    hide Multiple, FifoSize;
    var d, b := f.head - f.tail, f.bpf;
    TailInFrames(f);
    WholeFrames(d, b);
    n := (d + 1) / b * b;
    if f.Got() == |f.src| {
      MultipleSum(|f.src|, f.base, b);
      MultipleSum(|f.src| - f.base, f.tail, b);
      MultipleZero(d, b);
    }
  }

  lemma MultipleZero(d: int, b: int)
    requires Multiple(d, b)
    ensures d % b == 0
  {
  }

  lemma WholeFrames(d: nat, b: nat)
    requires b > 0 && d % b != b - 1
    ensures (d + 1) / b * b == d - d % b
  {
    DivMod(d, b);
    DivIs(d + 1, b, d / b, d % b + 1);
  }

  lemma TailInFrames(f: Fifo)
    requires Geometry(f)
    ensures Multiple(f.tail, f.bpf) && Multiple(f.base, f.bpf)
  {
    hide Multiple, FifoSize;
    FifoFits(f);
    MultipleOfMultiple(f.tail, f.Vec(), f.bpf);
    MultipleOfMultiple(f.base, f.Vec(), f.bpf);
  }

  // ---------------------------------------------------------------------------------------
  // The stream is kept
  // ---------------------------------------------------------------------------------------

  lemma PostStream(st: State, ev: Event)
    requires ControlInv(st) && StreamInv(st) && Enabled(st, ev) && (ev.POpen? || ev.PStop? || ev.PFree?)
    ensures StreamInv(Next(st, ev))
  {
    hide ControlInv, StreamInv, OpenStep, StopStep, FreeStep;
    match ev
    case POpen(b) => OpenStream(st, b);
    case PStop => StopStream(st);
    case PFree => FreeStream(st);
  }

  lemma ResumeStream(st: State, ev: Event)
    requires ControlInv(st) && StreamInv(st) && Enabled(st, ev) && (ev.PStart? || ev.PResumeFree?)
    ensures StreamInv(Next(st, ev))
  {
    hide FdInv, Leftover, Geometry, Content;
  }

  lemma WaitsStream(st: State, st1: State)
    requires StreamInv(st) && st1 == st.(child := st1.child)
    requires (st.child.WaitTop? && st1.child.WaitTop?) || (st.child.WaitFeed? && st1.child.WaitFeed?)
    ensures StreamInv(st1)
  {
    hide Leftover, Geometry, Content, Fresh;
  }

  lemma ParentStream(st: State, st1: State)
    requires StreamInv(st) && st1 == st.(parent := st1.parent)
    requires (st.parent.WaitData? && st1.parent.WaitData?) || (st.parent.WaitQuit? && st1.parent.WaitQuit?)
    ensures StreamInv(st1)
  {
    hide Leftover, Busily, Fresh;
  }

  lemma RequestStream(st: State)
    requires StreamInv(st)
    ensures StreamInv(SignalRequest(st))
  {
    hide StreamInv;
    if st.child.WaitTop? || st.child.WaitFeed? { WaitsStream(st, SignalRequest(st)); }
  }

  lemma AnswerStream(st: State)
    requires StreamInv(st)
    ensures StreamInv(SignalAnswer(st))
  {
    hide StreamInv;
    if st.parent.WaitData? || st.parent.WaitQuit? { ParentStream(st, SignalAnswer(st)); }
  }

  lemma OpenStream(st: State, b: nat)
    requires ControlInv(st) && StreamInv(st) && st.parent == Running && b >= 2
    ensures StreamInv(OpenStep(st, b))
  {
    hide FdInv, Busily, Leftover;
  }

  lemma StopStream(st: State)
    requires ControlInv(st) && StreamInv(st) && st.parent == Running
    ensures StreamInv(StopStep(st))
  {
    hide FdInv, Busily, Leftover;
  }

  lemma FreeStream(st: State)
    requires ControlInv(st) && StreamInv(st) && st.parent == Running
    ensures StreamInv(FreeStep(st))
  {
    hide FdInv, Busily, Leftover;
  }

  lemma SpuriousStream(st: State, ev: Event)
    requires ControlInv(st) && StreamInv(st) && Enabled(st, ev) && (ev.PSpurious? || ev.CSpurious?)
    ensures StreamInv(Next(st, ev))
  {
    hide ControlInv, StreamInv, SignalRequest, SignalAnswer;
    if ev.PSpurious? { AnswerStream(st); } else { RequestStream(st); }
  }

  lemma ChildMoves(st: State, ev: Event)
    requires ControlInv(st) && StreamInv(st) && Enabled(st, ev) && (ev.CWake? || ev.CClosedLost?)
    ensures StreamInv(Next(st, ev))
  {
    hide FdInv, Leftover, Geometry, Content;
  }

  lemma TopStream(st: State)
    requires ControlInv(st) && StreamInv(st) && Enabled(st, CTop)
    ensures StreamInv(TopStep(st))
  {
    hide FdInv, Leftover, Geometry, Content;
    FdTop(st);
    if st.req == Open {
      TopTakes(st);
      hide TopStep, StreamInv, ControlInv;
    }
  }

  /** The child turns to an open request. */
  lemma TopTakes(st: State)
    requires ControlInv(st) && StreamInv(st) && Enabled(st, CTop) && st.req == Open
    ensures StreamInv(TopStep(st))
  {
    hide FdInv, Leftover, Geometry, Content;
    FdTop(st);
  }

  /** What must hold when the child gives up: its own stream has ended, at the end of the file,
    on a fault, or because eof had been set for an earlier open; a newer one has not begun. */
  ghost predicate GivingUp(st: State) {
    && Sized(|st.buf|, st.vecsize)
    && (st.req == Open && !st.eof ==> st.play != Idle)
    && (Playing(st) && st.req == Busy ==> st.eof && Leftover(FifoOf(st), st.eof, st.fault, st.stale))
    && (Playing(st) && st.req == Open ==> Fresh(FifoOf(st)) && (st.eof ==> st.stale))
    && (Playing(st) && st.stale ==> st.eof && Fresh(FifoOf(st)))
    && (st.bangs == 1 && !st.fault && !st.stale ==> st.out == st.src)
    && (st.bangs == 1 && st.stale ==> st.out == [])
    && (st.bangs == 1 ==> st.out <= st.src)
    && (st.bangs == 1 && st.req == Open ==> st.stale)
  }

  lemma LostStream(st: State)
    requires ControlInv(st) && GivingUp(st) && (st.child == Opening || st.child == Feed || st.child.Reading?)
    ensures StreamInv(Lost(st))
  {
    hide FdInv, Leftover, Geometry, Content, Fresh;
  }

  lemma FeedStream(st: State)
    requires ControlInv(st) && StreamInv(st) && st.child == Feed
    ensures StreamInv(FeedStep(st))
  {
    hide FdInv, Content, WantRead;
    if st.req != Busy || st.eof {
      FeedGivesUp(st);
      LostStream(st);
    } else if WantRead(st) >= 0 {
      WantIsClear(st);
    }
  }

  lemma FeedGivesUp(st: State)
    requires ControlInv(st) && StreamInv(st) && st.child == Feed && (st.req != Busy || st.eof)
    ensures GivingUp(st)
  {
    hide FdInv, Content, Geometry;
  }

  /** The read that the child starts fits the buffer and stays clear of what waits there. */
  lemma WantIsClear(st: State)
    requires WantRead(st) >= 0 && Geometry(FifoOf(st)) && st.limit == |st.src| - FifoOf(st).Got()
    ensures ReadClear(FifoOf(st), st.head, WantRead(st)) && WantRead(st) <= st.limit
        && st.head + WantRead(st) <= |st.buf|
  {
    FifoFits(FifoOf(st));
  }

  lemma ScribbleStream(st: State, junk: seq<byte>)
    requires ControlInv(st) && StreamInv(st) && Enabled(st, CScribble(junk))
    ensures StreamInv(Next(st, CScribble(junk)))
  {
    hide FdInv, Content, Leftover;
    if Playing(st) && st.req == Busy {
      ScribbleKeeps(FifoOf(st), st.child.at, junk);
    }
  }

  lemma WaitStream(st: State)
    requires ControlInv(st) && StreamInv(st) && st.play == Streaming
        && (st.parent == Running || st.parent == WaitData(true))
    ensures StreamInv(SignalRequest(st).(parent := WaitData(false)))
  {
    hide FdInv, Leftover, Geometry, Content;
  }

  /** Where the parent finds itself when there is a vector to deliver. */
  lemma DeliverFrom(st: State)
    requires ControlInv(st) && StreamInv(st) && Playing(st) && !Starved(st)
    ensures var f := FifoOf(st); Geometry(f) && Content(f) && !f.Short() && !Fresh(f)
  {
    VecTwo(st);
  }

  lemma VecTwo(st: State)
    requires Sized(|st.buf|, st.vecsize) && st.bpf >= 2
    ensures Want(st) >= 2
  {
    MulAtLeast(st.bpf, st.vecsize);
  }

  lemma DeliverStream(st: State)
    requires ControlInv(st) && StreamInv(st) && Playing(st) && st.parent != WaitData(false) && !Starved(st)
    requires !ShortVector(st)
    ensures StreamInv(DeliverStep(st))
  {
    hide FdInv, Starved;
    DeliverFrom(st);
    var f := FifoOf(st);
    var st' := DeliverStep(st);
    DeliverKeeps(f);
    DeliverFifo(st);
    hide DeliverStep, Geometry, Content;
    if st.child.Reading? && st.req == Busy {
      ReadingFor(st);
      DeliverClear(f, st.child.at, st.child.want);
    }
    hide StreamInv, ControlInv, Busily;
    DeliverPlay(st, st');
  }

  lemma DeliverFifo(st: State)
    ensures var st1 := DeliverStep(st);
      && FifoOf(st1) == Delivered(FifoOf(st)) && st1.parent == Running
      && st1.eof == st.eof && st1.limit == st.limit && st1.fault == st.fault && st1.stale == st.stale
      && st1.bangs == st.bangs && st1.req == st.req && st1.play == st.play
      && (st1.child == st.child || (st.child.WaitTop? && st1.child.WaitTop?)
          || (st.child.WaitFeed? && st1.child.WaitFeed?))
  {
    hide Slice;
  }

  lemma DeliverPlay(st: State, st': State)
    requires ControlInv(st) && StreamInv(st) && Playing(st) && Playing(st')
    requires var f, g := FifoOf(st), FifoOf(st');
      && !Fresh(f) && Geometry(g) && Content(g) && g.Got() == f.Got() && g.src == f.src && g.buf == f.buf
      && (st.child.Reading? && st.req == Busy ==> ReadClear(g, st.child.at, st.child.want))
    requires st'.eof == st.eof && st'.limit == st.limit && st'.fault == st.fault && st'.stale == st.stale
        && st'.bangs == st.bangs
    requires st'.req == st.req && (st'.child == st.child || (st.child.WaitTop? && st'.child.WaitTop?)
        || (st.child.WaitFeed? && st'.child.WaitFeed?))
    requires st'.vecsize == st.vecsize && st'.play == st.play
    ensures StreamInv(st')
  {
    hide FdInv, Geometry, Content;
  }

  /** The stream's end: what has come out is the start of the file, and all of it unless opening or reading
    failed or eof was set for an earlier open; in that last case nothing has come out. */
  lemma FinishStream(st: State)
    requires ControlInv(st) && StreamInv(st) && Playing(st) && st.parent != WaitData(false) && st.eof && Starved(st)
    requires !ShortFrame(st)
    ensures StreamInv(FinishStep(st))
  {
    hide FdInv, StreamInv, ControlInv, FinishStep;
    FinishOut(st);
    FinishRest(st);
  }

  lemma FinishOut(st: State)
    requires ControlInv(st) && StreamInv(st) && Playing(st) && st.eof && Starved(st) && !ShortFrame(st)
    ensures st.bpf > 0 && FinishStep(st).out <= st.src
    ensures !st.fault && !st.stale ==> FinishStep(st).out == st.src
    ensures st.stale ==> FinishStep(st).out == []
  {
    hide FdInv, Geometry, Content, ControlInv, Slice;
    Bpf2(st);
    var f := FifoOf(st);
    if Fresh(f) {
      NothingOut(st);
      if !st.stale && !st.fault { LeftoverAtEnd(st); }
    } else {
      LeftoverThere(st);
      var n := FinishTakes(f);
      PrefixIs(f.src, f.Taken() + n);
      if !st.stale && !st.fault { LeftoverAtEnd(st); }
    }
    if st.stale { StaleFresh(st); }
  }

  lemma PrefixIs(src: seq<byte>, n: int)
    requires 0 <= n <= |src|
    ensures src[..n] <= src && (n == |src| ==> src[..n] == src)
  {
  }

  lemma NothingOut(st: State)
    requires Fresh(FifoOf(st)) && st.bpf >= 2
    ensures FinishStep(st).out == []
  {
    DivIs(1, st.bpf, 0, 1);
  }

  lemma StaleFresh(st: State)
    requires StreamInv(st) && Playing(st) && st.stale
    ensures Fresh(FifoOf(st))
  {
  }

  lemma LeftoverThere(st: State)
    requires ControlInv(st) && StreamInv(st) && Playing(st) && st.eof && !Fresh(FifoOf(st))
    ensures Geometry(FifoOf(st)) && Content(FifoOf(st))
  {
    hide FdInv, Geometry, Content;
  }

  lemma LeftoverAtEnd(st: State)
    requires ControlInv(st) && StreamInv(st) && Playing(st) && st.eof && !st.stale && !st.fault
    ensures var f := FifoOf(st); Geometry(f) && Content(f) && f.Got() == |f.src|
  {
    hide FdInv;
    var f := FifoOf(st);
    assert st.req == Nothing;
    if Fresh(f) {
      VecTwo(st);
    }
  }

  lemma FinishRest(st: State)
    requires ControlInv(st) && StreamInv(st) && Playing(st) && st.parent != WaitData(false) && st.eof
    requires FinishStep(st).out <= st.src && (!st.fault && !st.stale ==> FinishStep(st).out == st.src)
    requires st.stale ==> FinishStep(st).out == []
    ensures StreamInv(FinishStep(st))
  {
    hide FdInv, Geometry, Content, Slice;
  }

  lemma OpenedStream(st: State, f: File)
    requires ControlInv(st) && StreamInv(st) && st.child == Opening && GoodFile(f) && st.vecsize > 0
    ensures StreamInv(OpenedStep(st, f))
  {
    hide FdInv, FifoSize, Leftover, Geometry, Content;
    if st.req != Busy {
      OpenedLate(st, f);
    } else if Playing(st) {
      OpenedFresh(|st.buf|, st.vecsize, f, OpenedStep(st, f));
    }
  }

  lemma OpenedLate(st: State, f: File)
    requires ControlInv(st) && StreamInv(st) && st.child == Opening && GoodFile(f) && st.vecsize > 0 && st.req != Busy
    ensures StreamInv(OpenedStep(st, f))
  {
    hide FdInv, FifoSize, Leftover, Geometry, Content;
  }

  lemma OpenedFresh(bufsize: nat, vecsize: nat, file: File, st: State)
    requires Sized(bufsize, vecsize) && GoodFile(file)
    requires |st.buf| == bufsize && st.vecsize == vecsize && st.bpf == file.bpf && st.src == file.data
    requires st.fifosize == FifoSize(bufsize, file.bpf) && st.head == 0 && st.tail == 0 && st.base == 0 && st.out == []
    ensures var f := FifoOf(st); Geometry(f) && Content(f) && f.Got() == 0
  {
    hide FifoSize;
    var v := VecInMax(vecsize, file.bpf);
    FifoSizeIs(bufsize, file.bpf, vecsize * file.bpf, v);
    MultipleIs(0, vecsize * file.bpf, 0);
  }

  lemma OpenFailedStream(st: State)
    requires ControlInv(st) && StreamInv(st) && st.child == Opening
    ensures StreamInv(OpenFailedStep(st))
  {
    hide FdInv, Content, Geometry;
    var st1 := st.(eof := true, fault := st.fault || st.req == Busy, stale := st.stale || st.req != Busy);
    assert st1.bpf >= 2;
    SameControl(st, st1);
    if Playing(st1) && st.req == Busy {
      VecTwo(st);
    }
    FailedGivesUp(st, st1);
    LostStream(st1);
  }

  lemma FailedGivesUp(st: State, st1: State)
    requires ControlInv(st) && StreamInv(st) && st.child == Opening
    requires st1 == st.(eof := true, fault := st.fault || st.req == Busy, stale := st.stale || st.req != Busy)
    ensures GivingUp(st1)
  {
    hide FdInv, Content, Geometry;
  }

  /** A read that came too late: the parent has asked for something else meanwhile. */
  lemma LateRead(st: State, buf: seq<byte>)
    requires ControlInv(st) && StreamInv(st) && st.child.Reading? && st.req != Busy && |buf| == |st.buf|
    ensures StreamInv(Lost(st.(buf := buf)))
  {
    hide FdInv, Content, Geometry, Leftover;
    var st1 := st.(buf := buf);
    assert st1.bpf >= 2;
    SameControl(st, st1);
    LostStream(st1);
  }

  /** While the child is reading for a current request, the stream is on. */
  lemma ReadingFor(st: State)
    requires ControlInv(st) && StreamInv(st) && st.child.Reading? && st.req == Busy
    ensures Playing(st) && !st.eof && !st.stale && st.bangs == 0
    ensures Busily(FifoOf(st), st.eof, st.stale, st.limit, st.child)
  {
    hide FdInv, Content, Geometry;
  }

  /** The end of the file, before its time or not. */
  lemma EndRead(st: State, fault: bool)
    requires ControlInv(st) && StreamInv(st) && st.child.Reading? && st.req == Busy
    requires fault || st.limit == 0
    ensures StreamInv(Lost(st.(eof := true, fault := fault)))
  {
    hide FdInv;
    ReadingFor(st);
    var st1 := st.(eof := true, fault := fault);
    assert Leftover(FifoOf(st1), true, fault, st.stale);
    EndReadGivesUp(st, st1);
  }

  lemma EndReadGivesUp(st: State, st1: State)
    requires ControlInv(st) && Playing(st) && st.child.Reading? && st.req == Busy && !st.stale && st.bangs == 0
    requires st1 == st.(eof := true, fault := st1.fault, head := st1.head, buf := st1.buf, limit := st1.limit)
    requires Sized(|st1.buf|, st1.vecsize) && Leftover(FifoOf(st1), true, st1.fault, st1.stale)
    ensures StreamInv(Lost(st1))
  {
    hide FdInv, Content, Geometry, Leftover;
    assert st1.bpf >= 2;
    SameControl(st, st1);
    LostStream(st1);
  }

  /** What the fifo becomes when some bytes of the file have come in. */
  lemma ReadFifo(st: State, n: nat)
    requires st.child.Reading? && Busily(FifoOf(st), false, st.stale, st.limit, st.child) && 0 < n <= st.child.want
    ensures var f := FifoOf(st); 0 <= f.Got() && f.Got() + n <= |f.src|
    ensures var g := Committed(FifoOf(st), n);
      && Geometry(g) && Content(g) && ReadBuf(st, n) == g.buf && st.limit - n == |g.src| - g.Got()
      && FifoOf(st.(buf := g.buf, head := g.head, limit := st.limit - n)) == g
  {
    hide Geometry, Content;
    var f := FifoOf(st);
    GotPositive(f);
    CommitKeeps(f, n, st.child.want);
  }

  lemma GotPositive(f: Fifo)
    ensures 0 <= f.Got()
  {
  }

  /** Some bytes of the file have come in. */
  lemma SomeRead(st: State, n: nat)
    requires ControlInv(st) && StreamInv(st) && st.child.Reading? && st.req == Busy && 0 < n <= st.child.want
    ensures StreamInv(ReadStep(st, n))
  {
    hide FdInv, Geometry, Content, ReadBuf, StreamInv, ControlInv, Lost, SignalAnswer, Blit, Busily;
    ReadingFor(st);
    ReadFifo(st, n);
    ReadLimit(st);
    SomeReadCounted(st, n, Committed(FifoOf(st), n));
  }

  lemma ReadLimit(st: State)
    requires st.child.Reading? && Busily(FifoOf(st), st.eof, st.stale, st.limit, st.child)
    ensures st.child.want <= st.limit && st.bpf > 0 && st.vecsize > 0 && Want(st) > 0
    ensures Sized(|st.buf|, st.vecsize)
  {
  }

  lemma SomeReadCounted(st: State, n: nat, g: Fifo)
    requires ControlInv(st) && Playing(st) && st.child.Reading? && st.req == Busy && !st.stale && !st.eof
        && st.bangs == 0
    requires 0 < n <= st.limit && st.bpf > 0 && st.vecsize > 0
    requires Geometry(g) && Content(g) && ReadBuf(st, n) == g.buf
        && g.head == (if st.head + n == st.fifosize then 0 else st.head + n)
    requires st.limit - n == |g.src| - g.Got()
    requires FifoOf(st.(buf := g.buf, head := g.head, limit := st.limit - n)) == g
    ensures StreamInv(ReadStep(st, n))
  {
    hide FdInv, Geometry, Content, ReadBuf, StreamInv, ControlInv, Lost, SignalAnswer;
    var st1 := st.(buf := g.buf, head := g.head, limit := st.limit - n);
    if n < st.limit {
      MoreToRead(st, st1);
    } else {
      GeometrySized(g);
      EndReadGivesUp(st, st1.(eof := true));
    }
  }

  lemma GeometrySized(f: Fifo)
    requires Geometry(f)
    ensures Sized(|f.buf|, f.vecsize)
  {
  }

  lemma MoreToRead(st: State, st1: State)
    requires ControlInv(st) && Playing(st) && st.child.Reading? && st.req == Busy && !st.stale && !st.eof
        && st.bangs == 0
    requires st1 == st.(head := st1.head, buf := st1.buf, limit := st1.limit)
    requires var g := FifoOf(st1);
      Geometry(g) && Content(g) && st1.limit == |g.src| - g.Got()
    ensures StreamInv(SignalAnswer(st1.(child := Feed)))
  {
    hide FdInv, Content;
  }

  lemma ReadStream(st: State, n: nat)
    requires ControlInv(st) && StreamInv(st) && Enabled(st, CRead(n))
    ensures StreamInv(ReadStep(st, n))
  {
    hide FdInv, Geometry, Content, Lost, StreamInv, ControlInv;
    if st.req != Busy {
      LateRead(st, ReadBuf(st, n));
    } else if n == 0 {
      ReadingFor(st);
      assert ReadBuf(st, 0) == st.buf;
      EndRead(st, st.fault || st.limit > 0);
    } else {
      SomeRead(st, n);
    }
  }

  lemma HasFile(st: State)
    requires ControlInv(st) && st.child.Reading?
    ensures st.fd >= 0
  {
  }

  lemma LostSetsEof(st: State)
    requires st.fd >= 0 && st.req != Open
    ensures Lost(st.(eof := true)) == Lost(st)
  {
  }

  lemma ReadFailedStream(st: State)
    requires ControlInv(st) && StreamInv(st) && Enabled(st, CReadFailed)
    ensures StreamInv(ReadFailedStep(st))
  {
    hide FdInv, Geometry, Content, Lost, StreamInv, ControlInv;
    if st.req != Busy {
      assert st.(buf := st.buf) == st;
      LateRead(st, st.buf);
    } else {
      ReadingFor(st);
      EndRead(st, true);
      HasFile(st);
      LostSetsEof(st.(fault := true));
    }
  }

  lemma PerformStream(st: State)
    requires ControlInv(st) && StreamInv(st) && st.play == Streaming
        && (st.parent == Running || st.parent == WaitData(true))
    requires !ShortVector(st) && !ShortFrame(st)
    ensures st.bpf > 0 && StreamInv(PerformStep(st))
  {
    hide ControlInv, StreamInv, Starved, SignalRequest, FinishStep, DeliverStep;
    Bpf2(st);
    if !st.eof && Starved(st) {
      WaitStream(st);
    } else if st.eof && Starved(st) {
      FinishStream(st);
    } else {
      DeliverStream(st);
    }
  }

  /** The stream part of the invariant is kept by every step but a delivery one byte short. */
  lemma StreamKept(st: State, ev: Event)
    requires ControlInv(st) && StreamInv(st) && Enabled(st, ev) && Tame(st, ev)
    ensures StreamInv(Next(st, ev))
  {
    hide RequestInv, FdInv, WakeInv, StreamInv;
    match ev
    case PIdle =>
    case PPerform => PerformStream(st);
    case PResume => PerformStream(st);
    case CTop => TopStream(st);
    case CWake => ChildMoves(st, ev);
    case CClosedLost => ChildMoves(st, ev);
    case CClosedOld => FdTop(st);
    case CClosedClose => FdTop(st);
    case CClosedQuit => FdTop(st);
    case COpened(f) => OpenedStream(st, f);
    case COpenFailed => OpenFailedStream(st);
    case CFeed => FeedStream(st);
    case CScribble(junk) => ScribbleStream(st, junk);
    case CRead(n) => ReadStream(st, n);
    case CReadFailed => ReadFailedStream(st);
    case POpen(_) => PostStream(st, ev);
    case PStop => PostStream(st, ev);
    case PFree => PostStream(st, ev);
    case PStart => ResumeStream(st, ev);
    case PResumeFree => ResumeStream(st, ev);
    case _ => SpuriousStream(st, ev);
  }

  // ---------------------------------------------------------------------------------------
  // Runs
  // ---------------------------------------------------------------------------------------

  /** A run from creation: any interleaving of the two threads' steps. */
  ghost predicate Run(run: seq<State>, evs: seq<Event>) {
    && |run| == |evs| + 1 && Init(run[0])
    && forall i :: 0 <= i < |evs| ==> Follows(run[i], evs[i], run[i + 1])
  }

  ghost predicate Follows(st: State, ev: Event, st': State) {
    Enabled(st, ev) && st' == Next(st, ev)
  }

  /** Up to state i, no delivery was one byte short. */
  ghost predicate TameRun(run: seq<State>, evs: seq<Event>, i: nat)
    requires |run| == |evs| + 1 && i < |run|
  {
    forall k: nat :: k < i ==> Tame(run[k], evs[k])
  }

  lemma {:induction false} EveryState(run: seq<State>, evs: seq<Event>, i: nat)
    requires Run(run, evs) && i < |run|
    ensures ControlInv(run[i])
    ensures TameRun(run, evs, i) ==> StreamInv(run[i])
    decreases i
  {
    hide ControlInv, StreamInv, Next, Enabled;
    if i == 0 {
      InitHolds(run[0]);
    } else {
      var k := i - 1;
      EveryState(run, evs, k);
      assert Follows(run[k], evs[k], run[k + 1]);
      ControlKept(run[k], evs[k]);
      if TameRun(run, evs, i) {
        StreamKept(run[k], evs[k]);
      }
    }
  }

  /** In every run without a delivery one byte short, what has come out is always a prefix of the file
    being played; when the done bang is out it is the whole file, unless opening or reading the file failed or
    eof was set for an earlier open; and there is one bang at most for one open. */
  lemma StreamFidelity(run: seq<State>, evs: seq<Event>, i: nat)
    requires Run(run, evs) && i < |run| && TameRun(run, evs, i)
    ensures var st := run[i];
      && st.bangs <= 1
      && (Playing(st) ==> st.bangs == 0)
      && (Playing(st) || st.bangs == 1 ==> st.out <= st.src)
      && (st.bangs == 1 && !st.fault && !st.stale ==> st.out == st.src)
      && (st.bangs == 1 && st.stale ==> st.out == [])
  {
    EveryState(run, evs, i);
    var st := run[i];
    if Playing(st) { OutIsPrefix(st); }
  }

  lemma OutIsPrefix(st: State)
    requires ControlInv(st) && StreamInv(st) && Playing(st)
    ensures st.out <= st.src
  {
    hide FdInv, Geometry;
  }

  /** The stretch of the buffer that an unlocked read may write never meets bytes that have been
    read and not yet delivered. */
  lemma ReadsStayClear(run: seq<State>, evs: seq<Event>, i: nat, k: int)
    requires Run(run, evs) && i < |run| && TameRun(run, evs, i)
    requires run[i].child.Reading? && Playing(run[i]) && run[i].child.at <= k < run[i].child.at + run[i].child.want
    ensures 0 <= k < |run[i].buf|
    ensures var f := FifoOf(run[i]);
      if f.head >= f.tail then !(f.tail <= k < f.head) else !(f.tail <= k < f.fifosize || 0 <= k < f.head)
  {
    hide FdInv, Geometry, Content;
    EveryState(run, evs, i);
  }

  /** Each request is pending until it is taken or another takes its place; every file opened
    is closed exactly once, but for the one in use; and none is in use once the object is gone. */
  lemma RequestsAndFiles(run: seq<State>, evs: seq<Event>, i: nat)
    requires Run(run, evs) && i < |run|
    ensures var st := run[i];
      && (!st.settled ==> st.req == st.posted)
      && (st.settled <==> st.req == Nothing || st.req == Busy)
      && (forall k: int :: 0 <= k < st.nextfd ==> multiset(st.closed)[k] == if k == st.fd then 0 else 1)
      && (st.parent == Freed ==> st.child == Exited && st.fd == -1)
  {
    EveryState(run, evs, i);
  }

  /** The two threads never both wait; in particular a parent in want of data and a child with
    no room for it do not meet. */
  lemma NeverBothWait(run: seq<State>, evs: seq<Event>, i: nat)
    requires Run(run, evs) && i < |run|
    ensures var st := run[i];
      && !((st.child == WaitTop(false) || st.child == WaitFeed(false))
          && (st.parent == WaitData(false) || st.parent == WaitQuit(false)))
      && (TameRun(run, evs, i) && Playing(st) && st.child == Feed && st.req == Busy && !st.eof ==>
            WantRead(st) < 0 ==> !Starved(st))
  {
    EveryState(run, evs, i);
    var st := run[i];
    if TameRun(run, evs, i) && Playing(st) && st.child == Feed && st.req == Busy && !st.eof && WantRead(st) < 0 {
      FullIsNotStarved(st);
    }
  }

  lemma FullIsNotStarved(st: State)
    requires Geometry(FifoOf(st)) && WantRead(st) < 0 && st.limit == |st.src| - FifoOf(st).Got()
    ensures !Starved(st)
  {
    FifoFits(FifoOf(st));
  }

  // ---------------------------------------------------------------------------------------
  // Progress
  // ---------------------------------------------------------------------------------------

  /** The child's own next step; the rest of the world is the file system and the scheduler. */
  ghost predicate ChildStep(ev: Event) {
    ev.CTop? || ev.CWake? || ev.CClosedOld? || ev.COpened? || ev.COpenFailed? || ev.CFeed? || ev.CRead?
        || ev.CReadFailed?
    || ev.CClosedLost? || ev.CClosedClose? || ev.CClosedQuit?
  }

  /** How many steps at most the child is from answering. */
  ghost function Rank(c: Child): nat {
    match c
    case WaitTop(_) => 7
    case Top => 6
    case ClosingOld => 5
    case Opening => 4
    case WaitFeed(_) => 3
    case Feed => 2
    case Reading(_, _) => 1
    case _ => 0
  }

  ghost predicate ParentWaits(st: State) {
    st.parent == WaitData(false) || st.parent == WaitQuit(false)
  }

  /** While the parent waits the child is able to step, unless it has exited. */
  lemma ChildCanStep(st: State)
    requires ControlInv(st) && ParentWaits(st) && st.child != Exited && st.vecsize > 0
    ensures exists ev: Event :: ChildStep(ev) && Enabled(st, ev)
  {
    hide FdInv;
    match st.child
    case Top => assert Enabled(st, CTop);
    case WaitTop(_) => assert Enabled(st, CWake);
    case ClosingOld => assert Enabled(st, CClosedOld);
    case Opening => assert Enabled(st, COpenFailed);
    case Feed => assert Enabled(st, CFeed);
    case WaitFeed(_) => assert Enabled(st, CWake);
    case Reading(_, _) => assert Enabled(st, CRead(0));
    case ClosingLost => assert Enabled(st, CClosedLost);
    case ClosingClose => assert Enabled(st, CClosedClose);
    case ClosingQuit => assert Enabled(st, CClosedQuit);
  }

  /** Each step the child takes while the parent waits brings it nearer to its answer, and the
    last one gives it: a parent waiting for data is always woken. */
  lemma ChildAnswers(st: State, ev: Event)
    requires ControlInv(st) && ParentWaits(st) && ChildStep(ev) && Enabled(st, ev)
    ensures !ParentWaits(Next(st, ev)) || Rank(Next(st, ev).child) < Rank(st.child)
  {
    hide FdInv, Next;
    FdTop(st);
    if ev.CTop? || ev.CWake? {
      TopAnswers(st, ev);
    } else if ev.CRead? || ev.CReadFailed? || ev.CFeed? {
      FeedAnswers(st, ev);
    } else {
      FileAnswers(st, ev);
    }
  }

  lemma TopAnswers(st: State, ev: Event)
    requires ControlInv(st) && ParentWaits(st) && Enabled(st, ev) && (ev.CTop? || ev.CWake?)
    ensures !ParentWaits(Next(st, ev)) || Rank(Next(st, ev).child) < Rank(st.child)
  {
    hide FdInv;
    FdTop(st);
  }

  /** The parent is awake, or the child is one step from waking it. */
  ghost predicate Answering(st: State) {
    !ParentWaits(st) || Rank(st.child) == 0
  }

  lemma LostAnswers(st: State)
    ensures Answering(Lost(st))
  {
    if st.fd < 0 {
      AnswerWakes(if st.req == Busy then st.(req := Nothing, child := Top) else st.(child := Top));
      hide SignalAnswer;
    }
  }

  lemma AnswerWakes(st: State)
    ensures !ParentWaits(SignalAnswer(st))
  {
  }

  lemma CountAnswers(st: State, n: nat)
    ensures Answering(CountStep(st, n))
  {
    hide Lost, SignalAnswer;
    if st.req != Busy {
      LostAnswers(st);
    } else if n == 0 {
      LostAnswers(st.(eof := true, fault := st.fault || st.limit > 0));
    } else {
      var head1 := st.head + n;
      var st2 := st.(head := if head1 == st.fifosize then 0 else head1, limit := st.limit - n);
      if st2.limit <= 0 { LostAnswers(st2.(eof := true)); } else { AnswerWakes(st2.(child := Feed)); }
    }
  }

  lemma ReadAnswers(st: State, ev: Event)
    requires Enabled(st, ev) && (ev.CRead? || ev.CReadFailed?)
    ensures Answering(Next(st, ev))
  {
    hide ReadBuf, Lost, CountStep, Answering;
    LostAnswers(st);
    LostAnswers(st.(fault := true));
    if ev.CRead? { CountAnswers(st.(buf := ReadBuf(st, ev.n)), ev.n); }
  }

  lemma FeedAnswers(st: State, ev: Event)
    requires ControlInv(st) && ParentWaits(st) && Enabled(st, ev) && (ev.CFeed? || ev.CRead? || ev.CReadFailed?)
    ensures !ParentWaits(Next(st, ev)) || Rank(Next(st, ev).child) < Rank(st.child)
  {
    FdTop(st);
    hide FdInv, ReadBuf, WantRead, ControlInv;
    if ev.CFeed? {
      LostAnswers(st);
      hide Lost;
    } else {
      ReadAnswers(st, ev);
      hide Next;
    }
  }

  lemma FileAnswers(st: State, ev: Event)
    requires ControlInv(st) && ParentWaits(st) && Enabled(st, ev)
    requires ev.COpened? || ev.COpenFailed? || ev.CClosedLost? || ev.CClosedOld? || ev.CClosedClose? || ev.CClosedQuit?
    ensures !ParentWaits(Next(st, ev)) || Rank(Next(st, ev).child) < Rank(st.child)
  {
    hide FdInv, FifoSize;
    FdTop(st);
  }

  /** How many steps at most the child is from quitting, once it has been told to. */
  ghost function QuitRank(c: Child): nat {
    match c
    case WaitFeed(_) => 6
    case Exited => 0
    case ClosingQuit => 1
    case Top => 2
    case WaitTop(_) => 3
    case ClosingLost => 4
    case ClosingClose => 4
    case _ => 5
  }

  /** readsf_free comes to an end: with a quit request standing, every step of the child brings
    it nearer to the end of the thread, and there the request is cleared and the parent woken. */
  lemma QuitEnds(st: State, ev: Event)
    requires ControlInv(st) && st.req == Quit && ChildStep(ev) && Enabled(st, ev)
    ensures QuitRank(Next(st, ev).child) < QuitRank(st.child)
    ensures Next(st, ev).child == Exited ==> Next(st, ev).req == Nothing && Next(st, ev).parent == WaitQuit(true)
  {
    hide FdInv;
    FdTop(st);
  }

  /** When a starved parent wakes, either the stream has ended or more of the file has come in
    than before it waited: the child, asked for data, does read. */
  lemma HungryChildReads(st: State)
    requires ControlInv(st) && StreamInv(st) && Playing(st) && Starved(st) && st.req == Busy && st.child == Feed
        && !st.eof
    ensures FeedStep(st).child.Reading?
    ensures st.limit > 0 ==> FeedStep(st).child.want > 0
  {
    hide FdInv, Content;
    if WantRead(st) < 0 { FullIsNotStarved(st); }
    WantIsClear(st);
    FifoFits(FifoOf(st));
  }
}
