/** Every step keeps the bus invariant, program point by program point. */
module BusSteps {
  import opened Codec
  import opened Common
  import opened SpiBus
  import opened BusInvariant

  lemma InitInv(c: Config, programs: seq<seq<Op>>)
    requires ValidConfig(c) && ProgramsOk(c, programs)
    ensures Sized(c, Init(c, programs)) && Init(c, programs) in Inv(c)
  {
  }

  // --------------------------------------------- what a step leaves alone

  /** Parking survives any step of task `t` that touches no other task and no log. */
  lemma KeepParked(c: Config, s: State, s': State, t: nat)
    requires Sized(c, s) && LogOk(c, s.log) && Sized(c, s') && s'.log == s.log
    requires |s'.tasks| == |s.tasks| && forall u :: 0 <= u < |s.tasks| && u != t ==> s'.tasks[u] == s.tasks[u]
    requires s.hold == Detached ==> s'.hold == Detached
    requires OthersParked(c, s, t)
    ensures OthersParked(c, s', t)
  {
    forall u | 0 <= u < |s'.tasks| && u != t
      ensures Parked(c, s', u)
    {
      assert Parked(c, s, u);
    }
  }

  lemma KeepQuiet(c: Config, s: State, s': State, d: nat)
    requires Sized(c, s) && Sized(c, s') && s'.log == s.log
    requires forall e :: 0 <= e < |c.mems| && e != d ==>
               s'.nb[e] == s.nb[e] && s'.high[e] == s.high[e] && s'.chips[e] == s.chips[e]
    requires OthersQuiet(c, s, d)
    ensures OthersQuiet(c, s', d)
  {
    forall e | 0 <= e < |c.mems| && e != d
      ensures QuietDev(c, s', e)
    {
      assert QuietDev(c, s, e);
    }
  }

  lemma GrowLog(c: Config, s: State, s': State, e: Entry)
    requires Sized(c, s) && LogOk(c, s.log) && Sized(c, s') && e.a.dev < |c.mems| && s'.log == s.log + [e]
    requires AllQuiet(c, s) && s'.nb == s.nb && s'.high == s.high && s'.chips == s.chips
    requires s.hold != Detached && OthersParked(c, s, e.t) && e.t < |s.tasks|
    requires |s'.tasks| == |s.tasks| && forall u :: 0 <= u < |s.tasks| && u != e.t ==> s'.tasks[u] == s.tasks[u]
    requires s'.results == s.results && ResultsOk(c, s)
    ensures LogOk(c, s'.log) && OthersQuiet(c, s', e.a.dev) && OthersParked(c, s', e.t) && ResultsOk(c, s')
  {
    forall d | 0 <= d < |c.mems| && d != e.a.dev
      ensures QuietDev(c, s', d)
    {
      assert QuietDev(c, s, d);
      SerialAppend(c, s.log, e, d);
    }
    forall u | 0 <= u < |s'.tasks| && u != e.t
      ensures Parked(c, s', u)
    {
      assert Parked(c, s, u);
      if s.tasks[u].pc == Reacquire {
        ExpectedAppend(c, s.log, e, s.tasks[u].ticket);
      }
    }
    forall i | 0 <= i < |s'.results|
      ensures ResultOk(c, s'.log, s'.results[i])
    {
      assert ResultOk(c, s.log, s.results[i]);
      ExpectedAppend(c, s.log, e, s.results[i].ticket);
    }
  }

  // ------------------------------------------------------ taking the bus

  lemma BeginHere(c: Config, s: State, t: nat)
    requires ValidConfig(c) && Sized(c, s) && LogOk(c, s.log) && AllQuiet(c, s)
    requires Running(s, t) && s.spiSem > 0 && s.tasks[t].prog[0].Do?
    ensures Begin(c, s, t) in Here(c, t)
  {
    var a := s.tasks[t].prog[0].a;
    assert Do(a) in s.tasks[t].prog && OpOk(c, Do(a));
    assert Begin(c, s, t).log[..|s.log|] == s.log;
    assert QuietDev(c, s, a.dev);
  }

  lemma BeginAccess(c: Config, s: State, t: nat)
    requires s in Inv(c) && CanAdvance(c, s, t) && s.tasks[t].pc == Start && s.tasks[t].prog[0].Do?
    ensures Advance(c, s, t) in Inv(c)
  {
    assert s.hold == Free;
    BeginHere(c, s, t);
    GrowLog(c, s, Advance(c, s, t), Entry(t, s.tasks[t].prog[0].a));
  }

  lemma BeginWait(c: Config, s: State, t: nat)
    requires s in Inv(c) && CanAdvance(c, s, t) && s.tasks[t].pc == Start && s.tasks[t].prog[0].WaitBus?
    ensures Advance(c, s, t) in Inv(c)
  {
    var s' := Advance(c, s, t);
    assert s.hold == Free;
    KeepParked(c, s, s', t);
    assert OthersQuiet(c, s, |c.mems|);
    KeepQuiet(c, s, s', |c.mems|);
  }

  lemma TakeAgain(c: Config, s: State, t: nat)
    requires s in Inv(c) && CanAdvance(c, s, t) && s.tasks[t].pc == Reacquire
    ensures Advance(c, s, t) in Inv(c)
  {
    var s' := Advance(c, s, t);
    assert s.hold == Free;
    assert Parked(c, s, t);
    KeepParked(c, s, s', t);
    assert OthersQuiet(c, s, |c.mems|);
    KeepQuiet(c, s, s', |c.mems|);
  }

  // ------------------------------------------- steps of the bus holder

  /** A task past its first semaphore is the one holder. */
  lemma Holder(c: Config, s: State, t: nat)
    requires s in Inv(c) && t < |s.tasks|
    requires s.tasks[t].pc != Start && s.tasks[t].pc != Reacquire
    ensures s.hold == if s.tasks[t].pc in {Test, PassOn} then Passing(t) else Driving(t)
    ensures s.tasks[t].pc !in {Test, PassOn} ==> s in Here(c, t)
  {
    assert !Parked(c, s, t);
  }

  /** A step within the access of task `t`: everything of nobody else's concern. */
  predicate Local(c: Config, s: State, s': State, t: nat) {
    && Sized(c, s) && Sized(c, s') && HasAccess(s, t)
    && s'.spiSem == s.spiSem && s'.log == s.log && s'.results == s.results && s'.hold == s.hold
    && |s'.tasks| == |s.tasks| && (forall u :: 0 <= u < |s.tasks| && u != t ==> s'.tasks[u] == s.tasks[u])
    && s'.tasks[t].prog == s.tasks[t].prog
    && forall e :: 0 <= e < |c.mems| && e != Cur(s, t).dev ==>
         s'.nb[e] == s.nb[e] && s'.high[e] == s.high[e] && s'.chips[e] == s.chips[e]
  }

  /** Either no select rises and the access stays open (or closed), or its train ends. */
  predicate TrainStep(s: State, s': State) {
    || (s'.trains == s.trains && Open(s') == Open(s))
    || (Open(s) && !Open(s') && |s.log| > 0
        && |s'.trains| == |s.trains| + 1 && s'.trains[..|s.trains|] == s.trains
        && IsTrainOf(s.log[|s.log| - 1].a, s'.trains[|s.trains|]))
  }

  lemma TrainStepOk(s: State, s': State)
    requires TrainsOk(s) && TrainStep(s, s') && s'.log == s.log
    ensures TrainsOk(s')
  {
    forall i | 0 <= i < |s'.trains|
      ensures IsTrainOf(s'.log[i].a, s'.trains[i])
    {
      if i < |s.trains| {
        assert s'.trains[i] == s.trains[i];
      }
    }
  }

  lemma StillDriving(c: Config, s: State, s': State, t: nat)
    requires s in Inv(c) && s.hold == Driving(t) && Local(c, s, s', t) && s' in Here(c, t) && TrainStep(s, s')
    ensures s' in Inv(c)
  {
    KeepParked(c, s, s', t);
    KeepQuiet(c, s, s', Cur(s, t).dev);
    TrainStepOk(s, s');
  }

  /** A step within an access that ends at a program point whose demands hold. */
  lemma StaysHere(c: Config, s: State, s': State, t: nat)
    requires s in Here(c, t) && Sized(c, s') && s'.log == s.log && HasAccess(s', t)
    requires s'.tasks[t].prog == s.tasks[t].prog && s'.tasks[t].ticket == s.tasks[t].ticket
    requires |s'.tasks[t].buf| == |s.tasks[t].buf| && Aligned(c, Cur(s', t), s'.tasks[t].done)
    requires s'.cb == s.cb && s.tasks[t].pc != SetCb && AtPc(c, s', t)
    ensures s' in Here(c, t)
  {
  }

  lemma SetCbStep(c: Config, s: State, t: nat)
    requires s in Here(c, t) && CanAdvance(c, s, t) && s.tasks[t].pc == SetCb
    ensures Advance(c, s, t) in Here(c, t)
  {
  }

  lemma SelectedAtPc(c: Config, s: State, t: nat)
    requires s in Here(c, t) && CanAdvance(c, s, t) && s.tasks[t].pc == SelectLow
    ensures var s' := Advance(c, s, t); Sized(c, s') && s'.log == s.log && HasAccess(s', t) && AtPc(c, s', t)
  {
  }

  lemma SelectLowStep(c: Config, s: State, t: nat)
    requires s in Here(c, t) && CanAdvance(c, s, t) && s.tasks[t].pc == SelectLow
    ensures Advance(c, s, t) in Here(c, t)
  {
    SelectedAtPc(c, s, t);
    StaysHere(c, s, Advance(c, s, t), t);
  }

  lemma FilledBuffer(c: Config, s: State, t: nat)
    requires s in Here(c, t) && CanAdvance(c, s, t) && s.tasks[t].pc == Fill
    ensures var s', a := Advance(c, s, t), Cur(s, t);
            && Sized(c, s') && s'.log == s.log && HasAccess(s', t) && Cur(s', t) == a
            && Moved(c, s', a, s'.tasks[t].buf, 0)
  {
  }

  lemma FillStep(c: Config, s: State, t: nat)
    requires s in Here(c, t) && CanAdvance(c, s, t) && s.tasks[t].pc == Fill
    ensures Advance(c, s, t) in Here(c, t)
  {
    FilledBuffer(c, s, t);
    LoopAtPc(c, Advance(c, s, t), t);
    StaysHere(c, s, Advance(c, s, t), t);
  }

  /** `Mid` looks at the log, the selects, the chips and the scratch buffers only. */
  lemma SameMid(c: Config, s: State, s': State, a: Access, buf: seq<byte>, n: nat)
    requires Sized(c, s) && LogOk(c, s.log) && |s.log| > 0 && s.log[|s.log| - 1].a == a
    requires Sized(c, s') && s'.log == s.log && s'.high == s.high && s'.chips == s.chips && s'.txbufs == s.txbufs
    requires a.dev < |c.mems|
    ensures Mid(c, s', a, buf, n) == Mid(c, s, a, buf, n)
  {
  }

  lemma TakeNbStep(c: Config, s: State, t: nat)
    requires s in Here(c, t) && CanAdvance(c, s, t) && s.tasks[t].pc == TakeNb
    ensures Advance(c, s, t) in Here(c, t)
  {
    SameMid(c, s, Advance(c, s, t), Cur(s, t), s.tasks[t].buf, s.tasks[t].done);
  }

  lemma Launched(c: Config, s: State, t: nat)
    requires s in Here(c, t) && CanAdvance(c, s, t) && s.tasks[t].pc == Launch
    ensures var s', a, k := Advance(c, s, t), Cur(s, t), s.tasks[t];
            && Sized(c, s') && s'.log == s.log && Flying(c, s', t, a, k.buf, k.done)
  {
    SameMid(c, s, Advance(c, s, t), Cur(s, t), s.tasks[t].buf, s.tasks[t].done);
  }

  lemma FlyingAtPc(c: Config, s: State, t: nat)
    requires Sized(c, s) && LogOk(c, s.log) && HasAccess(s, t) && |s.log| > 0 && s.log[|s.log| - 1].a == Cur(s, t)
    requires var k, a := s.tasks[t], Cur(s, t);
             && Flying(c, s, t, a, k.buf, k.done)
             && match XferMode(c, a, k.done)
                case Blocking => k.pc == WaitBlk && s.nb[a.dev] == 1
                case Synced =>
                  s.nb[a.dev] == 0
                  && (k.pc == WaitNb || (k.pc == ClearTx && k.done == 0 && !a.h.write && !Short(c, a)))
                case Final => false
    ensures AtPc(c, s, t)
  {
  }

  lemma LaunchStep(c: Config, s: State, t: nat)
    requires s in Here(c, t) && CanAdvance(c, s, t) && s.tasks[t].pc == Launch
    requires XferMode(c, Cur(s, t), s.tasks[t].done) != Final
    ensures Advance(c, s, t) in Here(c, t)
  {
    Launched(c, s, t);
    FlyingAtPc(c, Advance(c, s, t), t);
  }

  lemma ClearTxStep(c: Config, s: State, t: nat)
    requires s in Here(c, t) && CanAdvance(c, s, t) && s.tasks[t].pc == ClearTx
    ensures Advance(c, s, t) in Here(c, t)
  {
    assert WaitingNb(c, Advance(c, s, t), t);
  }

  lemma WaitNbStep(c: Config, s: State, t: nat)
    requires s in Here(c, t) && CanAdvance(c, s, t) && s.tasks[t].pc == WaitNb
    ensures Advance(c, s, t) in Here(c, t)
  {
    var a, k := Cur(s, t), s.tasks[t];
    SameMid(c, s, Advance(c, s, t), a, k.buf, k.done + XferLen(c, a, k.done));
  }

  lemma AlignedNext(c: Config, a: Access, done: nat)
    requires ValidConfig(c) && done < FrameLen(a) && Aligned(c, a, done)
    ensures 0 < XferLen(c, a, done) && done + XferLen(c, a, done) <= FrameLen(a)
    ensures Aligned(c, a, done + XferLen(c, a, done))
  {
  }

  /** The loop test lands on a program point whose demands hold there. */
  lemma LoopAtPc(c: Config, s: State, t: nat)
    requires Sized(c, s) && LogOk(c, s.log) && HasAccess(s, t) && |s.log| > 0 && s.log[|s.log| - 1].a == Cur(s, t)
    requires var k, a := s.tasks[t], Cur(s, t);
             && k.done <= FrameLen(a) && k.pc == LoopPc(c, a, k.done)
             && s.xfer == None && s.nb[a.dev] == 1 && Mid(c, s, a, k.buf, k.done)
             && (k.done == FrameLen(a) && a.noblock ==> Short(c, a) && !a.h.write)
    ensures AtPc(c, s, t)
  {
  }

  /** After a transfer the loop decides what to do with the rest of the frame. */
  lemma WokenTurn(c: Config, s: State, t: nat)
    requires s in Here(c, t) && CanAdvance(c, s, t) && s.tasks[t].pc == GiveNb
    ensures Advance(c, s, t) in Here(c, t)
  {
    var s', a, k := Advance(c, s, t), Cur(s, t), s.tasks[t];
    AlignedNext(c, a, k.done);
    SameMid(c, s, s', a, k.buf, k.done + XferLen(c, a, k.done));
    LoopAtPc(c, s', t);
    StaysHere(c, s, s', t);
  }

  lemma BlockedTurn(c: Config, s: State, t: nat)
    requires s in Here(c, t) && CanAdvance(c, s, t) && s.tasks[t].pc == WaitBlk
    ensures Advance(c, s, t) in Here(c, t)
  {
    var s', a, k := Advance(c, s, t), Cur(s, t), s.tasks[t];
    AlignedNext(c, a, k.done);
    SameMid(c, s, s', a, k.buf, k.done + XferLen(c, a, k.done));
    LoopAtPc(c, s', t);
    StaysHere(c, s, s', t);
  }

  /** A complete frame leaves the chip where the serial order wants it. */
  lemma FrameTaken(c: Config, s: State, a: Access, buf: seq<byte>)
    requires Sized(c, s) && LogOk(c, s.log) && |s.log| > 0 && s.log[|s.log| - 1].a == a
    requires a.dev < |c.mems| && Mid(c, s, a, buf, FrameLen(a))
    ensures s.chips[a.dev].mem == Serial(c, s.log, a.dev)
    ensures IsTrainOf(a, Train(a.dev, s.chips[a.dev].clocked))
    ensures !a.h.write && !(a.noblock && Short(c, a)) ==> buf == Expected(c, s.log, |s.log| - 1)
    ensures !a.h.write && a.noblock && Short(c, a) ==>
              s.txbufs[a.dev][HLen(a)..FrameLen(a)] == Expected(c, s.log, |s.log| - 1)
  {
    if a.h.write {
      assert a.data[..FrameLen(a) - HLen(a)] == a.data;
      assert a.data == [] ==> WriteBytes(Serial(c, s.log[..|s.log| - 1], a.dev), DataAddr(a), a.data)
                              == Serial(c, s.log[..|s.log| - 1], a.dev);
    }
  }

  lemma SelectHighStep(c: Config, s: State, t: nat)
    requires s in Here(c, t) && CanAdvance(c, s, t) && s.tasks[t].pc == SelectHigh
    ensures Advance(c, s, t) in Here(c, t)
  {
    FrameTaken(c, s, Cur(s, t), s.tasks[t].buf);
    assert QuietDev(c, Advance(c, s, t), Cur(s, t).dev);
  }

  lemma TrainEnds(c: Config, s: State, t: nat)
    requires s in Here(c, t) && CanAdvance(c, s, t) && s.tasks[t].pc == SelectHigh && s.hold == Driving(t)
    ensures TrainStep(s, Advance(c, s, t))
  {
    FrameTaken(c, s, Cur(s, t), s.tasks[t].buf);
  }

  lemma CopyOutStep(c: Config, s: State, t: nat)
    requires s in Here(c, t) && CanAdvance(c, s, t) && s.tasks[t].pc == CopyOut
    ensures Advance(c, s, t) in Here(c, t)
  {
    assert QuietDev(c, Advance(c, s, t), Cur(s, t).dev);
  }

  /** Every other step of the holder leaves the trains as they are. */
  lemma SameTrains(c: Config, s: State, t: nat)
    requires Sized(c, s) && CanAdvance(c, s, t)
    requires s.tasks[t].pc !in {Start, Reacquire, Test, PassOn, Release, SelectHigh}
    requires s.hold == Driving(t) && Advance(c, s, t).hold == s.hold
    ensures TrainStep(s, Advance(c, s, t))
  {
    var s' := Advance(c, s, t);
    assert |s'.tasks| == |s.tasks| && s'.trains == s.trains;
    assert s.tasks[t].pc == CopyOut <==> s'.tasks[t].pc in {CopyOut, Release};
  }

  lemma EarlyLocal(c: Config, s: State, t: nat)
    requires s in Here(c, t) && CanAdvance(c, s, t)
    requires s.tasks[t].pc in {SetCb, SelectLow, Fill, TakeNb, ClearTx, WaitNb}
    ensures Local(c, s, Advance(c, s, t), t)
  {
  }

  lemma LateLocal(c: Config, s: State, t: nat)
    requires s in Here(c, t) && CanAdvance(c, s, t)
    requires s.tasks[t].pc in {GiveNb, WaitBlk, SelectHigh, CopyOut}
    ensures Local(c, s, Advance(c, s, t), t)
  {
  }

  lemma LaunchLocal(c: Config, s: State, t: nat)
    requires s in Here(c, t) && CanAdvance(c, s, t) && s.tasks[t].pc == Launch
    requires XferMode(c, Cur(s, t), s.tasks[t].done) != Final
    ensures Local(c, s, Advance(c, s, t), t)
  {
  }

  /** The holder moves on within its access. */
  lemma DriveLocal(c: Config, s: State, t: nat)
    requires s in Here(c, t) && CanAdvance(c, s, t) && s.tasks[t].pc != Release
    requires s.tasks[t].pc == Launch ==> XferMode(c, Cur(s, t), s.tasks[t].done) != Final
    ensures Local(c, s, Advance(c, s, t), t) && Advance(c, s, t) in Here(c, t)
  {
    if s.tasks[t].pc == Launch {
      LaunchLocal(c, s, t);
    } else if s.tasks[t].pc in {GiveNb, WaitBlk, SelectHigh, CopyOut} {
      LateLocal(c, s, t);
    } else {
      EarlyLocal(c, s, t);
    }
    match s.tasks[t].pc
    case SetCb => SetCbStep(c, s, t);
    case SelectLow => SelectLowStep(c, s, t);
    case Fill => FillStep(c, s, t);
    case TakeNb => TakeNbStep(c, s, t);
    case Launch => LaunchStep(c, s, t);
    case ClearTx => ClearTxStep(c, s, t);
    case WaitNb => WaitNbStep(c, s, t);
    case GiveNb => WokenTurn(c, s, t);
    case WaitBlk => BlockedTurn(c, s, t);
    case SelectHigh => SelectHighStep(c, s, t);
    case CopyOut => CopyOutStep(c, s, t);
    case _ =>
  }

  lemma DriveInv(c: Config, s: State, t: nat)
    requires s in Inv(c) && s.hold == Driving(t) && CanAdvance(c, s, t) && s.tasks[t].pc != Release
    requires s.tasks[t].pc == Launch ==> XferMode(c, Cur(s, t), s.tasks[t].done) != Final
    ensures Advance(c, s, t) in Inv(c)
  {
    DriveLocal(c, s, t);
    if s.tasks[t].pc == SelectHigh {
      TrainEnds(c, s, t);
    } else {
      SameTrains(c, s, t);
    }
    StillDriving(c, s, Advance(c, s, t), t);
  }

  // ------------------------------------------------- letting go of the bus

  lemma DetachStep(c: Config, s: State, t: nat)
    requires s in Here(c, t) && CanAdvance(c, s, t) && s.tasks[t].pc == Launch
    requires OthersQuiet(c, s, Cur(s, t).dev) && OthersParked(c, s, t) && s.hold == Driving(t)
    requires XferMode(c, Cur(s, t), s.tasks[t].done) == Final
    ensures var s' := Advance(c, s, t);
            && s' in Afloat(c) && s'.hold == Detached && s'.spiSem == s.spiSem
            && s'.log == s.log && s'.trains == s.trains && s'.results == s.results
  {
    var s' := Advance(c, s, t);
    Launched(c, s, t);
    KeepQuiet(c, s, s', Cur(s, t).dev);
    KeepParked(c, s, s', t);
    assert Parked(c, s', t);
  }

  lemma DetachInv(c: Config, s: State, t: nat)
    requires s in Inv(c) && s.hold == Driving(t) && CanAdvance(c, s, t) && s.tasks[t].pc == Launch
    requires XferMode(c, Cur(s, t), s.tasks[t].done) == Final
    ensures Advance(c, s, t) in Inv(c)
  {
    DetachStep(c, s, t);
    AfloatInv(c, s, Advance(c, s, t));
  }

  lemma AfloatInv(c: Config, s: State, s': State)
    requires s in Inv(c) && Open(s) && s' in Afloat(c) && s'.hold == Detached && s'.spiSem == 0
    requires s'.log == s.log && s'.trains == s.trains && s'.results == s.results
    ensures s' in Inv(c)
  {
  }

  lemma NewResult(c: Config, s: State, s': State, r: Result)
    requires LogOk(c, s.log) && ResultsOk(c, s) && s'.log == s.log
    requires s'.results == s.results + [r] && ResultOk(c, s.log, r)
    ensures ResultsOk(c, s')
  {
    forall i | 0 <= i < |s'.results|
      ensures ResultOk(c, s'.log, s'.results[i])
    {
      assert i < |s.results| ==> ResultOk(c, s.log, s.results[i]);
    }
  }

  lemma Released(c: Config, s: State, t: nat)
    requires s in Here(c, t) && CanAdvance(c, s, t) && s.tasks[t].pc == Release && s.hold == Driving(t)
    requires OthersQuiet(c, s, Cur(s, t).dev) && OthersParked(c, s, t)
    ensures var s' := Advance(c, s, t);
            Sized(c, s') && LogOk(c, s'.log) && AllQuiet(c, s') && OthersParked(c, s', |s'.tasks|)
  {
    var s', a := Advance(c, s, t), Cur(s, t);
    KeepQuiet(c, s, s', a.dev);
    assert QuietDev(c, s, a.dev) && QuietDev(c, s', a.dev);
    KeepParked(c, s, s', t);
  }

  lemma ReleaseResults(c: Config, s: State, t: nat)
    requires s in Here(c, t) && CanAdvance(c, s, t) && s.tasks[t].pc == Release && ResultsOk(c, s)
    ensures ResultsOk(c, Advance(c, s, t))
  {
    if !Cur(s, t).h.write {
      NewResult(c, s, Advance(c, s, t), Result(t, s.tasks[t].ticket, s.tasks[t].buf));
    }
  }

  lemma ReleaseStep(c: Config, s: State, t: nat)
    requires s in Inv(c) && s.hold == Driving(t) && CanAdvance(c, s, t) && s.tasks[t].pc == Release
    ensures Advance(c, s, t) in Inv(c)
  {
    Released(c, s, t);
    ReleaseResults(c, s, t);
  }

  /** A wait that got the semaphore finds the count at zero. */
  lemma TestStep(c: Config, s: State, t: nat)
    requires s in Inv(c) && s.hold == Passing(t) && CanAdvance(c, s, t) && s.tasks[t].pc == Test
    ensures Advance(c, s, t) in Inv(c)
  {
    var s' := Advance(c, s, t);
    assert OthersQuiet(c, s, |c.mems|);
    KeepQuiet(c, s, s', |c.mems|);
    KeepParked(c, s, s', t);
  }

  lemma PassOnStep(c: Config, s: State, t: nat)
    requires s in Inv(c) && s.hold == Passing(t) && CanAdvance(c, s, t) && s.tasks[t].pc == PassOn
    ensures Advance(c, s, t) in Inv(c)
  {
    var s', k := Advance(c, s, t), s.tasks[t];
    assert OthersQuiet(c, s, |c.mems|);
    KeepQuiet(c, s, s', |c.mems|);
    KeepParked(c, s, s', t);
    if k.prog[0].Do? {
      NewResult(c, s, s', Result(t, k.ticket, k.buf));
    }
  }

  // ----------------------------------------------------- one byte crosses

  lemma MosiByte(c: Config, s: State, x: Xfer, buf: seq<byte>)
    requires Sized(c, s) && LogOk(c, s.log) && |s.log| > 0 && s.log[|s.log| - 1].a == x.a
    requires s.xfer == Some(x) && x.pos < x.len && Flying(c, s, x.t, x.a, buf, x.base)
    requires x.base + x.pos < FrameLen(x.a) && (x.base + x.pos < HLen(x.a) || x.a.h.write)
    ensures Mosi(c, s, x) == Frame(x.a)[x.base + x.pos]
  {
  }

  /** The byte that comes back is the expected one while read data cross. */
  lemma MisoByte(c: Config, s: State, x: Xfer, buf: seq<byte>, miso: byte)
    requires Sized(c, s) && LogOk(c, s.log) && |s.log| > 0 && s.log[|s.log| - 1].a == x.a
    requires s.xfer == Some(x) && Flying(c, s, x.t, x.a, buf, x.base) && OthersQuiet(c, s, x.a.dev)
    requires CanClock(c, s, miso) && !x.a.h.write && HLen(x.a) <= x.base + x.pos < FrameLen(x.a)
    ensures miso == Expected(c, s.log, |s.log| - 1)[x.base + x.pos - HLen(x.a)]
  {
    var d := x.a.dev;
    forall e | 0 <= e < |s.high|
      ensures s.high[e] <==> e != d
    {
      if e != d {
        assert QuietDev(c, s, e);
      }
    }
    assert OnlyLow(s, d);
    DrivenByte(x.a, Serial(c, s.log[..|s.log| - 1], d), s.chips[d]);
  }

  /** What clocking a byte does not touch. */
  lemma ClockKeeps(c: Config, s: State, miso: byte)
    requires Sized(c, s) && CanClock(c, s, miso)
    ensures var s', t := Clock(c, s, miso), s.xfer.value.t;
            && Sized(c, s')
            && s'.spiSem == s.spiSem && s'.nb == s.nb && s'.high == s.high && s'.cb == s.cb && s'.log == s.log
            && s'.trains == s.trains && s'.results == s.results && s'.hold == s.hold
            && s'.xfer == Some(s.xfer.value.(pos := s.xfer.value.pos + 1))
            && |s'.chips| == |s.chips|
            && (forall e :: 0 <= e < |s.chips| ==>
                  s'.chips[e] == if s.high[e] then s.chips[e] else Feed(s.chips[e], Mosi(c, s, s.xfer.value)))
            && |s'.tasks| == |s.tasks| && (forall u :: 0 <= u < |s.tasks| && u != t ==> s'.tasks[u] == s.tasks[u])
            && s'.tasks[t] == s.tasks[t].(buf := s'.tasks[t].buf) && |s'.tasks[t].buf| == |s.tasks[t].buf|
  {
  }

  /** A byte of a short frame: what comes back goes to the scratch buffer. */
  lemma ShortBuffer(c: Config, s: State, x: Xfer, miso: byte)
    requires ValidConfig(c) && Sized(c, s) && s.xfer == Some(x) && CanClock(c, s, miso)
    requires x.a.dev < |c.mems| && x.a.noblock && Short(c, x.a) && x.base == 0 && x.len <= FrameLen(x.a)
    ensures var s' := Clock(c, s, miso);
            && Sized(c, s') && s'.log == s.log
            && s'.txbufs[x.a.dev] == s.txbufs[x.a.dev][x.pos := miso]
  {
  }

  lemma ClockMovesShort(c: Config, s: State, x: Xfer, miso: byte)
    requires ValidConfig(c) && Sized(c, s) && LogOk(c, s.log) && |s.log| > 0 && s.log[|s.log| - 1].a == x.a
    requires s.xfer == Some(x) && CanClock(c, s, miso) && OthersQuiet(c, s, x.a.dev)
    requires x.t < |s.tasks| && Flying(c, s, x.t, x.a, s.tasks[x.t].buf, x.base) && x.a.noblock && Short(c, x.a)
    requires x.base + x.len <= FrameLen(x.a)
    ensures var s' := Clock(c, s, miso);
            && Sized(c, s') && s'.log == s.log && Moved(c, s', x.a, s'.tasks[x.t].buf, x.base + x.pos + 1)
  {
    ShortBuffer(c, s, x, miso);
    if !x.a.h.write && x.pos >= HLen(x.a) {
      MisoByte(c, s, x, s.tasks[x.t].buf, miso);
    }
    OneByteMoved(c, s, Clock(c, s, miso), x.a, s.tasks[x.t].buf, x.pos, miso, Clock(c, s, miso).tasks[x.t].buf);
  }

  /** On the short path the byte goes to the scratch buffer. */
  lemma OneByteMoved(c: Config, s: State, s': State, a: Access, buf: seq<byte>, n: nat, miso: byte, buf': seq<byte>)
    requires Sized(c, s) && LogOk(c, s.log) && |s.log| > 0 && s.log[|s.log| - 1].a == a && a.noblock && Short(c, a)
    requires Sized(c, s') && s'.log == s.log && n < FrameLen(a) && Moved(c, s, a, buf, n)
    requires s'.txbufs[a.dev] == s.txbufs[a.dev][n := miso]
    requires !a.h.write && n >= HLen(a) ==> miso == Expected(c, s.log, |s.log| - 1)[n - HLen(a)]
    ensures Moved(c, s', a, buf', n + 1)
  {
  }

  /** A byte outside the short path: read data go to the caller's buffer. */
  lemma ClockMovesLong(c: Config, s: State, x: Xfer, miso: byte)
    requires ValidConfig(c) && Sized(c, s) && LogOk(c, s.log) && |s.log| > 0 && s.log[|s.log| - 1].a == x.a
    requires s.xfer == Some(x) && CanClock(c, s, miso) && OthersQuiet(c, s, x.a.dev)
    requires x.t < |s.tasks| && Flying(c, s, x.t, x.a, s.tasks[x.t].buf, x.base) && !(x.a.noblock && Short(c, x.a))
    requires x.base + x.len <= FrameLen(x.a)
    ensures var s' := Clock(c, s, miso);
            && Sized(c, s') && s'.log == s.log && Moved(c, s', x.a, s'.tasks[x.t].buf, x.base + x.pos + 1)
  {
    if !x.a.h.write && x.base + x.pos >= HLen(x.a) {
      MisoByte(c, s, x, s.tasks[x.t].buf, miso);
    }
  }

  lemma ClockMoves(c: Config, s: State, x: Xfer, miso: byte)
    requires ValidConfig(c) && Sized(c, s) && LogOk(c, s.log) && |s.log| > 0 && s.log[|s.log| - 1].a == x.a
    requires s.xfer == Some(x) && CanClock(c, s, miso) && OthersQuiet(c, s, x.a.dev)
    requires x.t < |s.tasks| && Flying(c, s, x.t, x.a, s.tasks[x.t].buf, x.base)
    ensures var s' := Clock(c, s, miso);
            && Sized(c, s') && s'.log == s.log && Moved(c, s', x.a, s'.tasks[x.t].buf, x.base + x.pos + 1)
  {
    AlignedNext(c, x.a, x.base);
    if x.a.noblock && Short(c, x.a) {
      ClockMovesShort(c, s, x, miso);
    } else {
      ClockMovesLong(c, s, x, miso);
    }
  }

  lemma ClockFlies(c: Config, s: State, x: Xfer, miso: byte)
    requires ValidConfig(c) && Sized(c, s) && LogOk(c, s.log) && |s.log| > 0 && s.log[|s.log| - 1].a == x.a
    requires s.xfer == Some(x) && CanClock(c, s, miso) && OthersQuiet(c, s, x.a.dev)
    requires x.t < |s.tasks| && Flying(c, s, x.t, x.a, s.tasks[x.t].buf, x.base)
    ensures var s' := Clock(c, s, miso);
            && Sized(c, s') && s'.log == s.log && Flying(c, s', x.t, x.a, s'.tasks[x.t].buf, x.base)
  {
    var d := x.a.dev;
    AlignedNext(c, x.a, x.base);
    ClockMoves(c, s, x, miso);
    ClockKeeps(c, s, miso);
    if x.base + x.pos < HLen(x.a) || x.a.h.write {
      MosiByte(c, s, x, s.tasks[x.t].buf);
    }
    FeedKeeps(x.a, Serial(c, s.log[..|s.log| - 1], d), s.chips[d], Mosi(c, s, x));
  }

  lemma ClockOthers(c: Config, s: State, miso: byte, d: nat)
    requires Sized(c, s) && CanClock(c, s, miso) && OthersQuiet(c, s, d)
    ensures var s' := Clock(c, s, miso);
            Sized(c, s') && forall e :: 0 <= e < |c.mems| && e != d ==> s'.chips[e] == s.chips[e]
  {
    ClockKeeps(c, s, miso);
    forall e | 0 <= e < |c.mems| && e != d
      ensures Clock(c, s, miso).chips[e] == s.chips[e]
    {
      assert QuietDev(c, s, e);
    }
  }

  /** In the middle of an access a transfer in flight is the holder's. */
  lemma FlightAtPc(c: Config, s: State, t: nat)
    requires s in Here(c, t) && s.xfer.Some?
    ensures var x := s.xfer.value;
            && x.t == t && x.a == Cur(s, t) && s.tasks[t].done == x.base
            && (s.tasks[t].pc == WaitBlk || s.tasks[t].pc == WaitNb || s.tasks[t].pc == ClearTx)
            && Flying(c, s, t, x.a, s.tasks[t].buf, x.base)
  {
  }

  /** Whoever holds the bus, a transfer in flight is its own and the frame's next. */
  lemma InFlight(c: Config, s: State)
    requires s in Inv(c) && s.xfer.Some?
    ensures s.hold.Driving? || s.hold.Detached?
    ensures var x := s.xfer.value;
            && |s.log| > 0 && s.log[|s.log| - 1] == Entry(x.t, x.a)
            && OthersQuiet(c, s, x.a.dev) && Flying(c, s, x.t, x.a, s.tasks[x.t].buf, x.base)
    ensures s.hold.Driving? ==>
              var x := s.xfer.value;
              && s.hold.t == x.t && s in Here(c, x.t) && Cur(s, x.t) == x.a && s.tasks[x.t].done == x.base
              && (s.tasks[x.t].pc == WaitBlk || s.tasks[x.t].pc == WaitNb || s.tasks[x.t].pc == ClearTx)
    ensures s.hold.Detached? ==> s in Afloat(c)
  {
    if s.hold.Driving? {
      FlightAtPc(c, s, s.hold.t);
    }
  }

  lemma ClockLocal(c: Config, s: State, miso: byte)
    requires s.xfer.Some? && s in Here(c, s.xfer.value.t) && CanClock(c, s, miso)
    requires Cur(s, s.xfer.value.t) == s.xfer.value.a && OthersQuiet(c, s, s.xfer.value.a.dev)
    ensures Local(c, s, Clock(c, s, miso), s.xfer.value.t)
  {
    ClockKeeps(c, s, miso);
    ClockOthers(c, s, miso, s.xfer.value.a.dev);
  }

  lemma ClockHere(c: Config, s: State, miso: byte)
    requires s.xfer.Some? && s in Here(c, s.xfer.value.t) && CanClock(c, s, miso)
    requires var x := s.xfer.value;
             && Cur(s, x.t) == x.a && s.tasks[x.t].done == x.base && OthersQuiet(c, s, x.a.dev)
             && (s.tasks[x.t].pc == WaitBlk || s.tasks[x.t].pc == WaitNb || s.tasks[x.t].pc == ClearTx)
    ensures Clock(c, s, miso) in Here(c, s.xfer.value.t)
  {
    var x := s.xfer.value;
    ClockKeeps(c, s, miso);
    ClockFlies(c, s, x, miso);
    FlyingAtPc(c, Clock(c, s, miso), x.t);
    StaysHere(c, s, Clock(c, s, miso), x.t);
  }

  lemma ClockDriving(c: Config, s: State, miso: byte)
    requires s in Inv(c) && CanClock(c, s, miso) && s.hold.Driving?
    ensures Clock(c, s, miso) in Inv(c)
  {
    InFlight(c, s);
    ClockHere(c, s, miso);
    ClockLocal(c, s, miso);
    ClockKeeps(c, s, miso);
    StillDriving(c, s, Clock(c, s, miso), s.hold.t);
  }

  lemma ClockAfloat(c: Config, s: State, miso: byte)
    requires s in Afloat(c) && CanClock(c, s, miso) && s.hold == Detached
    ensures Clock(c, s, miso) in Afloat(c)
  {
    var s', x := Clock(c, s, miso), s.xfer.value;
    ClockKeeps(c, s, miso);
    ClockFlies(c, s, x, miso);
    ClockOthers(c, s, miso, x.a.dev);
    KeepQuiet(c, s, s', x.a.dev);
    KeepParked(c, s, s', x.t);
    assert Parked(c, s, x.t);
    assert Parked(c, s', x.t);
  }

  lemma ClockDetached(c: Config, s: State, miso: byte)
    requires s in Inv(c) && CanClock(c, s, miso) && s.hold.Detached?
    ensures Clock(c, s, miso) in Inv(c)
  {
    ClockAfloat(c, s, miso);
    ClockKeeps(c, s, miso);
  }

  // ------------------------------------------------------------- callback

  /** Before its access is over the callback finds the semaphore taken. */
  lemma CallbackFinds(c: Config, s: State)
    requires s.xfer.Some? && s in Here(c, s.xfer.value.t) && CanComplete(c, s)
    requires var x := s.xfer.value;
             && Cur(s, x.t) == x.a && s.tasks[x.t].done == x.base
             && (s.tasks[x.t].pc == WaitNb || s.tasks[x.t].pc == ClearTx)
    ensures var d := s.xfer.value.a.dev;
            s.nb[d] == 0 && Callback(c, s) == s.(xfer := None, nb := s.nb[d := 1])
  {
  }

  lemma CallbackHere(c: Config, s: State)
    requires s.xfer.Some? && s in Here(c, s.xfer.value.t) && CanComplete(c, s)
    requires var x := s.xfer.value;
             && Cur(s, x.t) == x.a && s.tasks[x.t].done == x.base
             && (s.tasks[x.t].pc == WaitNb || s.tasks[x.t].pc == ClearTx)
    ensures Local(c, s, Callback(c, s), s.xfer.value.t) && Callback(c, s) in Here(c, s.xfer.value.t)
  {
    var s', x := Callback(c, s), s.xfer.value;
    CallbackFinds(c, s);
    assert Flying(c, s, x.t, x.a, s.tasks[x.t].buf, x.base);
    SameMid(c, s, s', x.a, s.tasks[x.t].buf, x.base + x.len);
    assert WaitingNb(c, s', x.t);
    StaysHere(c, s, s', x.t);
  }

  lemma CallbackWakes(c: Config, s: State)
    requires s in Inv(c) && CanComplete(c, s) && s.hold.Driving?
    ensures Callback(c, s) in Inv(c)
  {
    InFlight(c, s);
    CallbackHere(c, s);
    StillDriving(c, s, Callback(c, s), s.hold.t);
  }

  lemma CallbackQuiet(c: Config, s: State)
    requires s in Afloat(c) && CanComplete(c, s)
    ensures var s', e := Callback(c, s), s.log[|s.log| - 1];
            && Sized(c, s') && AllQuiet(c, s') && s'.trains == s.trains + [Train(e.a.dev, s.chips[e.a.dev].clocked)]
            && IsTrainOf(e.a, s'.trains[|s.trains|])
            && (!e.a.h.write ==> s.tasks[e.t].buf == Expected(c, s.log, |s.log| - 1))
  {
    var s', e := Callback(c, s), s.log[|s.log| - 1];
    FrameTaken(c, s, e.a, s.tasks[e.t].buf);
    KeepQuiet(c, s, s', e.a.dev);
    assert QuietDev(c, s', e.a.dev);
  }

  lemma CallbackParks(c: Config, s: State)
    requires s in Inv(c) && CanComplete(c, s) && s.hold.Detached?
    ensures forall u :: 0 <= u < |s.tasks| ==> Parked(c, Callback(c, s), u)
  {
    var s' := Callback(c, s);
    forall u | 0 <= u < |s'.tasks|
      ensures Parked(c, s', u)
    {
      assert Parked(c, s, u);
    }
  }

  lemma CallbackCloses(c: Config, s: State)
    requires s in Inv(c) && CanComplete(c, s) && s.hold.Detached?
    ensures Callback(c, s) in Inv(c)
  {
    CallbackQuiet(c, s);
    CallbackParks(c, s);
  }
}
