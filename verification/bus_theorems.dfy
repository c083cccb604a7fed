/** What the shared bus guarantees over whole runs. */
module BusTheorems {
  import opened Codec
  import opened Common
  import opened SpiBus
  import opened BusInvariant
  import opened BusSteps
  import BusResults

  // ------------------------------------------------------- all reachable

  lemma StepInv(c: Config, s: State, l: Label)
    requires s in Inv(c) && Enabled(c, s, l)
    ensures Apply(c, s, l) in Inv(c)
  {
    match l
    case ClockStep(miso) =>
      InFlight(c, s);
      if s.hold.Driving? { ClockDriving(c, s, miso); } else { ClockDetached(c, s, miso); }
    case CallbackStep =>
      InFlight(c, s);
      if s.hold.Driving? { CallbackWakes(c, s); } else { CallbackCloses(c, s); }
    case TaskStep(t) => AdvanceInv(c, s, t);
  }

  lemma AdvanceInv(c: Config, s: State, t: nat)
    requires s in Inv(c) && CanAdvance(c, s, t)
    ensures Advance(c, s, t) in Inv(c)
  {
    if s.tasks[t].pc == Start {
      if s.tasks[t].prog[0].Do? { BeginAccess(c, s, t); } else { BeginWait(c, s, t); }
    } else if s.tasks[t].pc == Reacquire {
      TakeAgain(c, s, t);
    } else {
      Holder(c, s, t);
      if s.tasks[t].pc == Test {
        TestStep(c, s, t);
      } else if s.tasks[t].pc == PassOn {
        PassOnStep(c, s, t);
      } else if s.tasks[t].pc == Release {
        ReleaseStep(c, s, t);
      } else if s.tasks[t].pc == Launch && XferMode(c, Cur(s, t), s.tasks[t].done) == Final {
        DetachInv(c, s, t);
      } else {
        DriveInv(c, s, t);
      }
    }
  }

  lemma {:induction false} Reachable(c: Config, programs: seq<seq<Op>>, run: seq<State>, i: nat)
    requires ValidConfig(c) && ProgramsOk(c, programs) && IsRun(c, programs, run) && i < |run|
    ensures run[i] in Inv(c)
  {
    if i == 0 {
      InitInv(c, programs);
    } else {
      Reachable(c, programs, run, i - 1);
      assert Follows(c, run[i - 1], run[i]);
      var l :| Enabled(c, run[i - 1], l) && run[i] == Apply(c, run[i - 1], l);
      StepInv(c, run[i - 1], l);
    }
  }

  // -------------------------------------------------------- linearizable

  lemma HereMemory(c: Config, s: State, t: nat)
    requires s in Here(c, t) && s.tasks[t].pc != CopyOut && s.tasks[t].pc != Release
    ensures s.high[Cur(s, t).dev] ==>
              s.chips[Cur(s, t).dev].mem == Serial(c, s.log[..|s.log| - 1], Cur(s, t).dev)
  {
  }

  /** The device being accessed is untouched as long as its select is high. */
  lemma OpenMemory(c: Config, s: State)
    requires s in Inv(c) && Open(s)
    ensures |s.log| > 0 && s.log[|s.log| - 1].a.dev < |c.mems| && OthersQuiet(c, s, s.log[|s.log| - 1].a.dev)
    ensures var d := s.log[|s.log| - 1].a.dev;
            s.high[d] ==> s.chips[d].mem == Serial(c, s.log[..|s.log| - 1], d)
  {
    if s.hold.Driving? {
      HereMemory(c, s, s.hold.t);
    }
  }

  /** Every device whose select is high holds the serial memory of the accesses whose
      transaction is over, which are all of them but perhaps the last. */
  lemma SerialMemories(c: Config, s: State)
    requires s in Inv(c)
    ensures |s.trains| <= |s.log| && (s.spiSem > 0 ==> |s.trains| == |s.log|)
    ensures forall d :: 0 <= d < |c.mems| && s.high[d] ==> s.chips[d].mem == Serial(c, s.log[..|s.trains|], d)
  {
    if Open(s) {
      OpenMemory(c, s);
      var n, e := |s.log| - 1, s.log[|s.log| - 1];
      assert s.log == s.log[..n] + [e];
      forall d | 0 <= d < |c.mems| && s.high[d]
        ensures s.chips[d].mem == Serial(c, s.log[..n], d)
      {
        SerialAppend(c, s.log[..n], e, d);
        assert d != e.a.dev ==> QuietDev(c, s, d);
      }
    } else {
      assert s.log[..|s.log|] == s.log;
      ClosedQuiet(c, s);
      forall d | 0 <= d < |c.mems|
        ensures s.chips[d].mem == Serial(c, s.log, d)
      {
        assert QuietDev(c, s, d);
      }
    }
  }

  lemma ClosedQuiet(c: Config, s: State)
    requires s in Inv(c) && !Open(s)
    ensures OthersQuiet(c, s, |c.mems|)
  {
    if s.hold.Driving? {
      var d := Cur(s, s.hold.t).dev;
      assert QuietDev(c, s, d);
      assert OthersQuiet(c, s, d);
    }
  }

  /** In every state of every run: each read begun is either still pending or has been
      answered exactly once, by the task that made it, with what the serial memory held
      when its turn came; each device whose select is high holds the serial
      memory, and while the bus is free all do, for everything begun so far. */
  lemma RegisterFileIsAtomic(c: Config, programs: seq<seq<Op>>, run: seq<State>, i: nat)
    requires ValidConfig(c) && ProgramsOk(c, programs) && IsRun(c, programs, run) && i < |run|
    ensures var s := run[i];
            && Sized(c, s) && LogOk(c, s.log)
            && (forall j :: 0 <= j < |s.results| ==>
                  ResultOk(c, s.log, s.results[j]) && s.log[s.results[j].ticket].t == s.results[j].t)
            && (forall ticket :: 0 <= ticket < |s.log| ==> BusResults.Answered(s, ticket))
            && |s.trains| <= |s.log|
            && (forall d :: 0 <= d < |c.mems| && s.high[d] ==>
                  s.chips[d].mem == Serial(c, s.log[..|s.trains|], d))
            && (s.spiSem > 0 ==> forall d :: 0 <= d < |c.mems| ==> s.chips[d].mem == Serial(c, s.log, d))
  {
    Reachable(c, programs, run, i);
    var s := run[i];
    SerialMemories(c, s);
    InvIsSafe(c, s);
    BusResults.EveryReadAnswered(c, programs, run, i);
    assert s.log[..|s.log|] == s.log;
  }

  // ---------------------------------------------------------- bus safety

  /** A short non-blocking frame goes out in one transfer; any other as its header, and then
      a blocking write's payload at once, any other payload in pieces as long as scratch
      buffer and transfer limit allow. */
  predicate InPieces(c: Config, x: Xfer)
    requires x.base < FrameLen(x.a)
  {
    x.len == if x.base > 0 && x.a.h.write && !x.a.noblock then FrameLen(x.a) - x.base
             else if x.base > 0 then Min(FrameLen(x.a) - x.base, Min(c.txbufSize, c.maxCnt))
             else if x.a.noblock && FrameLen(x.a) < Min(c.txbufSize, c.maxCnt) then FrameLen(x.a)
             else |Encode(x.a.h)|
  }

  ghost predicate BusSafe(c: Config, s: State) {
    && Sized(c, s) && s.spiSem <= 1 && (forall d :: 0 <= d < |s.nb| ==> s.nb[d] <= 1)
    && (forall d, e :: 0 <= d < |s.high| && 0 <= e < |s.high| && !s.high[d] && !s.high[e] ==> d == e)
    && (s.spiSem == 1 ==> s.xfer == None && forall d :: 0 <= d < |s.high| ==> s.high[d])
    && (s.xfer.Some? ==>
          var x := s.xfer.value;
          && !s.high[x.a.dev] && x.base + x.len <= FrameLen(x.a)
          && (x.a.noblock ==> s.cb == Some(x.a.dev) && x.len <= c.txbufSize)
          && (x.a.noblock && x.base > 0 ==> x.len <= c.maxCnt)
          && x.base < FrameLen(x.a) && InPieces(c, x))
  }

  lemma OneLow(c: Config, s: State) returns (dev: nat)
    requires s in Inv(c)
    ensures OthersQuiet(c, s, dev) && (dev < |c.mems| ==> s.nb[dev] <= 1)
    ensures s.spiSem == 1 ==> dev == |c.mems|
  {
    match s.hold
    case Driving(t) =>
      dev := Cur(s, t).dev;
      assert s in Here(c, t);
    case Detached => dev := s.xfer.value.a.dev;
    case Free => dev := |c.mems|;
    case Passing(_) => dev := |c.mems|;
  }

  lemma XferSafe(c: Config, s: State)
    requires s in Inv(c) && s.xfer.Some?
    ensures var x := s.xfer.value;
            && !s.high[x.a.dev] && x.base + x.len <= FrameLen(x.a)
            && (x.a.noblock ==> s.cb == Some(x.a.dev) && x.len <= c.txbufSize)
            && (x.a.noblock && x.base > 0 ==> x.len <= c.maxCnt)
            && x.base < FrameLen(x.a) && InPieces(c, x)
  {
    InFlight(c, s);
    AlignedNext(c, s.xfer.value.a, s.xfer.value.base);
  }

  lemma InvIsSafe(c: Config, s: State)
    requires s in Inv(c)
    ensures BusSafe(c, s)
  {
    var dev := OneLow(c, s);
    forall d | 0 <= d < |c.mems|
      ensures s.nb[d] <= 1 && (d != dev ==> s.high[d])
    {
      if d != dev {
        assert QuietDev(c, s, d);
      }
    }
    if s.xfer.Some? {
      XferSafe(c, s);
    }
  }

  lemma BusIsSafe(c: Config, programs: seq<seq<Op>>, run: seq<State>, i: nat)
    requires ValidConfig(c) && ProgramsOk(c, programs) && IsRun(c, programs, run) && i < |run|
    ensures BusSafe(c, run[i])
  {
    Reachable(c, programs, run, i);
    InvIsSafe(c, run[i]);
  }

  // ------------------------------------------------- transaction closing

  /** Nobody but the callback closes this access. */
  predicate ClosedByCallback(c: Config, a: Access) {
    a.noblock && (a.h.write || !Short(c, a))
  }

  /** In every state of every run the select pulses so far carried the frames of the
      accesses in serial order, one each. */
  lemma OneTrainPerAccess(c: Config, programs: seq<seq<Op>>, run: seq<State>, i: nat)
    requires ValidConfig(c) && ProgramsOk(c, programs) && IsRun(c, programs, run) && i < |run|
    ensures var s := run[i];
            && |s.log| - 1 <= |s.trains| <= |s.log| && (s.spiSem == 1 ==> |s.trains| == |s.log|)
            && forall j :: 0 <= j < |s.trains| ==>
                 var a, train := s.log[j].a, s.trains[j];
                 && train.dev == a.dev && |train.bytes| == FrameLen(a)
                 && (if a.h.write then train.bytes == Encode(a.h) + a.data else Encode(a.h) <= train.bytes)
  {
    Reachable(c, programs, run, i);
    var s := run[i];
    forall j | 0 <= j < |s.trains|
      ensures var a, train := s.log[j].a, s.trains[j];
              if a.h.write then train.bytes == Encode(a.h) + a.data else Encode(a.h) <= train.bytes
    {
      var a, bytes := s.log[j].a, s.trains[j].bytes;
      assert IsTrainOf(a, s.trains[j]);
      if a.h.write {
        assert bytes == Frame(a);
      } else {
        forall m | 0 <= m < HLen(a)
          ensures bytes[m] == Encode(a.h)[m]
        {
          assert bytes[m] == Frame(a)[m];
        }
      }
    }
  }

  lemma CompletionWakes(c: Config, s: State)
    requires s in Inv(c) && CanComplete(c, s)
    requires var x := s.xfer.value; x.base + x.len < FrameLen(x.a) || !ClosedByCallback(c, x.a)
    ensures var x, s' := s.xfer.value, Callback(c, s);
            && s.nb[x.a.dev] == 0 && s' == s.(xfer := None, nb := s.nb[x.a.dev := 1])
            && s.hold == Driving(x.t) && (s.tasks[x.t].pc == WaitNb || s.tasks[x.t].pc == ClearTx)
  {
    InFlight(c, s);
    AlignedNext(c, s.xfer.value.a, s.xfer.value.base);
  }

  lemma CompletionCloses(c: Config, s: State)
    requires s in Inv(c) && CanComplete(c, s)
    requires var x := s.xfer.value; x.base + x.len >= FrameLen(x.a) && ClosedByCallback(c, x.a)
    ensures var s', d := Callback(c, s), s.xfer.value.a.dev;
            && s.nb[d] == 1 && s'.nb == s.nb && s.spiSem == 0 && s'.spiSem == 1
            && !s.high[d] && s'.high == s.high[d := true] && s'.xfer == None
            && s'.trains == s.trains + [Train(d, s.chips[d].clocked)]
  {
    InFlight(c, s);
    AlignedNext(c, s.xfer.value.a, s.xfer.value.base);
  }

  /** What a completion does: before the end of the frame, and at the end of a short
      read, it wakes the issuing task and nothing else; otherwise it closes the
      transaction and frees the bus. */
  lemma CompletionEffect(c: Config, s: State)
    requires s in Inv(c) && CanComplete(c, s)
    ensures var x, s' := s.xfer.value, Callback(c, s);
            var d := x.a.dev;
            if x.base + x.len < FrameLen(x.a) || !ClosedByCallback(c, x.a) then
              && s.nb[d] == 0 && s' == s.(xfer := None, nb := s.nb[d := 1])
              && s.hold == Driving(x.t) && (s.tasks[x.t].pc == WaitNb || s.tasks[x.t].pc == ClearTx)
            else
              && s.nb[d] == 1 && s'.nb == s.nb && s.spiSem == 0 && s'.spiSem == 1
              && !s.high[d] && s'.high == s.high[d := true] && s'.xfer == None
              && s'.trains == s.trains + [Train(d, s.chips[d].clocked)]
  {
    var x := s.xfer.value;
    if x.base + x.len < FrameLen(x.a) || !ClosedByCallback(c, x.a) {
      CompletionWakes(c, s);
    } else {
      CompletionCloses(c, s);
    }
  }

  /** Any step that raises a select raises that of the running access, when its whole
      frame is out: the callback for a non-blocking write or a long read, the task
      itself otherwise. */
  lemma WhoRaises(c: Config, s: State, l: Label, d: nat)
    requires s in Inv(c) && Enabled(c, s, l) && d < |c.mems|
    requires !s.high[d] && Sized(c, Apply(c, s, l)) && Apply(c, s, l).high[d]
    ensures |s.log| > 0 && var e := s.log[|s.log| - 1];
            && e.a.dev == d && |s.chips[d].clocked| == FrameLen(e.a)
            && l == (if ClosedByCallback(c, e.a) then CallbackStep else TaskStep(e.t))
  {
    match l
    case ClockStep(miso) => ClockKeeps(c, s, miso);
    case CallbackStep => CallbackRaises(c, s, d);
    case TaskStep(t) =>
      RaisesAt(c, s, t, d);
      Holder(c, s, t);
  }

  lemma CallbackRaises(c: Config, s: State, d: nat)
    requires s in Inv(c) && CanComplete(c, s) && d < |c.mems| && !s.high[d]
    requires |Callback(c, s).high| == |s.high| && Callback(c, s).high[d]
    ensures |s.log| > 0 && var a := s.log[|s.log| - 1].a;
            a.dev == d && |s.chips[d].clocked| == FrameLen(a) && ClosedByCallback(c, a)
  {
    InFlight(c, s);
    AlignedNext(c, s.xfer.value.a, s.xfer.value.base);
  }

  lemma RaisesAt(c: Config, s: State, t: nat, d: nat)
    requires Sized(c, s) && CanAdvance(c, s, t) && d < |c.mems|
    requires !s.high[d] && Sized(c, Advance(c, s, t)) && Advance(c, s, t).high[d]
    ensures s.tasks[t].pc == SelectHigh && Cur(s, t).dev == d
  {
  }
}
