/** Waits with a finite timeout. A wait that times out has not got the bus semaphore, but
    reads its count all the same and releases it when that is zero. */
module BusExpiry {
  import opened Codec
  import opened Common
  import opened SpiBus
  import opened BusInvariant
  import opened BusSteps
  import opened BusTheorems
  import Runs

  /** The wait of task `t` has timed out; next it reads the count. */
  predicate Late(s: State, t: nat) {
    Running(s, t) && s.tasks[t].pc == Test && s.hold != Passing(t)
  }

  /** Besides the steps of the bus, a wait that finds the bus taken may time out. */
  datatype Move = Step(l: Label) | TimeOut(t: nat)

  predicate CanMove(c: Config, s: State, m: Move)
    requires Sized(c, s)
  {
    match m
    case Step(l) => Enabled(c, s, l)
    case TimeOut(t) => Running(s, t) && s.tasks[t].pc == Start && s.tasks[t].prog[0].WaitBus? && s.spiSem == 0
  }

  function Make(c: Config, s: State, m: Move): State
    requires Sized(c, s) && CanMove(c, s, m)
  {
    match m
    case Step(l) => Apply(c, s, l)
    case TimeOut(t) => SetTask(s, t, s.tasks[t].(pc := Test))
  }

  /** A wait that has timed out reads the count as zero, and is to release the semaphore. */
  predicate ReadsZero(s: State, m: Move) {
    m.Step? && m.l.TaskStep? && Late(s, m.l.t) && s.spiSem == 0
  }

  /** Moves other than that one. */
  function Next(c: Config): (State, Move) -> Option<State> {
    (s: State, m: Move) =>
      if Sized(c, s) && CanMove(c, s, m) && !ReadsZero(s, m) then Some(Make(c, s, m)) else None
  }

  ghost predicate Leads(c: Config, s: State, t: State) {
    exists moves :: Runs.RunOf(Next(c), s, moves) == Some(t)
  }

  // --------------------------------------------- waits that time out in time

  /** With the waits that have timed out put back to their start. */
  function Punctual(s: State): State {
    s.(tasks := seq(|s.tasks|, t requires 0 <= t < |s.tasks| => PutBack(s, t)))
  }

  function PutBack(s: State, t: nat): Task
    requires t < |s.tasks|
  {
    if Late(s, t) then s.tasks[t].(pc := Start) else s.tasks[t]
  }

  ghost function TimedInv(c: Config): iset<State> {
    iset s: State |
      && Sized(c, s) && Punctual(s) in Inv(c)
      && forall t :: 0 <= t < |s.tasks| && Late(s, t) ==> s.tasks[t].prog[0].WaitBus?
  }

  lemma SizedPunctual(c: Config, s: State)
    ensures Sized(c, Punctual(s)) <==> Sized(c, s)
  {
    assert forall t :: 0 <= t < |s.tasks| ==> Punctual(s).tasks[t].prog == s.tasks[t].prog;
    assert forall t :: 0 <= t < |s.tasks| ==> s.tasks[t].prog == Punctual(s).tasks[t].prog;
  }

  /** The states differ in other tasks only. */
  predicate Alike(s: State, s': State, t: nat) {
    s == s'.(tasks := s.tasks) && t < |s.tasks| == |s'.tasks| && s.tasks[t] == s'.tasks[t]
  }

  /** The step of task `t` is the same from `s` and from `y`, and gives the bus to nobody
      but `t`. */
  predicate SameStep(c: Config, s: State, y: State, t: nat)
    requires Sized(c, s) && Sized(c, y) && CanAdvance(c, s, t)
  {
    && CanAdvance(c, y, t)
    && var s', y' := Advance(c, s, t), Advance(c, y, t);
       && |y'.tasks| == |y.tasks| && y'.tasks == y.tasks[t := y'.tasks[t]]
       && s' == y'.(tasks := s.tasks[t := y'.tasks[t]])
       && s'.hold in {s.hold, Free, Detached, Driving(t), Passing(t)}
       && (s'.tasks[t].pc == Test ==> s'.hold == Passing(t))
  }

  lemma SameOuter(c: Config, s: State, y: State, t: nat)
    requires Sized(c, s) && Sized(c, y) && Alike(s, y, t) && CanAdvance(c, s, t)
    requires s.tasks[t].pc in {Start, Reacquire, Test, PassOn, Release}
    ensures SameStep(c, s, y, t)
  {
  }

  lemma SameEarly(c: Config, s: State, y: State, t: nat)
    requires Sized(c, s) && Sized(c, y) && Alike(s, y, t) && CanAdvance(c, s, t)
    requires s.tasks[t].pc in {SetCb, SelectLow}
    ensures SameStep(c, s, y, t)
  {
  }

  lemma SameFilled(c: Config, s: State, y: State, t: nat)
    requires Sized(c, s) && Sized(c, y) && Alike(s, y, t) && CanAdvance(c, s, t)
    requires s.tasks[t].pc in {Fill, TakeNb}
    ensures SameStep(c, s, y, t)
  {
  }

  lemma SameLaunch(c: Config, s: State, y: State, t: nat)
    requires Sized(c, s) && Sized(c, y) && Alike(s, y, t) && CanAdvance(c, s, t)
    requires s.tasks[t].pc in {Launch, ClearTx, WaitNb}
    ensures SameStep(c, s, y, t)
  {
  }

  lemma SameEnd(c: Config, s: State, y: State, t: nat)
    requires Sized(c, s) && Sized(c, y) && Alike(s, y, t) && CanAdvance(c, s, t)
    requires s.tasks[t].pc in {GiveNb, WaitBlk, SelectHigh, CopyOut}
    ensures SameStep(c, s, y, t)
  {
  }

  lemma StepsAlike(c: Config, s: State, y: State, t: nat)
    requires Sized(c, s) && Sized(c, y) && Alike(s, y, t) && CanAdvance(c, s, t)
    ensures SameStep(c, s, y, t)
  {
    if s.tasks[t].pc in {Start, Reacquire, Test, PassOn, Release} {
      SameOuter(c, s, y, t);
    } else if s.tasks[t].pc in {SetCb, SelectLow} {
      SameEarly(c, s, y, t);
    } else if s.tasks[t].pc in {Fill, TakeNb} {
      SameFilled(c, s, y, t);
    } else if s.tasks[t].pc in {Launch, ClearTx, WaitNb} {
      SameLaunch(c, s, y, t);
    } else {
      SameEnd(c, s, y, t);
    }
  }

  /** A task at `Test` that is not late holds the bus: nobody else makes a step. */
  lemma OneTester(c: Config, s: State, u: nat)
    requires s in TimedInv(c) && Running(s, u) && s.tasks[u].pc == Test && !Late(s, u)
    ensures s.hold == Passing(u) && s.spiSem == 0 && s.xfer == None
    ensures forall t :: 0 <= t < |s.tasks| && t != u && !Late(s, t) ==>
              s.tasks[t].pc == Start || s.tasks[t].pc == Reacquire
  {
    var y := Punctual(s);
    forall t | 0 <= t < |s.tasks| && t != u && !Late(s, t)
      ensures s.tasks[t].pc == Start || s.tasks[t].pc == Reacquire
    {
      assert Parked(c, y, t);
    }
  }

  predicate TestsLate(s: State, u: nat) {
    Running(s, u) && s.tasks[u].pc == Test ==> Late(s, u)
  }

  lemma OthersLate(c: Config, s: State, t: nat)
    requires s in TimedInv(c) && CanAdvance(c, s, t) && !Late(s, t)
    ensures forall u :: 0 <= u < |s.tasks| && u != t ==> TestsLate(s, u)
  {
    forall u | 0 <= u < |s.tasks| && u != t
      ensures TestsLate(s, u)
    {
      if Running(s, u) && s.tasks[u].pc == Test && !Late(s, u) {
        OneTester(c, s, u);
      }
    }
  }

  lemma StaysPutBack(s: State, s': State, u: nat)
    requires u < |s.tasks| == |s'.tasks| && s'.tasks[u] == s.tasks[u] && TestsLate(s, u)
    requires s'.hold == s.hold || s'.hold != Passing(u)
    ensures PutBack(s', u) == PutBack(s, u) && Late(s', u) == Late(s, u)
  {
  }

  /** The waits that are late leave the step of another task as it is. */
  lemma Commutes(s: State, s': State, y': State, t: nat)
    requires t < |s.tasks| && !Late(s, t) && |y'.tasks| == |s.tasks|
    requires y'.tasks == Punctual(s).tasks[t := y'.tasks[t]] && s' == y'.(tasks := s.tasks[t := y'.tasks[t]])
    requires s'.hold in {s.hold, Free, Detached, Driving(t), Passing(t)} && !Late(s', t)
    requires forall u :: 0 <= u < |s.tasks| && u != t ==> TestsLate(s, u)
    ensures Punctual(s') == y' && forall u :: 0 <= u < |s.tasks| ==> Late(s', u) == Late(s, u)
  {
    forall u | 0 <= u < |s.tasks|
      ensures PutBack(s', u) == y'.tasks[u] && Late(s', u) == Late(s, u)
    {
      if u != t {
        StaysPutBack(s, s', u);
      }
    }
    assert Punctual(s').tasks == y'.tasks;
  }

  lemma OnTimeStep(c: Config, s: State, t: nat)
    requires s in TimedInv(c) && CanAdvance(c, s, t) && !Late(s, t)
    ensures Advance(c, s, t) in TimedInv(c)
  {
    var y := Punctual(s);
    StepsAlike(c, s, y, t);
    AdvanceInv(c, y, t);
    OthersLate(c, s, t);
    Commutes(s, Advance(c, s, t), Advance(c, y, t), t);
    SizedPunctual(c, Advance(c, s, t));
  }

  lemma SkipWait(c: Config, s: State, t: nat)
    requires s in Inv(c) && Running(s, t) && s.tasks[t].pc == Start && s.spiSem > 0
    ensures SetTask(s, t, s.tasks[t].(prog := s.tasks[t].prog[1..])) in Inv(c)
  {
    var s' := SetTask(s, t, s.tasks[t].(prog := s.tasks[t].prog[1..]));
    assert s.hold == Free;
    KeepParked(c, s, s', t);
    assert OthersQuiet(c, s, |c.mems|);
    KeepQuiet(c, s, s', |c.mems|);
  }

  /** A late wait that reads the count as one goes its way. */
  lemma LateReturns(c: Config, s: State, t: nat)
    requires s in TimedInv(c) && Late(s, t) && s.spiSem > 0
    ensures Advance(c, s, t) in TimedInv(c)
  {
    var y, s' := Punctual(s), Advance(c, s, t);
    SkipWait(c, y, t);
    assert y.hold == Free;
    var y' := SetTask(y, t, y.tasks[t].(prog := y.tasks[t].prog[1..]));
    assert s'.results == s.results;
    assert Punctual(s').tasks == y'.tasks;
    assert Punctual(s') == y';
  }

  lemma TimesOut(c: Config, s: State, t: nat)
    requires s in TimedInv(c) && CanMove(c, s, TimeOut(t))
    ensures Make(c, s, TimeOut(t)) in TimedInv(c)
  {
    var y, s' := Punctual(s), Make(c, s, TimeOut(t));
    assert y.tasks[t] == s.tasks[t];
    assert s.hold != Passing(t);
    assert Punctual(s').tasks == y.tasks;
    assert Punctual(s') == y;
  }

  /** A byte crosses, for a task that is not waiting. */
  lemma ClockAlike(c: Config, s: State, y: State, miso: byte)
    requires Sized(c, s) && Sized(c, y) && CanClock(c, s, miso) && Alike(s, y, s.xfer.value.t)
    ensures CanClock(c, y, miso)
    ensures var s', y', t := Clock(c, s, miso), Clock(c, y, miso), s.xfer.value.t;
            && |y'.tasks| == |y.tasks| && y'.tasks == y.tasks[t := y'.tasks[t]]
            && s' == y'.(tasks := s.tasks[t := y'.tasks[t]]) && s'.hold == s.hold && s'.tasks[t].pc == s.tasks[t].pc
            && s'.tasks[t].prog == s.tasks[t].prog
  {
  }

  lemma NoTester(c: Config, s: State)
    requires s in TimedInv(c) && s.xfer.Some?
    ensures forall u :: 0 <= u < |s.tasks| ==> TestsLate(s, u)
  {
    forall u | 0 <= u < |s.tasks|
      ensures TestsLate(s, u)
    {
      if Running(s, u) && s.tasks[u].pc == Test && !Late(s, u) {
        OneTester(c, s, u);
      }
    }
  }

  /** A step of the hardware that changes no task. */
  lemma TasksKept(c: Config, s: State, s': State, y': State)
    requires s in TimedInv(c) && s.xfer.Some? && s'.tasks == s.tasks && s'.hold in {s.hold, Free}
    requires y' in Inv(c) && y' == s'.(tasks := Punctual(s).tasks)
    ensures s' in TimedInv(c)
  {
    NoTester(c, s);
    forall u | 0 <= u < |s.tasks|
      ensures PutBack(s', u) == PutBack(s, u) && Late(s', u) == Late(s, u)
    {
      StaysPutBack(s, s', u);
    }
    assert Punctual(s').tasks == y'.tasks;
    SizedPunctual(c, s');
  }

  lemma ClockOfWrite(c: Config, s: State, y: State, miso: byte)
    requires Sized(c, s) && Sized(c, y) && CanClock(c, s, miso) && s.xfer.value.a.h.write
    requires y == s.(tasks := y.tasks) && |y.tasks| == |s.tasks|
    ensures CanClock(c, y, miso)
    ensures Clock(c, s, miso).tasks == s.tasks && Clock(c, s, miso).hold == s.hold
    ensures Clock(c, y, miso) == Clock(c, s, miso).(tasks := y.tasks)
  {
  }

  lemma OfNoLateTask(c: Config, s: State)
    requires s in TimedInv(c) && s.xfer.Some?
    ensures Late(s, s.xfer.value.t) ==> s.xfer.value.a.h.write
  {
    InFlight(c, Punctual(s));
  }

  lemma ClockTimed(c: Config, s: State, miso: byte)
    requires s in TimedInv(c) && CanClock(c, s, miso)
    ensures Clock(c, s, miso) in TimedInv(c)
  {
    var y, t := Punctual(s), s.xfer.value.t;
    OfNoLateTask(c, s);
    if s.xfer.value.a.h.write {
      ClockOfWrite(c, s, y, miso);
      StepInv(c, y, ClockStep(miso));
      TasksKept(c, s, Clock(c, s, miso), Clock(c, y, miso));
    } else {
      ClockAlike(c, s, y, miso);
      StepInv(c, y, ClockStep(miso));
      NoTester(c, s);
      Commutes(s, Clock(c, s, miso), Clock(c, y, miso), t);
      SizedPunctual(c, Clock(c, s, miso));
    }
  }

  lemma CallbackAlike(c: Config, s: State, y: State)
    requires Sized(c, s) && Sized(c, y) && CanComplete(c, s) && y == s.(tasks := y.tasks) && |y.tasks| == |s.tasks|
    ensures CanComplete(c, y)
    ensures Callback(c, s).tasks == s.tasks && Callback(c, s).hold in {s.hold, Free}
    ensures Callback(c, y) == Callback(c, s).(tasks := y.tasks)
  {
  }

  lemma CallbackTimed(c: Config, s: State)
    requires s in TimedInv(c) && CanComplete(c, s)
    ensures Callback(c, s) in TimedInv(c)
  {
    CallbackAlike(c, s, Punctual(s));
    StepInv(c, Punctual(s), CallbackStep);
    TasksKept(c, s, Callback(c, s), Callback(c, Punctual(s)));
  }

  lemma MoveTimed(c: Config, s: State, m: Move)
    requires s in TimedInv(c) && CanMove(c, s, m) && !ReadsZero(s, m)
    ensures Make(c, s, m) in TimedInv(c)
  {
    match m
    case TimeOut(t) => TimesOut(c, s, t);
    case Step(TaskStep(t)) => if Late(s, t) { LateReturns(c, s, t); } else { OnTimeStep(c, s, t); }
    case Step(ClockStep(miso)) => ClockTimed(c, s, miso);
    case Step(CallbackStep) => CallbackTimed(c, s);
  }

  lemma {:induction false} RunTimed(c: Config, s: State, moves: seq<Move>)
    requires s in TimedInv(c) && Runs.RunOf(Next(c), s, moves).Some?
    ensures Runs.RunOf(Next(c), s, moves).value in TimedInv(c)
    decreases |moves|
  {
    if moves != [] {
      MoveTimed(c, s, moves[0]);
      RunTimed(c, Make(c, s, moves[0]), moves[1..]);
    }
  }

  lemma LeadsTimed(c: Config, s: State, t: State)
    requires s in TimedInv(c) && Leads(c, s, t)
    ensures t in TimedInv(c)
  {
    var moves :| Runs.RunOf(Next(c), s, moves) == Some(t);
    RunTimed(c, s, moves);
  }

  lemma InitTimed(c: Config, programs: seq<seq<Op>>)
    requires ValidConfig(c) && ProgramsOk(c, programs)
    ensures Init(c, programs) in TimedInv(c)
  {
    var s := Init(c, programs);
    InitInv(c, programs);
    assert Punctual(s).tasks == s.tasks;
  }

  /** Late waits are of no concern to the bus. */
  lemma TimedIsSafe(c: Config, s: State)
    requires s in TimedInv(c)
    ensures BusSafe(c, s)
  {
    InvIsSafe(c, Punctual(s));
  }

  // --------------------------------------------------- after a zero is read

  ghost predicate Unsafe(c: Config, s: State) {
    exists end :: Leads(c, s, end) && !BusSafe(c, end)
  }

  lemma UnsafeNow(c: Config, s: State)
    requires !BusSafe(c, s)
    ensures Unsafe(c, s)
  {
    assert Runs.RunOf(Next(c), s, []) == Some(s);
  }

  lemma UnsafeNext(c: Config, s: State, t: nat)
    requires Sized(c, s) && CanAdvance(c, s, t) && !(Late(s, t) && s.spiSem == 0) && Unsafe(c, Advance(c, s, t))
    ensures Unsafe(c, s)
  {
    var s' := Advance(c, s, t);
    var end :| Leads(c, s', end) && !BusSafe(c, end);
    var moves :| Runs.RunOf(Next(c), s', moves) == Some(end);
    Runs.OneStep(Next(c), s, Step(TaskStep(t)), s');
    Runs.Then(Next(c), s, [Step(TaskStep(t))], s', moves, end);
  }

  lemma LowerUnsafe(c: Config, s: State, t: nat)
    requires Sized(c, s) && HasAccess(s, t) && s.spiSem == 1 && s.tasks[t].pc == SelectLow
    ensures Unsafe(c, s)
  {
    assert !Advance(c, s, t).high[Cur(s, t).dev];
    UnsafeNow(c, Advance(c, s, t));
    UnsafeNext(c, s, t);
  }

  lemma SelectUnsafe(c: Config, s: State, t: nat)
    requires Sized(c, s) && HasAccess(s, t) && s.spiSem == 1 && (s.tasks[t].pc == SelectLow || s.tasks[t].pc == SetCb)
    ensures Unsafe(c, s)
  {
    if s.tasks[t].pc == SetCb {
      LowerUnsafe(c, Advance(c, s, t), t);
      UnsafeNext(c, s, t);
    } else {
      LowerUnsafe(c, s, t);
    }
  }

  /** A second release. */
  lemma ReleaseUnsafe(c: Config, s: State, t: nat)
    requires Sized(c, s) && Running(s, t) && s.spiSem == 1
    requires s.tasks[t].pc == PassOn || (s.tasks[t].pc == Release && HasAccess(s, t))
    ensures Unsafe(c, s)
  {
    assert Advance(c, s, t).spiSem == 2;
    UnsafeNow(c, Advance(c, s, t));
    UnsafeNext(c, s, t);
  }

  /** Inside an access a select is low but at its two ends. */
  lemma SelectedInside(c: Config, s: State, t: nat)
    requires s in Here(c, t) && s.tasks[t].pc !in {SetCb, SelectLow, CopyOut, Release}
    ensures !s.high[Cur(s, t).dev]
  {
  }

  /** Under a running access the extra release does harm at once, or by the holder's own
      next steps. */
  lemma DrivingUnsafe(c: Config, y: State, s: State, h: nat)
    requires y in Inv(c) && y.hold == Driving(h)
    requires Sized(c, s) && s.spiSem == 1 && |s.tasks| == |y.tasks| && s.tasks[h] == y.tasks[h] && s.high == y.high
    ensures Unsafe(c, s)
  {
    assert y in Here(c, h);
    if s.tasks[h].pc == SetCb || s.tasks[h].pc == SelectLow {
      SelectUnsafe(c, s, h);
    } else if s.tasks[h].pc == Release {
      ReleaseUnsafe(c, s, h);
    } else if s.tasks[h].pc == CopyOut {
      var s' := Advance(c, s, h);
      assert Sized(c, s') && s'.tasks[h].pc == Release && s'.spiSem == 1;
      ReleaseUnsafe(c, s', h);
      UnsafeNext(c, s, h);
    } else {
      SelectedInside(c, y, h);
      UnsafeNow(c, s);
    }
  }

  /** `t` is about to release the semaphore it never got. */
  predicate AboutToGive(c: Config, s: State, t: nat) {
    Sized(c, s) && Running(s, t) && s.tasks[t].pc == PassOn && s.spiSem == 0
  }

  lemma Gives(c: Config, s: State, t: nat)
    requires AboutToGive(c, s, t)
    ensures var s' := Advance(c, s, t);
            && Sized(c, s') && s'.spiSem == 1 && s'.high == s.high && s'.xfer == s.xfer
            && |s'.tasks| == |s.tasks| && forall u :: 0 <= u < |s.tasks| && u != t ==> s'.tasks[u] == s.tasks[u]
  {
  }

  /** Under another wait, both waits release. */
  lemma TwoWaits(c: Config, s: State, t: nat, h: nat)
    requires AboutToGive(c, s, t) && t != h && Running(s, h) && s.hold == Passing(h)
    requires s.tasks[h].pc == Test || s.tasks[h].pc == PassOn
    ensures Unsafe(c, s)
    decreases s.tasks[h].pc == Test
  {
    if s.tasks[h].pc == PassOn {
      Gives(c, s, t);
      ReleaseUnsafe(c, Advance(c, s, t), h);
      UnsafeNext(c, s, t);
    } else {
      var s' := Advance(c, s, h);
      assert s' == SetTask(s, h, s.tasks[h].(pc := PassOn)) && AboutToGive(c, s', t);
      TwoWaits(c, s', t, h);
      UnsafeNext(c, s, h);
    }
  }

  lemma ZeroRead(c: Config, s: State, t: nat)
    requires Sized(c, s) && Late(s, t) && s.spiSem == 0
    ensures var e := Advance(c, s, t);
            && AboutToGive(c, e, t) && e == SetTask(s, t, s.tasks[t].(pc := PassOn))
            && Punctual(s).tasks[t].pc == Start
  {
  }

  lemma UnderAccess(c: Config, s: State, t: nat, h: nat)
    requires s in TimedInv(c) && Late(s, t) && s.spiSem == 0 && s.hold == Driving(h)
    ensures Unsafe(c, Advance(c, s, t))
  {
    var e := Advance(c, s, t);
    ZeroRead(c, s, t);
    Gives(c, e, t);
    DriverOnTime(c, s, h);
    DrivingUnsafe(c, Punctual(s), Advance(c, e, t), h);
    UnsafeNext(c, e, t);
  }

  lemma DriverPc(c: Config, y: State, h: nat)
    requires y in Inv(c) && y.hold == Driving(h)
    ensures h < |y.tasks| && y.tasks[h].pc !in {Start, Test, PassOn}
  {
    assert y in Here(c, h);
  }

  lemma DriverOnTime(c: Config, s: State, h: nat)
    requires Punctual(s) in Inv(c) && s.hold == Driving(h)
    ensures h < |s.tasks| && s.tasks[h].pc !in {Test, PassOn} && Punctual(s).tasks[h] == s.tasks[h]
  {
    DriverPc(c, Punctual(s), h);
    assert Punctual(s).tasks[h] == PutBack(s, h);
  }

  lemma UnderTransfer(c: Config, s: State, t: nat)
    requires s in TimedInv(c) && Late(s, t) && s.spiSem == 0 && s.hold == Detached
    ensures Unsafe(c, Advance(c, s, t))
  {
    var e := Advance(c, s, t);
    ZeroRead(c, s, t);
    Gives(c, e, t);
    assert Punctual(s) in Afloat(c);
    UnsafeNow(c, Advance(c, e, t));
    UnsafeNext(c, e, t);
  }

  lemma UnderWait(c: Config, s: State, t: nat, h: nat)
    requires s in TimedInv(c) && Late(s, t) && s.spiSem == 0 && s.hold == Passing(h)
    ensures Unsafe(c, Advance(c, s, t))
  {
    ZeroRead(c, s, t);
    assert PassingOk(c, Punctual(s), h);
    TwoWaits(c, Advance(c, s, t), t, h);
  }

  /** Whoever has the bus. */
  lemma ZeroReadUnsafe(c: Config, s: State, t: nat)
    requires s in TimedInv(c) && Late(s, t) && s.spiSem == 0
    ensures Unsafe(c, Advance(c, s, t))
  {
    match s.hold
    case Driving(h) => UnderAccess(c, s, t, h);
    case Detached => UnderTransfer(c, s, t);
    case Passing(h) => UnderWait(c, s, t, h);
    case Free =>
  }

  // ------------------------------------------------------------- theorem

  /** Over every run in which any number of waits time out the bus is safe as long as no
      expired wait reads the count as zero; and when one is about to read it, some way on
      from there breaks the bus exactly if it reads zero. */
  lemma ExpiryHarmsIff(c: Config, programs: seq<seq<Op>>, s: State, t: nat)
    requires ValidConfig(c) && ProgramsOk(c, programs) && Leads(c, Init(c, programs), s)
    ensures BusSafe(c, s)
    ensures Late(s, t) ==> CanAdvance(c, s, t) && (Unsafe(c, Advance(c, s, t)) <==> s.spiSem == 0)
  {
    InitTimed(c, programs);
    LeadsTimed(c, Init(c, programs), s);
    TimedIsSafe(c, s);
    if Late(s, t) {
      if s.spiSem == 0 {
        ZeroReadUnsafe(c, s, t);
      } else {
        LateReturns(c, s, t);
        forall end | Leads(c, Advance(c, s, t), end)
          ensures BusSafe(c, end)
        {
          LeadsTimed(c, Advance(c, s, t), end);
          TimedIsSafe(c, end);
        }
      }
    }
  }

  // ------------------------------------------------------------- witness

  const BLANK: Config := Config([map[], map[]], 256, 255)
  const EMPTY_READ: Access := RawAccess(0, Header(false, 0, 0), false, 0, [])
  const RIVAL_READ: Access := RawAccess(1, Header(false, 0, 0), false, 0, [])
  const EXPIRY_RACE: seq<seq<Op>> := [[Do(EMPTY_READ)], [WaitBus, Do(RIVAL_READ)]]

  lemma StepLeads(c: Config, s: State, m: Move)
    requires Sized(c, s) && CanMove(c, s, m) && !ReadsZero(s, m)
    ensures Leads(c, s, Make(c, s, m))
  {
    Runs.OneStep(Next(c), s, m, Make(c, s, m));
  }

  lemma Chained(c: Config, s: State, t: State, u: State)
    requires Leads(c, s, t) && Leads(c, t, u)
    ensures Leads(c, s, u)
  {
    var a :| Runs.RunOf(Next(c), s, a) == Some(t);
    var b :| Runs.RunOf(Next(c), t, b) == Some(u);
    Runs.Then(Next(c), s, a, t, b, u);
  }

  /** Task 0 has the bus for its read and has selected device 0; the wait of task 1 has
      timed out. */
  lemma RaceStart() returns (s: State)
    ensures Leads(BLANK, Init(BLANK, EXPIRY_RACE), s)
    ensures Sized(BLANK, s) && |s.tasks| == 2 && s.spiSem == 0 && s.high == [false, true] && s.hold == Driving(0)
    ensures s.tasks[1] == Task(EXPIRY_RACE[1], Test, 0, [], 0)
  {
    var s0 := Init(BLANK, EXPIRY_RACE);
    assert Sized(BLANK, s0) && CanAdvance(BLANK, s0, 0);
    var s1 := Begin(BLANK, s0, 0);
    StepLeads(BLANK, s0, Step(TaskStep(0)));
    var s2 := Advance(BLANK, s1, 0);
    StepLeads(BLANK, s1, Step(TaskStep(0)));
    Chained(BLANK, s0, s1, s2);
    s := Make(BLANK, s2, TimeOut(1));
    StepLeads(BLANK, s2, TimeOut(1));
    Chained(BLANK, s0, s2, s);
  }

  /** It reads zero and releases the bus under that read; its task's own read then selects
      device 1 as well. */
  lemma ExpiryRace() returns (s: State, end: State)
    ensures Leads(BLANK, Init(BLANK, EXPIRY_RACE), s) && Late(s, 1) && s.spiSem == 0
    ensures Sized(BLANK, s) && Leads(BLANK, Advance(BLANK, s, 1), end) && end.high == [false, false]
  {
    s := RaceStart();
    end := RivalSelects(Advance(BLANK, s, 1));
  }

  lemma RivalSelects(e: State) returns (end: State)
    requires Sized(BLANK, e) && |e.tasks| == 2 && e.spiSem == 0 && e.high == [false, true]
    requires e.tasks[1] == Task(EXPIRY_RACE[1], PassOn, 0, [], 0)
    ensures Leads(BLANK, e, end) && end.high == [false, false]
  {
    var f := Advance(BLANK, e, 1);
    StepLeads(BLANK, e, Step(TaskStep(1)));
    assert f.tasks[1] == Task([Do(RIVAL_READ)], Start, 0, [], 0) && f.spiSem == 1;
    end := SelectsToo(f);
    Chained(BLANK, e, f, end);
  }

  lemma SelectsToo(f: State) returns (end: State)
    requires Sized(BLANK, f) && |f.tasks| == 2 && f.spiSem == 1 && f.high == [false, true]
    requires f.tasks[1] == Task([Do(RIVAL_READ)], Start, 0, [], 0)
    ensures Leads(BLANK, f, end) && end.high == [false, false]
  {
    var g := Advance(BLANK, f, 1);
    StepLeads(BLANK, f, Step(TaskStep(1)));
    assert HasAccess(g, 1) && g.tasks[1].pc == SelectLow && g.high == f.high;
    end := Advance(BLANK, g, 1);
    StepLeads(BLANK, g, Step(TaskStep(1)));
    Chained(BLANK, f, g, end);
  }
}
