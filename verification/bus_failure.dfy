/** What the HAL leaves behind when the SPI hardware refuses to start a transfer. */
module BusFailure {
  import opened Codec
  import opened Common
  import opened SpiBus
  import opened BusInvariant
  import opened BusSteps
  import opened BusTheorems
  import Runs

  /** The command of a long read is about to be handed over. */
  predicate AtCommand(c: Config, s: State, t: nat) {
    && HasAccess(s, t) && s.tasks[t].pc == Launch && s.tasks[t].done == 0
    && Cur(s, t).noblock && !Cur(s, t).h.write && !Short(c, Cur(s, t))
  }

  /** It is refused: the call releases the bus and returns. */
  function Refused(s: State, t: nat): State
    requires Running(s, t)
  {
    SetTask(s, t, s.tasks[t].(prog := s.tasks[t].prog[1..], pc := Start)).(spiSem := s.spiSem + 1, hold := Free)
  }

  /** Whenever that happens, the bus is free with the device still selected and its wake-up
      semaphore taken. */
  lemma RefusalLeavesSelected(c: Config, s: State, t: nat)
    requires s in Inv(c) && AtCommand(c, s, t)
    ensures var d, s' := Cur(s, t).dev, Refused(s, t);
            s'.spiSem == 1 && !s'.high[d] && s'.nb[d] == 0 && !BusSafe(c, s')
  {
    Holder(c, s, t);
    assert AtTransfer(c, s, t);
  }

  /** The next access to another device runs with two devices selected. */
  lemma RefusalSelectsTwo(c: Config, s: State, t: nat, u: nat) returns (end: State)
    requires s in Inv(c) && AtCommand(c, s, t) && u != t
    requires HasAccess(s, u) && s.tasks[u].pc == Start && Cur(s, u).dev != Cur(s, t).dev && !Cur(s, u).noblock
    ensures var s' := Refused(s, t);
            && Sized(c, s') && CanAdvance(c, s', u)
            && var s'' := Advance(c, s', u);
               Sized(c, s'') && CanAdvance(c, s'', u) && end == Advance(c, s'', u)
    ensures !end.high[Cur(s, t).dev] && !end.high[Cur(s, u).dev]
  {
    RefusalLeavesSelected(c, s, t);
    end := Advance(c, Advance(c, Refused(s, t), u), u);
  }

  // ------------------------------------------------ the bus is lost for good

  function Next(c: Config): (State, Label) -> Option<State> {
    (s: State, l: Label) => if Sized(c, s) && Enabled(c, s, l) then Some(Apply(c, s, l)) else None
  }

  ghost predicate Leads(c: Config, s: State, t: State) {
    exists steps :: Runs.RunOf(Next(c), s, steps) == Some(t)
  }

  /** One more step on the way to `u`. */
  lemma StepLeads(c: Config, s: State, l: Label, u: State)
    requires Sized(c, s) && Enabled(c, s, l) && Leads(c, Apply(c, s, l), u)
    ensures Leads(c, s, u)
  {
    var steps :| Runs.RunOf(Next(c), Apply(c, s, l), steps) == Some(u);
    Runs.OneStep(Next(c), s, l, Apply(c, s, l));
    Runs.Then(Next(c), s, [l], Apply(c, s, l), steps, u);
  }

  predicate ShortWrite(c: Config, a: Access) {
    a.noblock && a.h.write && Short(c, a) && a.dev < |c.mems|
  }

  /** The task needs the bus before it can go on. */
  predicate NeedsBus(k: Task) {
    k.pc == Start || k.pc == Reacquire
  }

  /** Task `u` is on its way to the transfer of a short write, on a device whose wake-up
      semaphore is taken. */
  predicate OnItsWay(c: Config, s: State, u: nat, a: Access, pc: PC) {
    && Sized(c, s) && ShortWrite(c, a) && u < |s.tasks| && s.tasks[u].prog != []
    && s.tasks[u].prog[0] == Do(a) && s.tasks[u].pc == pc && s.tasks[u].done == 0
    && s.spiSem == 0 && s.xfer == None && s.nb[a.dev] == 0
    && (pc != SetCb ==> s.cb == Some(a.dev)) && (pc in {Fill, Launch} ==> !s.high[a.dev])
    && forall v :: 0 <= v < |s.tasks| && v != u ==> NeedsBus(s.tasks[v])
  }

  /** The transfer is in flight, `pos` bytes of it are clocked. */
  predicate InTheAir(c: Config, s: State, a: Access, pos: nat) {
    && Sized(c, s) && ShortWrite(c, a) && pos <= FrameLen(a)
    && s.xfer.Some? && s.xfer.value.a == a && s.xfer.value.len == FrameLen(a)
    && s.xfer.value.pos == pos && s.xfer.value.mode == Final
    && s.spiSem == 0 && s.nb[a.dev] == 0 && s.cb == Some(a.dev) && !s.high[a.dev]
    && forall v :: 0 <= v < |s.tasks| ==> NeedsBus(s.tasks[v])
  }

  /** No task, byte or completion can go on, and the bus is not free. */
  ghost predicate Hangs(c: Config, s: State) {
    Sized(c, s) && s.spiSem == 0 && forall l :: !Enabled(c, s, l)
  }

  /** Where a short write goes on to. */
  function Following(pc: PC): PC {
    if pc == SetCb then SelectLow else if pc == SelectLow then Fill else Launch
  }

  lemma WriteBegins(c: Config, s: State, u: nat, a: Access)
    requires Sized(c, s) && ShortWrite(c, a) && s.spiSem == 1 && s.xfer == None && s.nb[a.dev] == 0
    requires u < |s.tasks| && s.tasks[u].prog != [] && s.tasks[u].prog[0] == Do(a) && s.tasks[u].pc == Start
    requires forall v :: 0 <= v < |s.tasks| ==> NeedsBus(s.tasks[v])
    ensures CanAdvance(c, s, u) && OnItsWay(c, Advance(c, s, u), u, a, SetCb)
  {
  }

  lemma WriteGoesOn(c: Config, s: State, u: nat, a: Access, pc: PC)
    requires OnItsWay(c, s, u, a, pc) && pc in {SetCb, SelectLow, Fill}
    ensures CanAdvance(c, s, u)
    ensures OnItsWay(c, Advance(c, s, u), u, a, Following(pc))
  {
    assert HasAccess(s, u);
  }

  lemma WriteStarts(c: Config, s: State, u: nat, a: Access)
    requires OnItsWay(c, s, u, a, Launch)
    ensures CanAdvance(c, s, u) && InTheAir(c, Advance(c, s, u), a, 0)
  {
    assert HasAccess(s, u);
  }

  lemma ByteCrosses(c: Config, s: State, a: Access, pos: nat) returns (miso: byte)
    requires InTheAir(c, s, a, pos) && pos < FrameLen(a)
    ensures CanClock(c, s, miso) && InTheAir(c, Clock(c, s, miso), a, pos + 1)
  {
    miso := match Driven(s.chips[a.dev]) case Some(b) => b case None => 0;
    var s' := Clock(c, s, miso);
    assert s'.tasks == s.tasks;
  }

  /** The callback finds the wake-up semaphore taken, releases that, and leaves the bus. */
  lemma NobodyCloses(c: Config, s: State, a: Access)
    requires InTheAir(c, s, a, FrameLen(a))
    ensures CanComplete(c, s) && Hangs(c, Callback(c, s))
  {
    var s' := Callback(c, s);
    assert s'.xfer == None && s'.tasks == s.tasks && s'.spiSem == 0;
  }

  lemma {:induction false} AirHangs(c: Config, s: State, a: Access, pos: nat) returns (end: State)
    requires InTheAir(c, s, a, pos)
    ensures Leads(c, s, end) && Hangs(c, end)
    decreases FrameLen(a) - pos
  {
    if pos < FrameLen(a) {
      var miso := ByteCrosses(c, s, a, pos);
      end := AirHangs(c, Clock(c, s, miso), a, pos + 1);
      StepLeads(c, s, ClockStep(miso), end);
    } else {
      NobodyCloses(c, s, a);
      end := Callback(c, s);
      assert Runs.RunOf(Next(c), end, []) == Some(end);
      StepLeads(c, s, CallbackStep, end);
    }
  }

  lemma {:induction false} WayHangs(c: Config, s: State, u: nat, a: Access, pc: PC) returns (end: State)
    requires OnItsWay(c, s, u, a, pc) && pc in {SetCb, SelectLow, Fill, Launch}
    ensures Leads(c, s, end) && Hangs(c, end)
    decreases if pc == SetCb then 3 else if pc == SelectLow then 2 else if pc == Fill then 1 else 0
  {
    if pc == Launch {
      WriteStarts(c, s, u, a);
      end := AirHangs(c, Advance(c, s, u), a, 0);
    } else {
      WriteGoesOn(c, s, u, a, pc);
      end := WayHangs(c, Advance(c, s, u), u, a, Following(pc));
    }
    StepLeads(c, s, TaskStep(u), end);
  }

  lemma OthersNeedBus(c: Config, s: State, t: nat)
    requires s in Inv(c) && AtCommand(c, s, t)
    ensures var s' := Refused(s, t);
            Sized(c, s') && s'.xfer == None && forall v :: 0 <= v < |s'.tasks| ==> NeedsBus(s'.tasks[v])
  {
    Holder(c, s, t);
    assert AtTransfer(c, s, t);
    forall v | 0 <= v < |s.tasks| && v != t
      ensures NeedsBus(s.tasks[v])
    {
      assert Parked(c, s, v);
    }
  }

  /** If the next access is a short non-blocking write to that device, by whichever task,
      its completion only puts the wake-up semaphore back: the bus is never freed again, no
      step is possible any more, and every task that is not through hangs. */
  lemma RefusalHangsBus(c: Config, s: State, t: nat, u: nat) returns (end: State)
    requires s in Inv(c) && AtCommand(c, s, t)
    requires var s' := Refused(s, t);
             && HasAccess(s', u) && s'.tasks[u].pc == Start
             && ShortWrite(c, Cur(s', u)) && Cur(s', u).dev == Cur(s, t).dev
    ensures Leads(c, Refused(s, t), end) && Hangs(c, end)
  {
    var s' := Refused(s, t);
    RefusalLeavesSelected(c, s, t);
    OthersNeedBus(c, s, t);
    WriteBegins(c, s', u, Cur(s', u));
    end := WayHangs(c, Advance(c, s', u), u, Cur(s', u), SetCb);
    StepLeads(c, s', TaskStep(u), end);
  }

  // ------------------------------------------------------------- witness

  const SMALL: Config := Config([map[], map[]], 3, 1)
  const LONG_READ: Access := RawAccess(0, Header(false, 0, 0), true, 1, [])
  const OTHER_READ: Access := RawAccess(1, Header(false, 0, 0), false, 0, [])

  const PROGRAMS: seq<seq<Op>> := [[Do(LONG_READ)], [Do(OTHER_READ)]]

  /** Task 0 has the bus for the long read and is at `pc`; task 1 has not started. */
  predicate ReaderAt(s: State, pc: PC) {
    && Sized(SMALL, s) && |s.tasks| == 2 && s.nb == [1, 1]
    && s.tasks[0] == Task([Do(LONG_READ)], pc, 0, Zeros(1), 0)
    && s.tasks[1] == Task([Do(OTHER_READ)], Start, 0, [], 0)
  }

  lemma ReaderBegins(s: State)
    requires s == Init(SMALL, PROGRAMS)
    ensures Sized(SMALL, s) && CanAdvance(SMALL, s, 0) && ReaderAt(Advance(SMALL, s, 0), SetCb)
  {
  }

  lemma ReaderMoves(s: State, pc: PC)
    requires ReaderAt(s, pc) && (pc == SetCb || pc == SelectLow)
    ensures CanAdvance(SMALL, s, 0) && ReaderAt(Advance(SMALL, s, 0), if pc == SetCb then SelectLow else TakeNb)
  {
  }

  predicate ReaderReady(s: State) {
    && AtCommand(SMALL, s, 0) && Cur(s, 0) == LONG_READ
    && HasAccess(s, 1) && s.tasks[1].pc == Start && Cur(s, 1) == OTHER_READ
  }

  lemma ReaderTakes(s: State)
    requires ReaderAt(s, TakeNb)
    ensures CanAdvance(SMALL, s, 0) && ReaderReady(Advance(SMALL, s, 0))
  {
  }

  lemma StepFollows(c: Config, s: State, t: nat)
    requires Sized(c, s) && CanAdvance(c, s, t)
    ensures Follows(c, s, Advance(c, s, t))
  {
    assert Advance(c, s, t) == Apply(c, s, TaskStep(t));
  }

  /** A run leads there. */
  lemma ReachesCommand() returns (run: seq<State>)
    ensures IsRun(SMALL, PROGRAMS, run)
    ensures run[|run| - 1] in Inv(SMALL) && ReaderReady(run[|run| - 1])
  {
    var s0 := Init(SMALL, PROGRAMS);
    ReaderBegins(s0);
    var s1 := Advance(SMALL, s0, 0);
    ReaderMoves(s1, SetCb);
    var s2 := Advance(SMALL, s1, 0);
    ReaderMoves(s2, SelectLow);
    var s3 := Advance(SMALL, s2, 0);
    ReaderTakes(s3);
    StepFollows(SMALL, s0, 0);
    StepFollows(SMALL, s1, 0);
    StepFollows(SMALL, s2, 0);
    StepFollows(SMALL, s3, 0);
    run := FiveStates(s0, s1, s2, s3, Advance(SMALL, s3, 0));
  }

  lemma FiveStates(s0: State, s1: State, s2: State, s3: State, s4: State) returns (run: seq<State>)
    requires s0 == Init(SMALL, PROGRAMS) && Follows(SMALL, s0, s1) && Follows(SMALL, s1, s2)
    requires Follows(SMALL, s2, s3) && Follows(SMALL, s3, s4)
    ensures IsRun(SMALL, PROGRAMS, run) && |run| == 5 && run[4] == s4 && s4 in Inv(SMALL)
  {
    run := [s0, s1, s2, s3, s4];
    Reachable(SMALL, PROGRAMS, run, 4);
  }
}
