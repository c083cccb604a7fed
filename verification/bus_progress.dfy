/** No run gets stuck, and every run ends with all programs done. */
module BusProgress {
  import opened Codec
  import opened Common
  import opened SpiBus
  import opened BusInvariant
  import opened BusSteps
  import opened BusTheorems
  import BusResults

  // ------------------------------------------------------------- deadlock

  predicate Finished(s: State) {
    s.xfer == None && forall t :: 0 <= t < |s.tasks| ==> s.tasks[t].prog == []
  }

  /** Transfers never starve: the engine can clock the next byte, the callback can
      run, or the blocked caller can return. */
  lemma TransferAdvances(c: Config, s: State) returns (l: Label)
    requires s in Inv(c) && s.xfer.Some?
    ensures Enabled(c, s, l)
  {
    InFlight(c, s);
    var x := s.xfer.value;
    if x.pos < x.len {
      var d := x.a.dev;
      var miso: byte := if Driven(s.chips[d]).Some? then Driven(s.chips[d]).value else 0;
      forall e | 0 <= e < |s.chips| && OnlyLow(s, e)
        ensures e == d
      {
        assert s.high[d] <==> d != e;
      }
      l := ClockStep(miso);
    } else if x.mode != Blocking {
      l := CallbackStep;
    } else {
      l := TaskStep(x.t);
    }
  }

  lemma HolderAdvances(c: Config, s: State) returns (l: Label)
    requires s in Inv(c) && s.hold != Free
    ensures Enabled(c, s, l)
  {
    if s.xfer.Some? {
      l := TransferAdvances(c, s);
    } else if s.hold.Driving? {
      assert s in Here(c, s.hold.t);
      l := TaskStep(s.hold.t);
    } else {
      l := TaskStep(s.hold.t);
    }
  }

  /** In every reachable state with work left, something can happen. */
  lemma DeadlockFree(c: Config, programs: seq<seq<Op>>, run: seq<State>, i: nat)
    requires ValidConfig(c) && ProgramsOk(c, programs) && IsRun(c, programs, run) && i < |run|
    ensures Sized(c, run[i]) && (!Finished(run[i]) ==> exists l :: Enabled(c, run[i], l))
  {
    Reachable(c, programs, run, i);
    var s := run[i];
    if !Finished(s) {
      if s.hold == Free {
        var t :| 0 <= t < |s.tasks| && s.tasks[t].prog != [];
        assert Parked(c, s, t);
        assert Enabled(c, s, TaskStep(t));
      } else {
        var l := HolderAdvances(c, s);
      }
    }
  }

  // ---------------------------------------------------------- termination

  function OpCost(op: Op): nat {
    match op
    case Do(a) => 8 * FrameLen(a) + 16
    case WaitBus => 5
  }

  function ProgCost(prog: seq<Op>): nat {
    if prog == [] then 0 else OpCost(prog[0]) + ProgCost(prog[1..])
  }

  /** Steps the current access may still take, in-flight bytes aside. */
  function PcCost(c: Config, k: Task): nat
    requires k.prog != []
  {
    match k.prog[0]
    case WaitBus => if k.pc == Start then 5 else if k.pc == Test then 4 else 3
    case Do(a) =>
      var left := if k.done < FrameLen(a) then 8 * (FrameLen(a) - k.done) else 0;
      var rest := if k.done < FrameLen(a) then 8 * (FrameLen(a) - k.done - XferLen(c, a, k.done)) else 0;
      match k.pc
      case Start => 8 * FrameLen(a) + 16
      case SetCb => 8 * FrameLen(a) + 14
      case SelectLow => 8 * FrameLen(a) + 13
      case Fill => 8 * FrameLen(a) + 12
      case TakeNb => left + 10
      case Launch => left + 9
      case ClearTx => rest + 14
      case WaitNb => rest + 13
      case GiveNb => rest + 12
      case WaitBlk => rest + 13
      case SelectHigh => 8
      case CopyOut => 7
      case Release => 6
      case Reacquire => 5
      case Test => 4
      case PassOn => 3
  }

  function TaskCost(c: Config, k: Task): nat {
    if k.prog == [] then 0 else PcCost(c, k) + ProgCost(k.prog[1..])
  }

  function Cost(c: Config, tasks: seq<Task>): nat {
    if tasks == [] then 0 else Cost(c, tasks[..|tasks| - 1]) + TaskCost(c, tasks[|tasks| - 1])
  }

  /** An upper bound on the steps any run can still make. */
  function Budget(c: Config, s: State): int {
    Cost(c, s.tasks) + (if s.xfer.None? then 0 else s.xfer.value.len - s.xfer.value.pos + 1)
  }

  lemma {:induction false} CostUpdate(c: Config, tasks: seq<Task>, t: nat, k: Task)
    requires t < |tasks|
    ensures Cost(c, tasks[t := k]) == Cost(c, tasks) - TaskCost(c, tasks[t]) + TaskCost(c, k)
  {
    var n := |tasks| - 1;
    if t == n {
      assert tasks[t := k][..n] == tasks[..n];
    } else {
      assert tasks[t := k][..n] == tasks[..n][t := k];
      CostUpdate(c, tasks[..n], t, k);
    }
  }

  /** What a state promises about the program point a task is at. */
  predicate DoneOk(k: Task) {
    k.prog != [] && k.prog[0].Do? ==>
      && (k.pc in {SetCb, SelectLow, Fill} ==> k.done == 0)
      && (k.pc in {TakeNb, Launch, ClearTx, WaitNb, GiveNb, WaitBlk} ==> k.done < FrameLen(k.prog[0].a))
  }

  lemma LoopCost(c: Config, k: Task)
    requires ValidConfig(c) && k.prog != [] && k.prog[0].Do? && k.done < FrameLen(k.prog[0].a)
    requires k.pc == GiveNb || k.pc == WaitBlk
    ensures TaskCost(c, XferDone(c, k)) < TaskCost(c, k)
  {
  }

  /** The transfer takes its share of the frame. */
  lemma LaunchLeft(c: Config, k: Task)
    requires ValidConfig(c) && k.prog != [] && k.prog[0].Do? && k.done < FrameLen(k.prog[0].a) && k.pc == Launch
    ensures var n := XferLen(c, k.prog[0].a, k.done);
            && 1 <= n && n + 1 + ProgCost(k.prog[1..]) < TaskCost(c, k)
            && forall pc :: pc in {WaitBlk, ClearTx, WaitNb, Reacquire} ==>
                 TaskCost(c, k.(pc := pc)) + n + 1 < TaskCost(c, k)
  {
    var n := XferLen(c, k.prog[0].a, k.done);
    assert 1 <= n <= FrameLen(k.prog[0].a) - k.done;
  }

  lemma LaunchCost(c: Config, s: State, t: nat)
    requires ValidConfig(c) && Sized(c, s) && CanAdvance(c, s, t) && s.tasks[t].pc == Launch
    ensures var s' := Advance(c, s, t);
            && |s'.tasks| == |s.tasks| && s'.xfer.Some?
            && TaskCost(c, s'.tasks[t]) + s'.xfer.value.len + 1 < TaskCost(c, s.tasks[t]) && s'.xfer.value.pos == 0
  {
    var k, k' := s.tasks[t], Advance(c, s, t).tasks[t];
    LaunchLeft(c, k);
    if k'.pc == Start {
      BackAtStart(c, k');
    }
  }

  lemma BackAtStart(c: Config, k: Task)
    requires k.pc == Start
    ensures TaskCost(c, k) == ProgCost(k.prog)
  {
  }

  lemma ReturnCost(c: Config, s: State, t: nat)
    requires Sized(c, s) && CanAdvance(c, s, t) && s.tasks[t].pc in {Release, Test, PassOn}
    ensures |Advance(c, s, t).tasks| == |s.tasks|
    ensures TaskCost(c, Advance(c, s, t).tasks[t]) < TaskCost(c, s.tasks[t])
  {
    var k' := Advance(c, s, t).tasks[t];
    if k'.pc == Start {
      BackAtStart(c, k');
    }
  }

  lemma BeginCost(c: Config, s: State, t: nat)
    requires Sized(c, s) && CanAdvance(c, s, t) && s.tasks[t].pc in {Start, Reacquire, SetCb}
    ensures |Advance(c, s, t).tasks| == |s.tasks|
    ensures TaskCost(c, Advance(c, s, t).tasks[t]) < TaskCost(c, s.tasks[t])
  {
  }

  lemma LowerCost(c: Config, s: State, t: nat)
    requires ValidConfig(c) && Sized(c, s) && CanAdvance(c, s, t) && DoneOk(s.tasks[t])
    requires s.tasks[t].pc in {SelectLow, Fill}
    ensures |Advance(c, s, t).tasks| == |s.tasks|
    ensures TaskCost(c, Advance(c, s, t).tasks[t]) < TaskCost(c, s.tasks[t])
  {
    var k, k' := s.tasks[t], Advance(c, s, t).tasks[t];
    assert k'.prog == k.prog && k'.done == k.done && k'.pc in {Fill, TakeNb, Launch};
  }

  lemma MidCost(c: Config, s: State, t: nat)
    requires ValidConfig(c) && Sized(c, s) && CanAdvance(c, s, t) && DoneOk(s.tasks[t])
    requires s.tasks[t].pc in {TakeNb, ClearTx, WaitNb, SelectHigh, CopyOut}
    ensures |Advance(c, s, t).tasks| == |s.tasks|
    ensures TaskCost(c, Advance(c, s, t).tasks[t]) < TaskCost(c, s.tasks[t])
  {
    var k, k' := s.tasks[t], Advance(c, s, t).tasks[t];
    assert k'.prog == k.prog && k'.done == k.done;
  }

  lemma AdvanceCost(c: Config, s: State, t: nat)
    requires ValidConfig(c) && Sized(c, s) && CanAdvance(c, s, t) && DoneOk(s.tasks[t])
    ensures Budget(c, Advance(c, s, t)) < Budget(c, s)
  {
    var s', k := Advance(c, s, t), s.tasks[t];
    OneTaskMoves(c, s, t);
    CostUpdate(c, s.tasks, t, s'.tasks[t]);
    if k.pc == Launch {
      LaunchCost(c, s, t);
    } else if k.pc == GiveNb || k.pc == WaitBlk {
      LoopCost(c, k);
    } else if k.pc in {Release, Test, PassOn} {
      ReturnCost(c, s, t);
    } else if k.pc == Start || k.pc == Reacquire || k.pc == SetCb {
      BeginCost(c, s, t);
    } else if k.pc == SelectLow || k.pc == Fill {
      LowerCost(c, s, t);
    } else {
      MidCost(c, s, t);
    }
  }

  predicate MovesOne(c: Config, s: State, t: nat)
    requires Sized(c, s) && CanAdvance(c, s, t)
  {
    var s' := Advance(c, s, t);
    && |s'.tasks| == |s.tasks| && s'.tasks == s.tasks[t := s'.tasks[t]]
    && (s.tasks[t].pc == GiveNb || s.tasks[t].pc == WaitBlk ==> s'.tasks[t] == XferDone(c, s.tasks[t]))
    && (s.tasks[t].pc == WaitBlk ==> s'.xfer == None && s.xfer.Some? && s.xfer.value.len == s.xfer.value.pos)
    && (s.tasks[t].pc != Launch && s.tasks[t].pc != WaitBlk ==> s'.xfer == s.xfer)
    && (s.tasks[t].pc == Launch ==> s.xfer == None)
  }

  lemma OuterMoves(c: Config, s: State, t: nat)
    requires Sized(c, s) && CanAdvance(c, s, t) && s.tasks[t].pc in {Start, Reacquire, Test, PassOn, Release}
    ensures MovesOne(c, s, t)
  {
  }

  lemma InnerMoves(c: Config, s: State, t: nat)
    requires Sized(c, s) && CanAdvance(c, s, t) && s.tasks[t].pc !in {Start, Reacquire, Test, PassOn, Release}
    ensures MovesOne(c, s, t)
  {
  }

  lemma OneTaskMoves(c: Config, s: State, t: nat)
    requires Sized(c, s) && CanAdvance(c, s, t)
    ensures MovesOne(c, s, t)
  {
    if s.tasks[t].pc in {Start, Reacquire, Test, PassOn, Release} {
      OuterMoves(c, s, t);
    } else {
      InnerMoves(c, s, t);
    }
  }

  lemma InvDoneOk(c: Config, s: State, t: nat)
    requires s in Inv(c) && t < |s.tasks|
    ensures DoneOk(s.tasks[t])
  {
    if s.tasks[t].pc != Start && s.tasks[t].pc != Reacquire {
      Holder(c, s, t);
      if s.tasks[t].pc !in {Test, PassOn} {
        assert AtPc(c, s, t);
      }
    }
  }

  lemma ClockTask(c: Config, s: State, miso: byte)
    requires Sized(c, s) && CanClock(c, s, miso)
    ensures var s', t := Clock(c, s, miso), s.xfer.value.t;
            && s'.tasks == s.tasks[t := s'.tasks[t]] && TaskCost(c, s'.tasks[t]) == TaskCost(c, s.tasks[t])
            && s'.xfer == Some(s.xfer.value.(pos := s.xfer.value.pos + 1))
  {
    ClockKeeps(c, s, miso);
    var s', t := Clock(c, s, miso), s.xfer.value.t;
    assert s'.tasks == s.tasks[t := s'.tasks[t]];
  }

  lemma ClockCost(c: Config, s: State, miso: byte)
    requires Sized(c, s) && CanClock(c, s, miso)
    ensures Budget(c, Clock(c, s, miso)) < Budget(c, s)
  {
    ClockTask(c, s, miso);
    CostUpdate(c, s.tasks, s.xfer.value.t, Clock(c, s, miso).tasks[s.xfer.value.t]);
  }

  lemma StepCost(c: Config, s: State, l: Label)
    requires s in Inv(c) && Enabled(c, s, l)
    ensures Budget(c, Apply(c, s, l)) < Budget(c, s)
  {
    match l
    case TaskStep(t) =>
      InvDoneOk(c, s, t);
      AdvanceCost(c, s, t);
    case ClockStep(miso) => ClockCost(c, s, miso);
    case CallbackStep =>
      assert Callback(c, s).tasks == s.tasks;
  }

  lemma BudgetNonNegative(c: Config, s: State)
    requires s in Inv(c)
    ensures Budget(c, s) >= 0
  {
    if s.xfer.Some? {
      InFlight(c, s);
    }
  }

  /** The budget of the initial programs bounds the length of every run. */
  lemma {:induction false} RunsAreBounded(c: Config, programs: seq<seq<Op>>, run: seq<State>)
    requires ValidConfig(c) && ProgramsOk(c, programs) && IsRun(c, programs, run)
    ensures Sized(c, run[|run| - 1])
    ensures 0 <= Budget(c, run[|run| - 1]) <= Budget(c, Init(c, programs)) - (|run| - 1)
  {
    var n := |run| - 1;
    Reachable(c, programs, run, n);
    BudgetNonNegative(c, run[n]);
    if n > 0 {
      assert IsRun(c, programs, run[..n]);
      RunsAreBounded(c, programs, run[..n]);
      Reachable(c, programs, run, n - 1);
      assert Follows(c, run[n - 1], run[n]);
      var l :| Enabled(c, run[n - 1], l) && run[n] == Apply(c, run[n - 1], l);
      StepCost(c, run[n - 1], l);
    }
  }

  // -------------------------------------------------------- program order

  /** The accesses of a program, in order. */
  function AccessesOf(prog: seq<Op>): seq<Access> {
    if prog == [] then []
    else (match prog[0] case Do(a) => [a] case WaitBus => []) + AccessesOf(prog[1..])
  }

  /** What task `t` has begun, in serial order. */
  function Begun(log: seq<Entry>, t: nat): seq<Access> {
    if log == [] then []
    else
      var e := log[|log| - 1];
      Begun(log[..|log| - 1], t) + (if e.t == t then [e.a] else [])
  }

  function Rest(k: Task): seq<Access> {
    if k.pc == Start || k.prog == [] then AccessesOf(k.prog) else AccessesOf(k.prog[1..])
  }

  ghost predicate InOrder(programs: seq<seq<Op>>, s: State) {
    && |s.tasks| == |programs|
    && forall t :: 0 <= t < |programs| ==>
         Begun(s.log, t) + Rest(s.tasks[t]) == AccessesOf(programs[t])
  }

  lemma BegunAppend(log: seq<Entry>, e: Entry, t: nat)
    ensures Begun(log + [e], t) == Begun(log, t) + (if e.t == t then [e.a] else [])
  {
    assert (log + [e])[..|log|] == log;
  }

  lemma RestOnReturn(c: Config, s: State, t: nat)
    requires Sized(c, s) && CanAdvance(c, s, t) && s.tasks[t].pc in {Test, PassOn, Release, Launch}
    ensures var s' := Advance(c, s, t);
            |s'.tasks| == |s.tasks| && s'.log == s.log && Rest(s'.tasks[t]) == Rest(s.tasks[t])
  {
    var k, k' := s.tasks[t], Advance(c, s, t).tasks[t];
    assert (k'.prog == k.prog && k'.pc != Start) || (k'.prog == k.prog[1..] && k'.pc == Start);
  }

  lemma RestEarly(c: Config, s: State, t: nat)
    requires Sized(c, s) && CanAdvance(c, s, t) && s.tasks[t].pc in {SetCb, SelectLow, Fill, TakeNb, ClearTx, WaitNb}
    ensures var s' := Advance(c, s, t);
            |s'.tasks| == |s.tasks| && s'.log == s.log && Rest(s'.tasks[t]) == Rest(s.tasks[t])
  {
    var k, k' := s.tasks[t], Advance(c, s, t).tasks[t];
    assert k'.prog == k.prog && k'.pc != Start;
  }

  lemma RestLate(c: Config, s: State, t: nat)
    requires Sized(c, s) && CanAdvance(c, s, t) && s.tasks[t].pc in {GiveNb, WaitBlk, SelectHigh, CopyOut, Reacquire}
    ensures var s' := Advance(c, s, t);
            |s'.tasks| == |s.tasks| && s'.log == s.log && Rest(s'.tasks[t]) == Rest(s.tasks[t])
  {
    var k, k' := s.tasks[t], Advance(c, s, t).tasks[t];
    assert k'.prog == k.prog && k'.pc != Start;
  }

  lemma RestOnBegin(c: Config, s: State, t: nat)
    requires Sized(c, s) && CanAdvance(c, s, t) && s.tasks[t].pc == Start
    ensures var k, s' := s.tasks[t], Advance(c, s, t);
            && |s'.tasks| == |s.tasks|
            && match k.prog[0]
               case Do(a) => s'.log == s.log + [Entry(t, a)] && Rest(k) == [a] + Rest(s'.tasks[t])
               case WaitBus => s'.log == s.log && Rest(k) == Rest(s'.tasks[t])
  {
    var k, k' := s.tasks[t], Advance(c, s, t).tasks[t];
    assert k'.prog == k.prog && k'.pc != Start;
  }

  lemma AdvanceInOrder(c: Config, programs: seq<seq<Op>>, s: State, t: nat)
    requires Sized(c, s) && CanAdvance(c, s, t) && InOrder(programs, s)
    ensures InOrder(programs, Advance(c, s, t))
  {
    OneTaskMoves(c, s, t);
    if s.tasks[t].pc == Start {
      RestOnBegin(c, s, t);
      if s.tasks[t].prog[0].Do? {
        BeginInOrder(programs, s, Advance(c, s, t), t, s.tasks[t].prog[0].a);
      }
    } else if s.tasks[t].pc in {Test, PassOn, Release, Launch} {
      RestOnReturn(c, s, t);
    } else if s.tasks[t].pc in {GiveNb, WaitBlk, SelectHigh, CopyOut, Reacquire} {
      RestLate(c, s, t);
    } else {
      RestEarly(c, s, t);
    }
  }

  lemma BeginInOrder(programs: seq<seq<Op>>, s: State, s': State, t: nat, a: Access)
    requires InOrder(programs, s) && t < |s.tasks| == |s'.tasks| && s'.tasks == s.tasks[t := s'.tasks[t]]
    requires s'.log == s.log + [Entry(t, a)] && Rest(s.tasks[t]) == [a] + Rest(s'.tasks[t])
    ensures InOrder(programs, s')
  {
    forall u | 0 <= u < |programs|
      ensures Begun(s'.log, u) + Rest(s'.tasks[u]) == AccessesOf(programs[u])
    {
      BegunAppend(s.log, Entry(t, a), u);
      assert Begun(s.log, u) + Rest(s.tasks[u]) == AccessesOf(programs[u]);
      if u == t {
        MoveOver(Begun(s.log, t), a, Rest(s'.tasks[t]));
      } else {
        assert s'.tasks[u] == s.tasks[u];
        Nothing(Begun(s.log, u));
      }
    }
  }

  lemma MoveOver(begun: seq<Access>, a: Access, rest: seq<Access>)
    ensures begun + [a] + rest == begun + ([a] + rest)
  {
  }

  lemma Nothing(begun: seq<Access>)
    ensures begun + [] == begun
  {
  }

  lemma StepInOrder(c: Config, programs: seq<seq<Op>>, s: State, l: Label)
    requires Sized(c, s) && Enabled(c, s, l) && InOrder(programs, s)
    ensures InOrder(programs, Apply(c, s, l))
  {
    match l
    case TaskStep(t) => AdvanceInOrder(c, programs, s, t);
    case ClockStep(miso) => ClockKeeps(c, s, miso);
    case CallbackStep =>
  }

  lemma {:induction false} RunInOrder(c: Config, programs: seq<seq<Op>>, run: seq<State>, i: nat)
    requires ValidConfig(c) && ProgramsOk(c, programs) && IsRun(c, programs, run) && i < |run|
    ensures InOrder(programs, run[i])
  {
    if i > 0 {
      RunInOrder(c, programs, run, i - 1);
      assert Follows(c, run[i - 1], run[i]);
      var l :| Enabled(c, run[i - 1], l) && run[i] == Apply(c, run[i - 1], l);
      StepInOrder(c, programs, run[i - 1], l);
    }
  }

  /** A run that cannot be extended has executed every access of every program, each
      task's in program order, has answered each read exactly once, and leaves the
      memories of that serial execution. */
  lemma MaximalRunsFinish(c: Config, programs: seq<seq<Op>>, run: seq<State>)
    requires ValidConfig(c) && ProgramsOk(c, programs) && IsRun(c, programs, run)
    requires var s := run[|run| - 1]; Sized(c, s) && forall l :: !Enabled(c, s, l)
    ensures var s := run[|run| - 1];
            && Finished(s)
            && (forall t :: 0 <= t < |programs| ==> Begun(s.log, t) == AccessesOf(programs[t]))
            && (forall ticket :: 0 <= ticket < |s.log| && !s.log[ticket].a.h.write ==>
                  BusResults.Answers(s.results, ticket) == 1)
            && (forall d :: 0 <= d < |c.mems| ==> s.chips[d].mem == Serial(c, s.log, d))
  {
    var n := |run| - 1;
    DeadlockFree(c, programs, run, n);
    Reachable(c, programs, run, n);
    RegisterFileIsAtomic(c, programs, run, n);
    RunInOrder(c, programs, run, n);
    var s := run[n];
    forall t | 0 <= t < |programs|
      ensures Begun(s.log, t) == AccessesOf(programs[t])
    {
      assert Rest(s.tasks[t]) == [];
    }
    forall ticket | 0 <= ticket < |s.log| && !s.log[ticket].a.h.write
      ensures BusResults.Answers(s.results, ticket) == 1
    {
      assert BusResults.Answered(s, ticket);
    }
    if s.hold != Free {
      var l := HolderAdvances(c, s);
      assert false;
    }
  }
}
