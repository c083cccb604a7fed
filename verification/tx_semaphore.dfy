/** The binary transmit semaphore as a step system: the chip, and the interrupt handler and
    application tasks cut at every access to the semaphore and to the transmitter. Where
    the code releases the semaphore if it is taken, reading the count and releasing are two
    steps. */
module TxSemaphore {
  import opened Common
  import opened Runs

  /** The status bits that matter here; `rxerr` is any receive error but the overrun. */
  datatype Flags = Flags(frb: bool, frs: bool, berr: bool, fcg: bool, ovrr: bool, rxto: bool, rxerr: bool)

  const NO_FLAGS := Flags(false, false, false, false, false, false, false)

  /** Where the handler is. The Off positions are inside `dw3000_phy_forcetrxoff`, which
      the early and the late overrun branch call. At a Give position it has read the count
      as zero. */
  datatype HandlerPc =
    | Idle | AtFirstRelease | FirstGive | AtFrame
    | OffStop(early: bool) | OffClear(early: bool) | OffRelease(early: bool) | OffGive(early: bool)
    | AtBegun | AtSent | SentRelease | SentGive | AtBufErr | BufErrRelease | BufErrGive | AtTimeout | AtRxError

  /** A task inside `dw3000_phy_forcetrxoff`; at `Giving` it has read the count as zero. */
  datatype OffPc = Outside | Stopping | Clearing | Releasing | Giving

  /** `air`: a transmission is under way; `thenSleep`: the chip will sleep after it,
      without an interrupt; `snap`, `overrun`: the handler's copies; `off`: one entry per
      task that forces the radio off; `waiting`: tasks inside `dw3000_tx_wait`; `waking`:
      tasks that have read the count as zero on waking the device; `starting`, `owing`:
      tasks inside `dw3000_start_tx` that have taken the semaphore and not started the
      transmission, and releases that such calls are still to make. */
  datatype State = State(
    count: nat, air: bool, thenSleep: bool, flags: Flags,
    h: HandlerPc, snap: Flags, overrun: bool, off: seq<OffPc>, waiting: nat, waking: nat,
    starting: nat, owing: nat)

  function Init(tasks: nat): State {
    State(1, false, false, NO_FLAGS, Idle, NO_FLAGS, false, seq(tasks, i => Outside), 0, 0, 0, 0)
  }

  // -------------------------------------------------------------- handler

  /** Where the handler goes from its release of a transmission that is over. */
  function AfterFirst(s: State): HandlerPc {
    if s.snap.fcg then AtFrame else AtBegun
  }

  function AfterOff(early: bool): HandlerPc {
    if early then Idle else AtBegun
  }

  /** One handler step. `dbl`: double buffering; `over`: an expired receive timeout ends
      the receive window. */
  function HandlerStep(dbl: bool, s: State, over: bool): State {
    match s.h
    case Idle => s.(snap := s.flags, overrun := s.flags.ovrr, h := AtFirstRelease)
    case AtFirstRelease =>
      s.(h := if s.count == 0 && !(s.snap.frb && !s.snap.frs) then FirstGive else AfterFirst(s))
    case FirstGive => s.(count := s.count + 1, h := AfterFirst(s))
    case AtFrame =>
      if s.overrun then s.(h := OffStop(true))
      else if dbl && s.flags.ovrr then s.(overrun := true, h := OffStop(false))
      else s.(flags := s.flags.(fcg := false), h := AtBegun)
    case OffStop(early) => s.(air := false, h := OffClear(early))
    case OffClear(early) => s.(flags := NO_FLAGS, h := OffRelease(early))
    case OffRelease(early) => s.(h := if s.count == 0 then OffGive(early) else AfterOff(early))
    case OffGive(early) => s.(count := s.count + 1, h := AfterOff(early))
    case AtBegun =>
      s.(flags := if s.snap.frb then s.flags.(frb := false) else s.flags, h := AtSent)
    case AtSent =>
      if s.snap.frs then s.(flags := s.flags.(frb := false, frs := false), h := SentRelease)
      else s.(h := AtBufErr)
    case SentRelease => s.(h := if s.count == 0 then SentGive else AtBufErr)
    case SentGive => s.(count := s.count + 1, h := AtBufErr)
    case AtBufErr =>
      if s.snap.berr then s.(flags := s.flags.(berr := false), h := BufErrRelease)
      else s.(h := AtTimeout)
    case BufErrRelease => s.(h := if s.count == 0 then BufErrGive else AtTimeout)
    case BufErrGive => s.(count := s.count + 1, h := AtTimeout)
    case AtTimeout =>
      (if s.snap.rxto then s.(flags := s.flags.(rxto := false), air := s.air && !over) else s)
      .(h := AtRxError)
    case AtRxError =>
      (if s.snap.rxerr || s.snap.ovrr
       then s.(flags := s.flags.(rxerr := false, ovrr := false), air := s.air && dbl && s.overrun)
       else s).(h := Idle)
  }

  // ---------------------------------------------------------------- steps

  datatype Label =
    | HandlerRuns(over: bool)
    /** `dw3000_start_tx`, step by step: it takes the semaphore; it may force the radio
        to idle; it starts the transmission (`late`: a delayed start that reports an error
        and is called off; `sleep`: sleep after it; `clears`: the chip drops old transmit
        flags); it releases once if called off and once before sleep. */
    | StartPend
    | StartIdle
    | StartTx(late: bool, sleep: bool, clears: bool)
    | StartGive
    | FrameBegins
    | FrameSent
    | SentThenSleeps
    | BufferError(stops: bool)
    | Receives(fcg: bool, ovrr: bool, rxto: bool, rxerr: bool)
    | ForceOff(t: nat)
    | WakeTest
    | WakeGive
    | StopRx
    | StartRx(trxoff: bool)
    | WaitPend
    | WaitPost

  predicate Enabled(s: State, l: Label) {
    match l
    case StartPend => s.count > 0
    case StartIdle => s.starting > 0
    case StartTx(late, sleep, clears) => s.starting > 0
    case StartGive => s.owing > 0
    case FrameBegins => s.air
    case FrameSent => s.air && !s.thenSleep
    case SentThenSleeps => s.air && s.thenSleep
    case BufferError(stops) => s.air
    case ForceOff(t) => t < |s.off|
    case WaitPend => s.count > 0
    case WaitPost => s.waiting > 0
    case HandlerRuns(over) => true
    case Receives(fcg, ovrr, rxto, rxerr) => true
    case WakeTest => true
    case WakeGive => s.waking > 0
    case StopRx => true
    case StartRx(trxoff) => true
  }

  function Started(s: State, late: bool, sleep: bool, clears: bool): State
    requires s.starting > 0
  {
    var f := if clears then s.flags.(frb := false, frs := false) else s.flags;
    s.(starting := s.starting - 1, owing := s.owing + (if late then 1 else 0) + (if sleep then 1 else 0),
       air := !late, thenSleep := sleep, flags := f)
  }

  function Forced(s: State, t: nat): State
    requires t < |s.off|
  {
    match s.off[t]
    case Outside => s.(off := s.off[t := Stopping])
    case Stopping => s.(air := false, off := s.off[t := Clearing])
    case Clearing => s.(flags := NO_FLAGS, off := s.off[t := Releasing])
    case Releasing => s.(off := s.off[t := if s.count == 0 then Giving else Outside])
    case Giving => s.(count := s.count + 1, off := s.off[t := Outside])
  }

  function Apply(dbl: bool, s: State, l: Label): State
    requires Enabled(s, l)
  {
    match l
    case HandlerRuns(over) => HandlerStep(dbl, s, over)
    case StartPend => s.(count := s.count - 1, starting := s.starting + 1)
    case StartIdle => s.(air := false)
    case StartTx(late, sleep, clears) => Started(s, late, sleep, clears)
    case StartGive => s.(count := s.count + 1, owing := s.owing - 1)
    case FrameBegins => s.(flags := s.flags.(frb := true))
    case FrameSent => s.(flags := s.flags.(frs := true), air := false)
    case SentThenSleeps => s.(air := false)
    case BufferError(stops) => s.(flags := s.flags.(berr := true), air := !stops)
    case Receives(fcg, ovrr, rxto, rxerr) =>
      s.(flags := s.flags.(fcg := s.flags.fcg || fcg, ovrr := s.flags.ovrr || ovrr,
                           rxto := s.flags.rxto || rxto, rxerr := s.flags.rxerr || rxerr))
    case ForceOff(t) => Forced(s, t)
    case WakeTest => if s.count == 0 then s.(waking := s.waking + 1) else s
    case WakeGive => s.(count := s.count + 1, waking := s.waking - 1)
    case StopRx => s.(air := false, flags := Flags(false, false, s.flags.berr, false, false, false, false))
    case StartRx(trxoff) => s.(air := s.air && !trxoff)
    case WaitPend => s.(count := s.count - 1, waiting := s.waiting + 1)
    case WaitPost => s.(count := s.count + 1, waiting := s.waiting - 1)
  }

  // ---------------------------------------------------------------- claim

  /** The handler, where it is, is going to release the semaphore. */
  predicate HandlerOwes(s: State) {
    match s.h
    case Idle => false
    case AtFirstRelease => !s.snap.frb || s.snap.frs || s.snap.berr || (s.snap.fcg && s.overrun)
    case FirstGive => true
    case AtFrame => s.overrun || s.snap.frs || s.snap.berr
    case OffStop(early) => true
    case OffClear(early) => true
    case OffRelease(early) => true
    case OffGive(early) => true
    case AtBegun => s.snap.frs || s.snap.berr
    case AtSent => s.snap.frs || s.snap.berr
    case SentRelease => true
    case SentGive => true
    case AtBufErr => s.snap.berr
    case BufErrRelease => true
    case BufErrGive => true
    case AtTimeout => false
    case AtRxError => false
  }

  /** Somebody is going to release it, whatever the chip does, or to start the
      transmission it was taken for. */
  predicate Owed(s: State) {
    || HandlerOwes(s) || s.waiting > 0 || s.waking > 0 || s.starting > 0 || s.owing > 0
    || exists t :: 0 <= t < |s.off| && s.off[t] != Outside
  }

  /** While the semaphore is taken the chip is transmitting, or has reported the end of it,
      or somebody is about to release it. */
  predicate Held(s: State) {
    s.count == 0 && !Owed(s) ==> (s.air && !s.thenSleep) || s.flags.frs || s.flags.berr
  }

  /** How many tasks force the radio off and have read the count as zero. */
  function Givers(off: seq<OffPc>): nat {
    if off == [] then 0 else Givers(off[..|off| - 1]) + (if off[|off| - 1] == Giving then 1 else 0)
  }

  predicate HandlerGives(s: State) {
    s.h.FirstGive? || s.h.OffGive? || s.h.SentGive? || s.h.BufErrGive?
  }

  /** The semaphore's count, and everybody who is to give back what he has taken or to
      release because he has read zero. */
  function Tokens(s: State): nat {
    s.count + s.starting + s.waiting + s.waking + s.owing + Givers(s.off) + (if HandlerGives(s) then 1 else 0)
  }

  predicate Safe(s: State) {
    Tokens(s) <= 1 && Held(s)
  }

  /** A release test finds the semaphore taken. */
  predicate ReadsZero(s: State, l: Label) {
    && s.count == 0
    && (|| l.WakeTest?
        || (l.ForceOff? && l.t < |s.off| && s.off[l.t] == Releasing)
        || (l.HandlerRuns?
            && ((s.h.AtFirstRelease? && !(s.snap.frb && !s.snap.frs))
                || s.h.OffRelease? || s.h.SentRelease? || s.h.BufErrRelease?)))
  }

  /** A release test reads zero while somebody is about to release anyway, or is between
      taking the semaphore and the transmission; or a delayed start is called off with
      `sleep_after_tx` set, and is to release twice. */
  predicate Crowds(s: State, l: Label) {
    (ReadsZero(s, l) && Tokens(s) > 0) || (l.StartTx? && l.late && l.sleep)
  }

  /** The step turns the transmitter off and nobody will release the semaphore: the
      handler's timeout and error branches, stop-rx (which also forgets TXFRS) and
      start-rx, while a transmission is outstanding. */
  predicate Strands(dbl: bool, s: State, l: Label)
    requires Enabled(s, l)
  {
    && s.count == 0 && !Owed(s) && !s.flags.berr
    && match l
       case HandlerRuns(over) =>
         && !s.flags.frs
         && ((s.h.AtTimeout? && s.snap.rxto && over)
             || (s.h.AtRxError? && (s.snap.rxerr || s.snap.ovrr) && !(dbl && s.overrun)))
       case StartRx(trxoff) => trxoff && !s.flags.frs
       case StopRx => true
       case StartPend => false
       case StartIdle => false
       case StartTx(late, sleep, clears) => false
       case StartGive => false
       case FrameBegins => false
       case FrameSent => false
       case SentThenSleeps => false
       case BufferError(stops) => false
       case Receives(fcg, ovrr, rxto, rxerr) => false
       case ForceOff(t) => false
       case WakeTest => false
       case WakeGive => false
       case WaitPend => false
       case WaitPost => false
  }

  lemma OwedByOthers(s: State, s': State)
    requires s'.waiting == s.waiting && s'.waking == s.waking && s'.off == s.off
    requires s'.starting == s.starting && s'.owing == s.owing
    ensures !HandlerOwes(s) && Owed(s) ==> Owed(s')
  {
  }

  lemma HandlerTestHeld(dbl: bool, s: State, over: bool)
    requires Held(s)
    requires s.h.AtFirstRelease? || s.h.OffRelease? || s.h.SentRelease? || s.h.BufErrRelease?
    ensures Held(HandlerStep(dbl, s, over))
  {
    OwedByOthers(s, HandlerStep(dbl, s, over));
  }

  lemma HandlerClearHeld(dbl: bool, s: State, over: bool)
    requires Held(s)
    requires s.h.Idle? || s.h.AtFrame? || s.h.OffStop? || s.h.OffClear?
             || s.h.AtBegun? || s.h.AtSent? || s.h.AtBufErr?
    ensures Held(HandlerStep(dbl, s, over))
  {
    OwedByOthers(s, HandlerStep(dbl, s, over));
  }

  lemma HandlerTailHeld(dbl: bool, s: State, over: bool)
    requires Held(s) && (s.h.AtTimeout? || s.h.AtRxError?)
    ensures Held(HandlerStep(dbl, s, over)) <==> !Strands(dbl, s, HandlerRuns(over))
  {
    var s' := HandlerStep(dbl, s, over);
    OwedByOthers(s, s');
    OwedByOthers(s', s);
  }

  lemma HandlerHeld(dbl: bool, s: State, over: bool)
    requires Held(s)
    ensures Held(HandlerStep(dbl, s, over)) <==> !Strands(dbl, s, HandlerRuns(over))
  {
    if s.h.AtTimeout? || s.h.AtRxError? {
      HandlerTailHeld(dbl, s, over);
    } else if HandlerGives(s) {
      assert HandlerStep(dbl, s, over).count > 0;
    } else if s.h.AtFirstRelease? || s.h.OffRelease? || s.h.SentRelease? || s.h.BufErrRelease? {
      HandlerTestHeld(dbl, s, over);
    } else {
      HandlerClearHeld(dbl, s, over);
    }
  }

  lemma ForceOffHeld(s: State, t: nat)
    requires Held(s) && t < |s.off|
    ensures Held(Forced(s, t))
  {
    var s' := Forced(s, t);
    match s.off[t]
    case Outside => assert s'.off[t] != Outside;
    case Stopping => assert s'.off[t] != Outside;
    case Clearing => assert s'.off[t] != Outside;
    case Releasing => assert s.count == 0 ==> s'.off[t] != Outside;
    case Giving => assert s'.count == s.count + 1;
  }

  lemma ChipHeld(dbl: bool, s: State, l: Label)
    requires Held(s) && Enabled(s, l)
    requires l.FrameBegins? || l.FrameSent? || l.SentThenSleeps? || l.BufferError? || l.Receives?
    ensures Held(Apply(dbl, s, l))
  {
    OwedByOthers(s, Apply(dbl, s, l));
  }

  lemma StartHeld(dbl: bool, s: State, l: Label)
    requires Held(s) && Enabled(s, l) && (l.StartPend? || l.StartIdle? || l.StartTx? || l.StartGive?)
    ensures Held(Apply(dbl, s, l))
  {
  }

  lemma RxHeld(dbl: bool, s: State, l: Label)
    requires Held(s) && Enabled(s, l) && (l.StopRx? || l.StartRx?)
    ensures Held(Apply(dbl, s, l)) <==> !Strands(dbl, s, l)
  {
    OwedByOthers(s, Apply(dbl, s, l));
    OwedByOthers(Apply(dbl, s, l), s);
  }

  lemma WaitHeld(dbl: bool, s: State, l: Label)
    requires Held(s) && Enabled(s, l) && (l.WakeTest? || l.WakeGive? || l.WaitPend? || l.WaitPost?)
    ensures Held(Apply(dbl, s, l))
  {
  }

  lemma StepHeldIff(dbl: bool, s: State, l: Label)
    requires Held(s) && Enabled(s, l)
    ensures Held(Apply(dbl, s, l)) <==> !Strands(dbl, s, l)
  {
    if l.HandlerRuns? {
      HandlerHeld(dbl, s, l.over);
    } else if l.ForceOff? {
      ForceOffHeld(s, l.t);
    } else if l.StartPend? || l.StartIdle? || l.StartTx? || l.StartGive? {
      StartHeld(dbl, s, l);
    } else if l.StopRx? || l.StartRx? {
      RxHeld(dbl, s, l);
    } else if l.WakeTest? || l.WakeGive? || l.WaitPend? || l.WaitPost? {
      WaitHeld(dbl, s, l);
    } else {
      ChipHeld(dbl, s, l);
    }
  }

  // --------------------------------------------------------------- tokens

  lemma {:induction false} GiversUpdate(off: seq<OffPc>, t: nat, pc: OffPc)
    requires t < |off|
    ensures Givers(off[t := pc])
            == Givers(off) - (if off[t] == Giving then 1 else 0) + (if pc == Giving then 1 else 0)
  {
    var n := |off| - 1;
    if t == n {
      assert off[t := pc][..n] == off[..n];
    } else {
      assert off[t := pc][..n] == off[..n][t := pc];
      GiversUpdate(off[..n], t, pc);
    }
  }

  /** What the handler is not concerned with. */
  predicate SameElsewhere(s: State, s': State) {
    && s'.off == s.off && s'.starting == s.starting && s'.owing == s.owing
    && s'.waiting == s.waiting && s'.waking == s.waking
  }

  lemma HandlerTests(dbl: bool, s: State, over: bool)
    requires s.h.AtFirstRelease? || s.h.OffRelease? || s.h.SentRelease? || s.h.BufErrRelease?
    ensures var s' := HandlerStep(dbl, s, over);
            SameElsewhere(s, s') && s'.count == s.count && HandlerGives(s') == ReadsZero(s, HandlerRuns(over))
  {
  }

  lemma HandlerReleases(dbl: bool, s: State, over: bool)
    requires HandlerGives(s)
    ensures var s' := HandlerStep(dbl, s, over);
            SameElsewhere(s, s') && s'.count == s.count + 1 && !HandlerGives(s')
  {
  }

  lemma HandlerClears(dbl: bool, s: State, over: bool)
    requires s.h.Idle? || s.h.AtFrame? || s.h.OffStop? || s.h.OffClear?
    ensures var s' := HandlerStep(dbl, s, over);
            SameElsewhere(s, s') && s'.count == s.count && !HandlerGives(s')
  {
  }

  lemma HandlerGoesOn(dbl: bool, s: State, over: bool)
    requires s.h.AtBegun? || s.h.AtSent? || s.h.AtBufErr? || s.h.AtTimeout? || s.h.AtRxError?
    ensures var s' := HandlerStep(dbl, s, over);
            SameElsewhere(s, s') && s'.count == s.count && !HandlerGives(s')
  {
  }

  lemma HandlerTokens(dbl: bool, s: State, over: bool)
    ensures Tokens(HandlerStep(dbl, s, over)) == Tokens(s) + (if ReadsZero(s, HandlerRuns(over)) then 1 else 0)
  {
    if HandlerGives(s) {
      HandlerReleases(dbl, s, over);
    } else if s.h.AtFirstRelease? || s.h.OffRelease? || s.h.SentRelease? || s.h.BufErrRelease? {
      HandlerTests(dbl, s, over);
    } else if s.h.Idle? || s.h.AtFrame? || s.h.OffStop? || s.h.OffClear? {
      HandlerClears(dbl, s, over);
    } else {
      HandlerGoesOn(dbl, s, over);
    }
  }

  lemma ForcedOne(s: State, t: nat)
    requires t < |s.off|
    ensures var s' := Forced(s, t);
            && s'.off == s.off[t := s'.off[t]] && s'.h == s.h && s'.starting == s.starting && s'.owing == s.owing
            && s'.waiting == s.waiting && s'.waking == s.waking
            && s'.count == s.count + (if s.off[t] == Giving then 1 else 0)
            && (s'.off[t] == Giving <==> s.off[t] == Releasing && s.count == 0)
  {
  }

  lemma ForceOffTokens(s: State, t: nat)
    requires t < |s.off|
    ensures Tokens(Forced(s, t)) == Tokens(s) + (if ReadsZero(s, ForceOff(t)) then 1 else 0)
  {
    ForcedOne(s, t);
    GiversUpdate(s.off, t, Forced(s, t).off[t]);
  }

  /** Only a release test that reads zero and a start that is to release twice add a token;
      a start that is not to release uses its own up. */
  lemma StepTokens(dbl: bool, s: State, l: Label)
    requires Enabled(s, l)
    ensures Tokens(Apply(dbl, s, l))
            == if l.StartTx? then Tokens(s) - 1 + (if l.late then 1 else 0) + (if l.sleep then 1 else 0)
               else Tokens(s) + (if ReadsZero(s, l) then 1 else 0)
  {
    if l.HandlerRuns? {
      HandlerTokens(dbl, s, l.over);
    } else if l.ForceOff? {
      ForceOffTokens(s, l.t);
    }
  }

  /** A step from a safe state leads to a safe state exactly when it neither crowds the
      semaphore nor cuts off an outstanding transmission. */
  lemma StepSafeIff(dbl: bool, s: State, l: Label)
    requires Safe(s) && Enabled(s, l)
    ensures Safe(Apply(dbl, s, l)) <==> !Crowds(s, l) && !Strands(dbl, s, l)
  {
    StepTokens(dbl, s, l);
    StepHeldIff(dbl, s, l);
  }

  // ----------------------------------------------------------------- runs

  /** `run[i]` is the state after the first `i` of `steps`. */
  predicate IsRun(dbl: bool, run: seq<State>, steps: seq<Label>) {
    && |run| == |steps| + 1 && Safe(run[0])
    && forall i :: 0 <= i < |steps| ==> Enabled(run[i], steps[i]) && run[i + 1] == Apply(dbl, run[i], steps[i])
  }

  predicate Harmless(dbl: bool, s: State, l: Label)
    requires Enabled(s, l)
  {
    !Crowds(s, l) && !Strands(dbl, s, l)
  }

  lemma {:induction false} HarmlessRunSafe(dbl: bool, run: seq<State>, steps: seq<Label>, i: nat)
    requires IsRun(dbl, run, steps) && i < |run|
    requires forall j :: 0 <= j < |steps| ==> Harmless(dbl, run[j], steps[j])
    ensures Safe(run[i])
  {
    if i > 0 {
      HarmlessRunSafe(dbl, run, steps, i - 1);
      assert Harmless(dbl, run[i - 1], steps[i - 1]);
      StepSafeIff(dbl, run[i - 1], steps[i - 1]);
    }
  }

  /** A whole run is safe exactly when none of its steps does one of the two things. */
  lemma RunSafeIff(dbl: bool, run: seq<State>, steps: seq<Label>)
    requires IsRun(dbl, run, steps)
    ensures (forall i :: 0 <= i < |run| ==> Safe(run[i]))
            <==> forall i :: 0 <= i < |steps| ==> Harmless(dbl, run[i], steps[i])
  {
    if forall i :: 0 <= i < |steps| ==> Harmless(dbl, run[i], steps[i]) {
      forall i | 0 <= i < |run|
        ensures Safe(run[i])
      {
        HarmlessRunSafe(dbl, run, steps, i);
      }
    }
    if forall i :: 0 <= i < |run| ==> Safe(run[i]) {
      forall i | 0 <= i < |steps|
        ensures Harmless(dbl, run[i], steps[i])
      {
        assert Safe(run[i]) && Safe(run[i + 1]);
        StepSafeIff(dbl, run[i], steps[i]);
      }
    }
  }

  // ------------------------------------------------------ debts are paid

  /** The handler stops owing a release only by making one. */
  lemma DebtStep(dbl: bool, s: State, over: bool)
    requires HandlerOwes(s) && !HandlerOwes(HandlerStep(dbl, s, over))
    ensures HandlerStep(dbl, s, over).count > 0
  {
  }

  /** Nothing but the handler moves the handler. */
  lemma HandlerUntouched(dbl: bool, s: State, l: Label)
    requires Enabled(s, l) && !l.HandlerRuns?
    ensures var s' := Apply(dbl, s, l); s'.h == s.h && s'.snap == s.snap && s'.overrun == s.overrun
  {
  }

  lemma DebtKept(dbl: bool, s: State, l: Label)
    requires Enabled(s, l) && !l.HandlerRuns?
    ensures HandlerOwes(Apply(dbl, s, l)) == HandlerOwes(s)
  {
    HandlerUntouched(dbl, s, l);
  }

  lemma {:induction false} DebtIsPaid(dbl: bool, run: seq<State>, steps: seq<Label>, i: nat, j: nat)
    requires IsRun(dbl, run, steps) && i <= j < |run| && HandlerOwes(run[i]) && !HandlerOwes(run[j])
    ensures exists k :: i < k <= j && run[k].count > 0
  {
    if HandlerOwes(run[j - 1]) {
      assert run[j] == Apply(dbl, run[j - 1], steps[j - 1]);
      if steps[j - 1].HandlerRuns? {
        DebtStep(dbl, run[j - 1], steps[j - 1].over);
      } else {
        DebtKept(dbl, run[j - 1], steps[j - 1]);
      }
    } else {
      DebtIsPaid(dbl, run, steps, i, j - 1);
    }
  }

  /** Whatever interleaves with it, a handler run that starts with the end of a
      transmission reported, or with none under way, frees the semaphore before it ends. */
  lemma HandlerRunFrees(dbl: bool, run: seq<State>, steps: seq<Label>, i: nat, j: nat)
    requires IsRun(dbl, run, steps) && i < j < |run| && run[i].h.Idle? && steps[i].HandlerRuns? && run[j].h.Idle?
    requires run[i].flags.frs || run[i].flags.berr || !run[i].flags.frb
    ensures exists k :: i < k <= j && run[k].count > 0
  {
    assert run[i + 1] == HandlerStep(dbl, run[i], steps[i].over);
    DebtIsPaid(dbl, run, steps, i + 1, j);
  }

  // ------------------------------------------------------------ witnesses

  function Next(dbl: bool): (State, Label) -> Option<State> {
    (s: State, l: Label) => if Enabled(s, l) then Some(Apply(dbl, s, l)) else None
  }

  const TIMED_OUT := NO_FLAGS.(frb := true, rxto := true)
  const H := HandlerRuns(true)

  /** A handler run on that snapshot, up to the branches for receive events ... */
  lemma StrandingStart(s: State, t: State)
    requires s.h == Idle && s.count == 0 && s.flags == TIMED_OUT
    requires t == s.(snap := TIMED_OUT, overrun := false, flags := NO_FLAGS.(rxto := true), h := AtBufErr)
    ensures RunOf(Next(false), s, [H, H] + [H, H]) == Some(t)
  {
    var u := t.(flags := TIMED_OUT);
    TwoSteps(Next(false), s, H, u.(h := AtFirstRelease), H, u.(h := AtBegun));
    TwoSteps(Next(false), u.(h := AtBegun), H, t.(h := AtSent), H, t);
    Then(Next(false), s, [H, H], u.(h := AtBegun), [H, H], t);
  }

  /** ... and to its end. */
  lemma StrandingEnd(s: State, t: State)
    requires s.h == AtBufErr && s.snap == TIMED_OUT && s.flags == NO_FLAGS.(rxto := true)
    requires t == s.(flags := NO_FLAGS, air := false, h := Idle)
    ensures RunOf(Next(false), s, [H, H] + [H]) == Some(t)
  {
    TwoSteps(Next(false), s, H, s.(h := AtTimeout), H, t.(h := AtRxError));
    OneStep(Next(false), t.(h := AtRxError), H, t);
    Then(Next(false), s, [H, H], t.(h := AtRxError), [H], t);
  }

  const BEFORE: Label := Receives(false, false, true, false)
  const GO: Label := StartTx(false, false, false)

  /** A receive timeout, then a transmission. */
  lemma StrandingSend(s: State, t: State)
    requires s.count == 1 && s.starting == 0 && s.owing == 0 && s.flags == NO_FLAGS && s.h == Idle
    requires t == s.(count := 0, air := true, thenSleep := false, flags := TIMED_OUT)
    ensures RunOf(Next(false), s, [BEFORE, StartPend] + [GO, FrameBegins]) == Some(t)
  {
    var u := s.(flags := NO_FLAGS.(rxto := true));
    var v := u.(count := 0, starting := 1);
    var w := t.(flags := u.flags);
    TwoSteps(Next(false), s, BEFORE, u, StartPend, v);
    TwoSteps(Next(false), v, GO, w, FrameBegins, t);
    Then(Next(false), s, [BEFORE, StartPend], v, [GO, FrameBegins], t);
  }

  /** The handler itself strands the semaphore: a receive timeout left over from before
      the transmission is in the same snapshot as TXFRB. */
  lemma HandlerStrands()
    ensures
      var end := RunOf(Next(false), Init(0),
                       [BEFORE, StartPend] + [GO, FrameBegins] + ([H, H] + [H, H]) + ([H, H] + [H]));
      && end.Some? && end.value.h == Idle && end.value.count == 0
      && !end.value.air && end.value.flags == NO_FLAGS && !Owed(end.value)
  {
    var s0 := Init(0);
    var s1 := s0.(count := 0, air := true, flags := TIMED_OUT);
    var s2 := s1.(snap := TIMED_OUT, overrun := false, flags := NO_FLAGS.(rxto := true), h := AtBufErr);
    var s3 := s2.(flags := NO_FLAGS, air := false, h := Idle);
    StrandingSend(s0, s1);
    StrandingStart(s1, s2);
    StrandingEnd(s2, s3);
    Then(Next(false), s0, [BEFORE, StartPend] + [GO, FrameBegins], s1, [H, H] + [H, H], s2);
    Then(Next(false), s0, [BEFORE, StartPend] + [GO, FrameBegins] + ([H, H] + [H, H]), s2, [H, H] + [H], s3);
  }

  /** A delayed start that is called off with `sleep_after_tx` set releases twice. */
  lemma CalledOffOverfills()
    ensures
      var end := RunOf(Next(false), Init(0), [StartPend, StartTx(true, true, false)] + [StartGive, StartGive]);
      end.Some? && end.value.count == 2
  {
    var s0 := Init(0);
    var s1 := s0.(count := 0, thenSleep := true, owing := 2);
    var s2 := s1.(count := 1, owing := 1);
    TwoSteps(Next(false), s0, StartPend, s0.(count := 0, starting := 1), StartTx(true, true, false), s1);
    TwoSteps(Next(false), s1, StartGive, s2, StartGive, s2.(count := 2, owing := 0));
    Then(Next(false), s0, [StartPend, StartTx(true, true, false)], s1, [StartGive, StartGive],
         s2.(count := 2, owing := 0));
  }

  /** The handler run of an unrelated event, as far as its first release. */
  lemma FirstReleased(s: State, t: State)
    requires s.h == AtFirstRelease && s.count == 0 && !s.snap.frb && !s.snap.fcg && t == s.(count := 1, h := AtBegun)
    ensures RunOf(Next(false), s, [H, H]) == Some(t)
  {
    TwoSteps(Next(false), s, H, s.(h := FirstGive), H, t);
  }

  lemma WaitTaken(s: State, t: State)
    requires s.h == Idle && s.count == 1 && s.flags == s.snap == NO_FLAGS && !s.overrun
    requires t == s.(count := 0, waiting := s.waiting + 1, h := AtFirstRelease)
    ensures RunOf(Next(false), s, [WaitPend, H]) == Some(t)
  {
    TwoSteps(Next(false), s, WaitPend, t.(h := Idle), H, t);
  }

  lemma WaitEnds(s: State, t: State)
    requires s.h == AtFirstRelease && s.count == 0 && s.waiting == 1 && !s.snap.frb && !s.snap.fcg
    requires t == s.(count := 2, waiting := 0, h := AtBegun)
    ensures RunOf(Next(false), s, [H, H] + [WaitPost]) == Some(t)
  {
    var u := s.(count := 1, h := AtBegun);
    FirstReleased(s, u);
    OneStep(Next(false), u, WaitPost, t);
    Then(Next(false), s, [H, H], u, [WaitPost], t);
  }

  /** With `dw3000_tx_wait` cut between its two semaphore calls, a handler run for an
      unrelated event fills the semaphore twice. */
  lemma WaitOverfills()
    ensures
      var end := RunOf(Next(false), Init(0), [WaitPend, H] + ([H, H] + [WaitPost]));
      end.Some? && end.value.count == 2
  {
    var s0 := Init(0);
    var s1 := s0.(count := 0, waiting := 1, h := AtFirstRelease);
    var s2 := s1.(count := 2, waiting := 0, h := AtBegun);
    WaitTaken(s0, s1);
    WaitEnds(s1, s2);
    Then(Next(false), s0, [WaitPend, H], s1, [H, H] + [WaitPost], s2);
  }

  const OFF := ForceOff(0)

  /** Force-off has read the count as zero. */
  lemma OffHasTested(s: State, t: State)
    requires s.count == 0 && s.off == [Outside] && t == s.(air := false, flags := NO_FLAGS, off := [Giving])
    ensures RunOf(Next(false), s, [OFF, OFF] + [OFF, OFF]) == Some(t)
  {
    var u := s.(air := false, off := [Clearing]);
    assert [Outside][0 := Stopping] == [Stopping] && [Stopping][0 := Clearing] == [Clearing];
    assert [Clearing][0 := Releasing] == [Releasing] && [Releasing][0 := Giving] == [Giving];
    TwoSteps(Next(false), s, OFF, s.(off := [Stopping]), OFF, u);
    TwoSteps(Next(false), u, OFF, t.(off := [Releasing]), OFF, t);
    Then(Next(false), s, [OFF, OFF], u, [OFF, OFF], t);
  }

  /** Force-off in a task and a handler run: both read the count as zero, both release. */
  lemma BothRelease()
    ensures
      var end := RunOf(Next(false), Init(1), [StartPend, GO] + ([OFF, OFF] + [OFF, OFF]) + [H, H] + [OFF, H]);
      end.Some? && end.value.count == 2
  {
    var s0 := Init(1);
    var s1 := s0.(count := 0, air := true);
    var s2 := s0.(count := 0, off := [Giving]);
    var s3 := s2.(h := FirstGive);
    var s4 := s3.(count := 1, off := [Outside]);
    assert s0.off == [Outside] && [Giving][0 := Outside] == [Outside];
    TwoSteps(Next(false), s0, StartPend, s0.(count := 0, starting := 1), GO, s1);
    OffHasTested(s1, s2);
    Then(Next(false), s0, [StartPend, GO], s1, [OFF, OFF] + [OFF, OFF], s2);
    TwoSteps(Next(false), s2, H, s2.(h := AtFirstRelease), H, s3);
    Then(Next(false), s0, [StartPend, GO] + ([OFF, OFF] + [OFF, OFF]), s2, [H, H], s3);
    BothGive(s3, s4);
    Then(Next(false), s0, [StartPend, GO] + ([OFF, OFF] + [OFF, OFF]) + [H, H], s3, [OFF, H],
         s4.(count := 2, h := AtBegun));
  }

  lemma BothGive(s: State, t: State)
    requires s.count == 0 && s.off == [Giving] && s.h == FirstGive && !s.snap.fcg
    requires t == s.(count := 1, off := [Outside])
    ensures RunOf(Next(false), s, [OFF, H]) == Some(t.(count := 2, h := AtBegun))
  {
    assert [Giving][0 := Outside] == [Outside];
    TwoSteps(Next(false), s, OFF, t, H, t.(count := 2, h := AtBegun));
  }
}
