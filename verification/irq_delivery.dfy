/** From the chip's interrupt line to the event task: an edge-triggered pin, an
    interrupt routine that is mute while the device sleeps, one queueable event, and
    a handler that looks at the pin once more before it ends. */
module IrqDelivery {
  import opened RegisterBits
  import opened Runs

  /** `Leaving(pin)`: the handler has sampled the pin and is about to act on it. */
  datatype Phase = Idle | Running | Leaving(pin: bool)

  /** `edge` is a rise the interrupt controller has latched but not served. `muted` is
      history: the interrupt routine last ran, for the present high level of the pin,
      while the device was marked asleep. */
  datatype State = State(status: Bits, mask: Bits, edge: bool, sleeping: bool, queued: bool, phase: Phase, muted: bool)

  predicate Pin(s: State) {
    Has(s.status, s.mask)
  }

  /** What can happen between any two instructions. The handler's own register writes
      and those of other tasks are the three write steps, in any order and number. */
  datatype Step =
    | Raise(bits: Bits)
    | WriteStatus(bits: Bits)
    | WriteMask(mask: Bits)
    | Sleep(on: bool)
    | Isr
    | Dispatch
    | SamplePin
    | Leave

  predicate Enabled(s: State, step: Step) {
    match step
    case Isr => s.edge
    case Dispatch => s.queued && s.phase == Idle
    case SamplePin => s.phase == Running
    case Leave => s.phase.Leaving?
    case _ => true
  }

  /** A register change, with what the pin makes of it. */
  function Registers(s: State, status: Bits, mask: Bits): State {
    var s' := s.(status := status, mask := mask);
    s'.(edge := s.edge || (!Pin(s) && Pin(s')), muted := s.muted && Pin(s'))
  }

  function Apply(s: State, step: Step): State
    requires Enabled(s, step)
  {
    match step
    case Raise(bits) => Registers(s, s.status + bits, s.mask)
    case WriteStatus(bits) => Registers(s, s.status - bits, s.mask)
    case WriteMask(mask) => Registers(s, s.status, mask)
    case Sleep(on) => s.(sleeping := on)
    case Isr =>
      if s.sleeping then s.(edge := false, muted := Pin(s))
      else s.(edge := false, queued := true, muted := false)
    case Dispatch => s.(queued := false, phase := Running)
    case SamplePin => s.(phase := Leaving(Pin(s)))
    case Leave => s.(phase := Idle, queued := s.queued || s.phase.pin, muted := s.muted && !s.phase.pin)
  }

  ghost predicate Follows(s: State, s': State) {
    exists step :: Enabled(s, step) && s' == Apply(s, step)
  }

  /** Runs start with a low pin and no handler at work. */
  ghost predicate IsRun(run: seq<State>) {
    && |run| > 0 && !Pin(run[0]) && run[0].phase == Idle && !run[0].muted
    && forall i :: 0 < i < |run| ==> Follows(run[i - 1], run[i])
  }

  lemma StepTaken(run: seq<State>, i: nat) returns (step: Step)
    requires IsRun(run) && 0 < i < |run|
    ensures Enabled(run[i - 1], step) && run[i] == Apply(run[i - 1], step)
  {
    assert Follows(run[i - 1], run[i]);
    step :| Enabled(run[i - 1], step) && run[i] == Apply(run[i - 1], step);
  }

  predicate Announced(s: State) {
    s.edge || s.queued || s.muted
  }

  /** A high pin is announced, but for a handler that has not sampled it yet or has
      seen it high. */
  predicate Inv(s: State) {
    Pin(s) && s.phase != Running && s.phase != Leaving(true) ==> Announced(s)
  }

  lemma StepKeepsInv(s: State, step: Step)
    requires Inv(s) && Enabled(s, step)
    ensures Inv(Apply(s, step))
  {
  }

  lemma {:induction false} RunKeepsInv(run: seq<State>, i: nat)
    requires IsRun(run) && i < |run|
    ensures Inv(run[i])
  {
    if i > 0 {
      RunKeepsInv(run, i - 1);
      var step := StepTaken(run, i);
      StepKeepsInv(run[i - 1], step);
    }
  }

  /** No interrupt is lost: whatever the chip, the handler and other tasks did, while
      no handler runs and the pin is high an event is queued or the interrupt routine
      is about to run, unless the routine last found the device marked asleep. */
  lemma NoLostInterrupt(run: seq<State>, i: nat)
    requires IsRun(run) && i < |run|
    requires run[i].phase == Idle && Pin(run[i])
    ensures run[i].queued || run[i].edge || run[i].muted
  {
    RunKeepsInv(run, i);
  }

  /** The interrupt routine loses a rise exactly when it finds the device marked asleep
      and no event queued for another reason. */
  lemma SleepLosesIff(s: State)
    requires Inv(s) && s.phase == Idle && Pin(s) && s.edge
    ensures var s' := Apply(s, Isr); !s'.queued && !s'.edge <==> s.sleeping && !s.queued
  {
  }

  /** The routine ran while the device was marked asleep, and the pin is high ever since. */
  ghost predicate LostAt(run: seq<State>, j: nat, i: nat)
    requires j < i < |run|
  {
    && run[j].edge && run[j].sleeping && run[j + 1] == Apply(run[j], Isr)
    && HighFrom(run, j, i)
  }

  ghost predicate HighFrom(run: seq<State>, j: nat, i: nat)
    requires i < |run|
  {
    forall k :: j <= k <= i ==> Pin(run[k])
  }

  lemma HighBefore(run: seq<State>, j: nat, i: nat)
    requires j < i < |run| && HighFrom(run, j, i)
    ensures HighFrom(run, j, i - 1) && Pin(run[i - 1]) && Pin(run[i])
  {
  }

  lemma {:induction false} MutedBecause(run: seq<State>, i: nat)
    requires IsRun(run) && i < |run| && run[i].muted
    ensures Pin(run[i]) && exists j: nat :: j < i && LostAt(run, j, i)
  {
    var step := StepTaken(run, i);
    if step.Isr? {
      assert LostAt(run, i - 1, i);
    } else {
      if run[i - 1].muted {
        MutedBecause(run, i - 1);
      }
      PinStays(run[i - 1], step);
      var j: nat :| j < i - 1 && LostAt(run, j, i - 1);
      StillLost(run, j, i);
    }
  }

  lemma StillLost(run: seq<State>, j: nat, i: nat)
    requires j < i - 1 && i < |run| && LostAt(run, j, i - 1) && Pin(run[i])
    ensures LostAt(run, j, i)
  {
  }

  lemma RegistersMuted(s: State, status: Bits, mask: Bits)
    requires Registers(s, status, mask).muted
    ensures s.muted && Pin(Registers(s, status, mask))
  {
  }

  lemma PinStays(s: State, step: Step)
    requires Enabled(s, step) && !step.Isr? && Apply(s, step).muted && (s.muted ==> Pin(s))
    ensures s.muted && Pin(Apply(s, step))
  {
    match step
    case Raise(bits) => RegistersMuted(s, s.status + bits, s.mask);
    case WriteStatus(bits) => RegistersMuted(s, s.status - bits, s.mask);
    case WriteMask(mask) => RegistersMuted(s, s.status, mask);
    case Sleep(on) =>
    case Dispatch =>
    case SamplePin =>
    case Leave =>
    case Isr =>
  }

  /** An event is queued, or the handler has yet to sample the pin or has seen it high. */
  predicate Busy(s: State) {
    s.queued || s.phase == Running || s.phase == Leaving(true)
  }

  lemma BusyStays(s: State, step: Step)
    requires Enabled(s, step) && Busy(s) && Pin(s) && Pin(Apply(s, step))
    ensures Busy(Apply(s, step))
  {
  }

  lemma {:induction false} BusyUntil(run: seq<State>, k: nat, i: nat)
    requires IsRun(run) && k <= i < |run| && Busy(run[k]) && HighFrom(run, k, i)
    ensures Busy(run[i])
  {
    if k < i {
      HighBefore(run, k, i);
      BusyUntil(run, k, i - 1);
      var step := StepTaken(run, i);
      BusyStays(run[i - 1], step);
    }
  }

  lemma QuietStays(s: State, step: Step)
    requires Enabled(s, step) && Pin(s) && Pin(Apply(s, step)) && !s.edge && !Busy(s)
    ensures !Apply(s, step).edge && !Busy(Apply(s, step))
  {
  }

  lemma {:induction false} QuietUntil(run: seq<State>, k: nat, i: nat)
    requires IsRun(run) && k <= i < |run| && !run[k].edge && !Busy(run[k]) && HighFrom(run, k, i)
    ensures !run[i].edge && !Busy(run[i])
  {
    if k < i {
      HighBefore(run, k, i);
      QuietUntil(run, k, i - 1);
      var step := StepTaken(run, i);
      QuietStays(run[i - 1], step);
    }
  }

  /** So over every run, a high pin that an idle handler will not come back to has one
      cause, and the cause is sufficient: the routine met a sleeping device while no event
      was queued and no handler was still to look at the pin, and the pin is high ever
      since. */
  lemma LossHasOneCause(run: seq<State>, i: nat)
    requires IsRun(run) && i < |run| && run[i].phase == Idle && Pin(run[i])
    ensures !run[i].queued && !run[i].edge <==> exists j: nat :: j < i && LostAt(run, j, i) && !Busy(run[j])
  {
    if !run[i].queued && !run[i].edge {
      NoLostInterrupt(run, i);
      MutedBecause(run, i);
      var j: nat :| j < i && LostAt(run, j, i);
      if Busy(run[j]) {
        BusyUntil(run, j, i);
      }
    }
    if j: nat :| j < i && LostAt(run, j, i) && !Busy(run[j]) {
      QuietUntil(run, j + 1, i);
    }
  }

  /** A high pin that nothing announces stays so whatever the chip adds: only software (a
      write, or a handler dispatched for something else) can recover it. */
  lemma MutedStaysLost(s: State, bits: Bits)
    requires s.phase == Idle && Pin(s) && !s.queued && !s.edge
    ensures var s' := Apply(s, Raise(bits));
            Pin(s') && !s'.queued && !s'.edge && s'.phase == Idle
  {
    var i :| i in s.mask && i in s.status;
    assert i in s.status + bits;
  }

  /** The exception is real: a rise served while asleep is lost although the device is
      marked awake right after. */
  lemma LostWhileAsleep() returns (run: seq<State>)
    ensures IsRun(run)
    ensures var s := run[|run| - 1]; s.phase == Idle && Pin(s) && !s.queued && !s.edge && !s.sleeping
  {
    var s0 := State({}, CPLOCK, false, true, false, Idle, false);
    var s1 := Apply(s0, Raise(CPLOCK));
    var s2 := Apply(s1, Isr);
    var s3 := Apply(s2, Sleep(false));
    assert Enabled(s0, Raise(CPLOCK)) && Enabled(s1, Isr) && Enabled(s2, Sleep(false));
    assert Follows(s0, s1) && Follows(s1, s2) && Follows(s2, s3);
    run := [s0, s1, s2, s3];
  }

  // ------------------------------------------------- no event for nothing

  /** The next state; a step that is not possible leaves the state as it is. */
  function Taken(s: State, step: Step): State {
    if Enabled(s, step) then Apply(s, step) else s
  }

  /** The interrupt routine runs while the device is awake. */
  predicate Served(s: State, step: Step) {
    Enabled(s, step) && step.Isr? && !s.sleeping
  }

  /** The handler leaves, having found the pin high. */
  predicate LeavesHigh(s: State, step: Step) {
    Enabled(s, step) && step.Leave? && s.phase.pin
  }

  predicate Queues(s: State, step: Step) {
    Served(s, step) || LeavesHigh(s, step)
  }

  predicate Dispatches(s: State, step: Step) {
    Enabled(s, step) && step.Dispatch?
  }

  lemma QueueStep(s: State, step: Step)
    ensures Taken(s, step).queued == (!Dispatches(s, step) && (s.queued || Queues(s, step)))
  {
  }

  /** Over any run an event is queued exactly when, since the last dispatch, the routine
      ran while the device was awake or a handler left that had found the pin high. */
  lemma QueuedIff(s: State, steps: seq<Step>)
    ensures Reached(Taken, s, steps, |steps|).queued
            <==> Latched(s.queued, Marks(Taken, s, steps, Queues), Marks(Taken, s, steps, Dispatches))
  {
    forall s, step {
      QueueStep(s, step);
    }
    var on, off := Marks(Taken, s, steps, Queues), Marks(Taken, s, steps, Dispatches);
    LatchIff(Taken, s, steps, |steps|, (s: State) => s.queued, Queues, Dispatches);
    assert on[..|steps|] == on && off[..|steps|] == off;
  }

  lemma LeavingStep(s: State, step: Step)
    requires Taken(s, step).phase.Leaving?
    ensures if s.phase.Leaving? then Taken(s, step).phase == s.phase
            else step.SamplePin? && Enabled(s, SamplePin) && Taken(s, step).phase.pin == Pin(s)
  {
  }

  /** What a handler has found is what the pin was when it looked. */
  lemma {:induction false} FoundWhatWas(s: State, steps: seq<Step>, k: nat) returns (j: nat)
    requires k <= |steps| && !s.phase.Leaving? && Reached(Taken, s, steps, k).phase.Leaving?
    ensures j < k && steps[j].SamplePin? && Enabled(Reached(Taken, s, steps, j), SamplePin)
    ensures Reached(Taken, s, steps, k).phase.pin == Pin(Reached(Taken, s, steps, j))
  {
    LeavingStep(Reached(Taken, s, steps, k - 1), steps[k - 1]);
    if Reached(Taken, s, steps, k - 1).phase.Leaving? {
      j := FoundWhatWas(s, steps, k - 1);
    } else {
      j := k - 1;
    }
  }

  /** Nothing is under way and nothing calls for it. */
  predicate AtRest(s: State) {
    !Pin(s) && !s.queued && !s.edge && s.phase == Idle
  }

  lemma RestStep(s: State, step: Step)
    requires AtRest(s) && !Pin(Taken(s, step))
    ensures AtRest(Taken(s, step))
  {
  }

  /** Without a rise of the pin no event is ever queued and no handler ever runs. */
  lemma {:induction false} RestsWithoutRise(s: State, steps: seq<Step>, k: nat)
    requires k <= |steps| && AtRest(s) && forall j :: 0 <= j <= |steps| ==> !Pin(Reached(Taken, s, steps, j))
    ensures AtRest(Reached(Taken, s, steps, k))
  {
    if k > 0 {
      RestsWithoutRise(s, steps, k - 1);
      assert !Pin(Reached(Taken, s, steps, k));
      RestStep(Reached(Taken, s, steps, k - 1), steps[k - 1]);
    }
  }

  // ------------------------------------------------------------- registers

  /** A step after which the pin is high and before which it was low. */
  predicate Rises(s: State, step: Step) {
    !Pin(s) && Pin(Taken(s, step))
  }

  predicate Interrupts(s: State, step: Step) {
    Enabled(s, step) && step.Isr?
  }

  lemma EdgeStep(s: State, step: Step)
    ensures Taken(s, step).edge == (!Interrupts(s, step) && (s.edge || Rises(s, step)))
  {
  }

  /** The routine is due exactly when the pin has risen since it last ran. */
  lemma EdgeIff(s: State, steps: seq<Step>)
    ensures Reached(Taken, s, steps, |steps|).edge
            <==> Latched(s.edge, Marks(Taken, s, steps, Rises), Marks(Taken, s, steps, Interrupts))
  {
    forall s, step {
      EdgeStep(s, step);
    }
    var on, off := Marks(Taken, s, steps, Rises), Marks(Taken, s, steps, Interrupts);
    LatchIff(Taken, s, steps, |steps|, (s: State) => s.edge, Rises, Interrupts);
    assert on[..|steps|] == on && off[..|steps|] == off;
  }

  function Raising(i: nat): (State, Step) -> bool {
    (s: State, step: Step) => step.Raise? && i in step.bits
  }

  function Clearing(i: nat): (State, Step) -> bool {
    (s: State, step: Step) => step.WriteStatus? && i in step.bits
  }

  function Unmasking(i: nat): (State, Step) -> bool {
    (s: State, step: Step) => step.WriteMask? && i in step.mask
  }

  function Masking(i: nat): (State, Step) -> bool {
    (s: State, step: Step) => step.WriteMask? && i !in step.mask
  }

  /** A status bit is set exactly when the chip has raised it since it was last cleared. */
  lemma StatusIff(s: State, steps: seq<Step>, i: nat)
    ensures i in Reached(Taken, s, steps, |steps|).status
            <==> Latched(i in s.status, Marks(Taken, s, steps, Raising(i)), Marks(Taken, s, steps, Clearing(i)))
  {
    var on, off := Marks(Taken, s, steps, Raising(i)), Marks(Taken, s, steps, Clearing(i));
    LatchIff(Taken, s, steps, |steps|, (s: State) => i in s.status, Raising(i), Clearing(i));
    assert on[..|steps|] == on && off[..|steps|] == off;
  }

  /** A mask bit is what the last write to the mask makes it. */
  lemma MaskIff(s: State, steps: seq<Step>, i: nat)
    ensures i in Reached(Taken, s, steps, |steps|).mask
            <==> Latched(i in s.mask, Marks(Taken, s, steps, Unmasking(i)), Marks(Taken, s, steps, Masking(i)))
  {
    var on, off := Marks(Taken, s, steps, Unmasking(i)), Marks(Taken, s, steps, Masking(i));
    LatchIff(Taken, s, steps, |steps|, (s: State) => i in s.mask, Unmasking(i), Masking(i));
    assert on[..|steps|] == on && off[..|steps|] == off;
  }

  /** A handler that nothing disturbs runs to its end, and an event is queued afterwards
      exactly when the pin is high. */
  lemma HandlerAlone(s: State)
    requires s.queued && s.phase == Idle
    ensures var t := Reached(Taken, s, [Dispatch, SamplePin, Leave], 3);
            t.phase == Idle && t.queued == Pin(s) && t.status == s.status && t.mask == s.mask && t.edge == s.edge
  {
    var steps := [Dispatch, SamplePin, Leave];
    assert Reached(Taken, s, steps, 1) == Apply(s, Dispatch);
    assert Reached(Taken, s, steps, 2) == Apply(Apply(s, Dispatch), SamplePin);
  }
}
