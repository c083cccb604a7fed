/** Over any run of chip, handler and starts of reception: when the receiver is on, and when
    an overrun, an error or a timeout stands in the status register. */
module BufferStatus {
  import opened DoubleBuffer
  import opened Runs

  /** The next state; a step that is not possible leaves the state as it is. */
  function Taken(size: nat): (State, Label) -> State {
    (s: State, l: Label) => if Enabled(s, l) then Apply(size, s, l) else s
  }

  // ---------------------------------------------------------- the receiver

  predicate HandlerTurnsOn(s: State, over: bool) {
    s.h.RecEnable? || s.h.ErrEnable? || (s.h.AtTimeout? && s.local.snap.rxto && !over)
  }

  predicate HandlerTurnsOff(s: State, over: bool) {
    s.h.RecStop? || s.h.ErrStop? || (s.h.AtTimeout? && s.local.snap.rxto && over)
  }

  /** The driver turns the receiver on, or it stays on after a frame. */
  predicate TurnsOn(s: State, l: Label) {
    && Enabled(s, l)
    && (l.StartRx? || l.Reenable? || (l.ScribbleEnds? && l.stays) || (l.Handler? && HandlerTurnsOn(s, l.over)))
  }

  predicate TurnsOff(s: State, l: Label) {
    && Enabled(s, l)
    && (|| (l.Good? && !l.stays) || (l.ScribbleEnds? && !l.stays) || l.RxTimeout?
        || (l.Handler? && HandlerTurnsOff(s, l.over)))
  }

  lemma ReadReceiver(size: nat, s: State, hi: bool)
    requires s.h.AtFrame? || s.h.ReadLen? || s.h.ReadBytes? || s.h.AtCheck?
    ensures Take(size, s, hi).chip.rxOn == s.chip.rxOn
  {
  }

  lemma TakeReceiver(size: nat, s: State, hi: bool)
    requires Taking(s.h)
    ensures Take(size, s, hi).chip.rxOn == s.chip.rxOn
  {
    if s.h.AtFrame? || s.h.ReadLen? || s.h.ReadBytes? || s.h.AtCheck? {
      ReadReceiver(size, s, hi);
    }
  }

  lemma RecoverReceiver(s: State, over: bool)
    requires Recovering(s.h)
    ensures Recover(s).chip.rxOn == (!HandlerTurnsOff(s, over) && (s.chip.rxOn || HandlerTurnsOn(s, over)))
  {
  }

  lemma TimeoutReceiver(s: State, over: bool)
    requires s.h.AtTimeout?
    ensures Repair(s, over).chip.rxOn == if s.local.snap.rxto then !over else s.chip.rxOn
  {
  }

  lemma ErrorReceiver(s: State, over: bool)
    requires s.h.ErrClear? || s.h.ErrStop? || s.h.ErrToggle? || s.h.ErrSync? || s.h.ErrEnable?
    ensures Repair(s, over).chip.rxOn == (!s.h.ErrStop? && (s.chip.rxOn || s.h.ErrEnable?))
  {
  }

  lemma RepairReceiver(s: State, over: bool)
    requires !Taking(s.h) && !Recovering(s.h)
    ensures Repair(s, over).chip.rxOn == (!HandlerTurnsOff(s, over) && (s.chip.rxOn || HandlerTurnsOn(s, over)))
  {
    if s.h.AtTimeout? {
      TimeoutReceiver(s, over);
    } else {
      ErrorReceiver(s, over);
    }
  }

  lemma HandlerReceiver(size: nat, s: State, over: bool, hi: bool)
    ensures HandlerStep(size, s, over, hi).chip.rxOn
            == (!HandlerTurnsOff(s, over) && (s.chip.rxOn || HandlerTurnsOn(s, over)))
  {
    if Taking(s.h) {
      TakeReceiver(size, s, hi);
    } else if Recovering(s.h) {
      RecoverReceiver(s, over);
    } else {
      RepairReceiver(s, over);
    }
  }

  lemma ReceiverStep(size: nat, s: State, l: Label)
    ensures Taken(size)(s, l).chip.rxOn == (!TurnsOff(s, l) && (s.chip.rxOn || TurnsOn(s, l)))
  {
    if l.Handler? {
      HandlerReceiver(size, s, l.over, l.hi);
    }
  }

  /** The receiver is on exactly when it has been turned on and not off since. */
  lemma ReceiverIff(size: nat, s: State, steps: seq<Label>)
    ensures Reached(Taken(size), s, steps, |steps|).chip.rxOn
            <==> Latched(s.chip.rxOn, Marks(Taken(size), s, steps, TurnsOn), Marks(Taken(size), s, steps, TurnsOff))
  {
    forall s, l {
      ReceiverStep(size, s, l);
    }
    var on, off := Marks(Taken(size), s, steps, TurnsOn), Marks(Taken(size), s, steps, TurnsOff);
    LatchIff(Taken(size), s, steps, |steps|, (s: State) => s.chip.rxOn, TurnsOn, TurnsOff);
    assert on[..|steps|] == on && off[..|steps|] == off;
  }

  // ------------------------------------------------------ the status bits

  predicate Overruns(s: State, l: Label) {
    l.Flag? && Enabled(s, l)
  }

  /** RXOVRR goes where the handler deals with it, and with every clear of the errors. */
  predicate ClearsOverrun(s: State, l: Label) {
    && l.Handler?
    && ((s.h.AtFrame? && s.local.overrun) || s.h.AtCheck? || s.h.RecClear? || s.h.ErrClear?)
  }

  predicate Errs(s: State, l: Label) {
    l.RxError? && Enabled(s, l)
  }

  predicate ClearsError(s: State, l: Label) {
    l.Handler? && (s.h.RecClear? || s.h.ErrClear?)
  }

  predicate Expires(s: State, l: Label) {
    l.RxTimeout? && Enabled(s, l)
  }

  predicate ClearsTimeout(s: State, l: Label) {
    l.Handler? && (s.h.RecClear? || (s.h.AtTimeout? && s.local.snap.rxto))
  }

  /** From one state of the status bits to another, with some cleared. */
  predicate Cleared(c: Chip, d: Chip, ovrr: bool, err: bool, rxto: bool) {
    d.ovrr == (c.ovrr && !ovrr) && d.err == (c.err && !err) && d.rxto == (c.rxto && !rxto)
  }

  lemma TakeStatus(size: nat, s: State, hi: bool)
    requires Taking(s.h)
    ensures Cleared(s.chip, Take(size, s, hi).chip, (s.h.AtFrame? && s.local.overrun) || s.h.AtCheck?, false, false)
  {
  }

  lemma RecoverStatus(s: State)
    requires Recovering(s.h)
    ensures Cleared(s.chip, Recover(s).chip, s.h.RecClear?, s.h.RecClear?, s.h.RecClear?)
  {
  }

  lemma TimeoutStatus(s: State, over: bool)
    requires s.h.AtTimeout?
    ensures Cleared(s.chip, Repair(s, over).chip, false, false, s.local.snap.rxto)
  {
  }

  lemma ErrorStatus(s: State, over: bool)
    requires s.h.ErrClear? || s.h.ErrStop? || s.h.ErrToggle? || s.h.ErrSync? || s.h.ErrEnable?
    ensures Cleared(s.chip, Repair(s, over).chip, s.h.ErrClear?, s.h.ErrClear?, false)
  {
  }

  lemma RepairStatus(s: State, over: bool)
    requires !Taking(s.h) && !Recovering(s.h)
    ensures Cleared(s.chip, Repair(s, over).chip, s.h.ErrClear?, s.h.ErrClear?, s.h.AtTimeout? && s.local.snap.rxto)
  {
    if s.h.AtTimeout? {
      TimeoutStatus(s, over);
    } else {
      ErrorStatus(s, over);
    }
  }

  lemma HandlerStatus(size: nat, s: State, over: bool, hi: bool)
    ensures var l := Handler(over, hi);
            Cleared(s.chip, HandlerStep(size, s, over, hi).chip,
                    ClearsOverrun(s, l), ClearsError(s, l), ClearsTimeout(s, l))
  {
    if Taking(s.h) {
      TakeStatus(size, s, hi);
    } else if Recovering(s.h) {
      RecoverStatus(s);
    } else {
      RepairStatus(s, over);
    }
  }

  lemma StatusStep(size: nat, s: State, l: Label)
    ensures var c := Taken(size)(s, l).chip;
            && c.ovrr == (!ClearsOverrun(s, l) && (s.chip.ovrr || Overruns(s, l)))
            && c.err == (!ClearsError(s, l) && (s.chip.err || Errs(s, l)))
            && c.rxto == (!ClearsTimeout(s, l) && (s.chip.rxto || Expires(s, l)))
  {
    if l.Handler? {
      HandlerStatus(size, s, l.over, l.hi);
    }
  }

  /** RXOVRR is up exactly when the chip has flagged an overrun since the handler last
      cleared it. */
  lemma OverrunIff(size: nat, s: State, steps: seq<Label>)
    ensures Reached(Taken(size), s, steps, |steps|).chip.ovrr
            <==> Latched(s.chip.ovrr, Marks(Taken(size), s, steps, Overruns),
                         Marks(Taken(size), s, steps, ClearsOverrun))
  {
    forall s, l {
      StatusStep(size, s, l);
    }
    var on, off := Marks(Taken(size), s, steps, Overruns), Marks(Taken(size), s, steps, ClearsOverrun);
    LatchIff(Taken(size), s, steps, |steps|, (s: State) => s.chip.ovrr, Overruns, ClearsOverrun);
    assert on[..|steps|] == on && off[..|steps|] == off;
  }

  lemma ErrorIff(size: nat, s: State, steps: seq<Label>)
    ensures Reached(Taken(size), s, steps, |steps|).chip.err
            <==> Latched(s.chip.err, Marks(Taken(size), s, steps, Errs), Marks(Taken(size), s, steps, ClearsError))
  {
    forall s, l {
      StatusStep(size, s, l);
    }
    var on, off := Marks(Taken(size), s, steps, Errs), Marks(Taken(size), s, steps, ClearsError);
    LatchIff(Taken(size), s, steps, |steps|, (s: State) => s.chip.err, Errs, ClearsError);
    assert on[..|steps|] == on && off[..|steps|] == off;
  }

  lemma TimeoutIff(size: nat, s: State, steps: seq<Label>)
    ensures Reached(Taken(size), s, steps, |steps|).chip.rxto
            <==> Latched(s.chip.rxto, Marks(Taken(size), s, steps, Expires),
                         Marks(Taken(size), s, steps, ClearsTimeout))
  {
    forall s, l {
      StatusStep(size, s, l);
    }
    var on, off := Marks(Taken(size), s, steps, Expires), Marks(Taken(size), s, steps, ClearsTimeout);
    LatchIff(Taken(size), s, steps, |steps|, (s: State) => s.chip.rxto, Expires, ClearsTimeout);
    assert on[..|steps|] == on && off[..|steps|] == off;
  }
}
