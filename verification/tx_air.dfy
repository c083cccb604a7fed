/** Over any run of chip, handler and tasks: when a transmission is under way, and when the
    end of one is reported. */
module TxAir {
  import opened Runs
  import opened TxSemaphore

  /** The next state; a step that is not possible leaves the state as it is. */
  function Taken(dbl: bool): (State, Label) -> State {
    (s: State, l: Label) => if Enabled(s, l) then Apply(dbl, s, l) else s
  }

  // ------------------------------------------------------ the transmission

  predicate Starts(s: State, l: Label) {
    l.StartTx? && s.starting > 0 && !l.late
  }

  /** The handler switches the transmitter off: forcing the radio off, ending the receive
      window, or after a receive error that is not the double-buffer overrun. */
  predicate HandlerCuts(dbl: bool, s: State, over: bool) {
    || s.h.OffStop? || (s.h.AtTimeout? && s.snap.rxto && over)
    || (s.h.AtRxError? && (s.snap.rxerr || s.snap.ovrr) && !(dbl && s.overrun))
  }

  /** The transmission ends, fails, is called off or is cut off. */
  function Ends(dbl: bool): (State, Label) -> bool {
    (s: State, l: Label) =>
      || (l.FrameSent? && s.air && !s.thenSleep) || (l.SentThenSleeps? && s.air && s.thenSleep)
      || (l.BufferError? && s.air && l.stops) || (l.StartTx? && s.starting > 0 && l.late)
      || (l.StartIdle? && s.starting > 0) || l.StopRx? || (l.StartRx? && l.trxoff)
      || (l.ForceOff? && l.t < |s.off| && s.off[l.t] == Stopping)
      || (l.HandlerRuns? && HandlerCuts(dbl, s, l.over))
  }

  lemma HandlerAir(dbl: bool, s: State, over: bool)
    ensures HandlerStep(dbl, s, over).air == (s.air && !HandlerCuts(dbl, s, over))
  {
  }

  lemma AirStep(dbl: bool, s: State, l: Label)
    ensures Taken(dbl)(s, l).air == (!Ends(dbl)(s, l) && (s.air || Starts(s, l)))
  {
    if l.HandlerRuns? {
      HandlerAir(dbl, s, l.over);
    }
  }

  /** A transmission is under way exactly when one has been started and has not ended since:
      sent, failed, called off, cut off by the handler's branches, or by a call. */
  lemma AirIff(dbl: bool, s: State, steps: seq<Label>)
    ensures Reached(Taken(dbl), s, steps, |steps|).air
            <==> Latched(s.air, Marks(Taken(dbl), s, steps, Starts), Marks(Taken(dbl), s, steps, Ends(dbl)))
  {
    forall s, l {
      AirStep(dbl, s, l);
    }
    var on, off := Marks(Taken(dbl), s, steps, Starts), Marks(Taken(dbl), s, steps, Ends(dbl));
    LatchIff(Taken(dbl), s, steps, |steps|, (s: State) => s.air, Starts, Ends(dbl));
    assert on[..|steps|] == on && off[..|steps|] == off;
  }

  // --------------------------------------------------------- its reports

  predicate Reports(s: State, l: Label) {
    l.FrameSent? && s.air && !s.thenSleep
  }

  predicate Begins(s: State, l: Label) {
    l.FrameBegins? && s.air
  }

  predicate Fails(s: State, l: Label) {
    l.BufferError? && s.air
  }

  /** Everything is forgotten when the radio is forced off. */
  predicate Forgets(s: State, l: Label) {
    || (l.ForceOff? && l.t < |s.off| && s.off[l.t] == Clearing)
    || (l.HandlerRuns? && s.h.OffClear?)
  }

  /** TXFRS goes with a new start where the chip drops it, when reception is stopped, and
      when the handler has seen it. */
  predicate ForgetsSent(s: State, l: Label) {
    || Forgets(s, l) || l.StopRx? || (l.StartTx? && s.starting > 0 && l.clears)
    || (l.HandlerRuns? && s.h.AtSent? && s.snap.frs)
  }

  predicate ForgetsBegun(s: State, l: Label) {
    ForgetsSent(s, l) || (l.HandlerRuns? && s.h.AtBegun? && s.snap.frb)
  }

  predicate ForgetsFailed(s: State, l: Label) {
    Forgets(s, l) || (l.HandlerRuns? && s.h.AtBufErr? && s.snap.berr)
  }

  /** The steps on receive flags, and those on none. */
  lemma FlagsKept(dbl: bool, s: State, over: bool)
    requires !s.h.OffClear? && !s.h.AtBegun? && !s.h.AtSent? && !s.h.AtBufErr?
    ensures var f := HandlerStep(dbl, s, over).flags;
            f.frs == s.flags.frs && f.frb == s.flags.frb && f.berr == s.flags.berr
  {
    if s.h.AtTimeout? || s.h.AtRxError? {
      TailKeeps(dbl, s, over);
    }
  }

  lemma TailKeeps(dbl: bool, s: State, over: bool)
    requires s.h.AtTimeout? || s.h.AtRxError?
    ensures var f := HandlerStep(dbl, s, over).flags;
            f.frs == s.flags.frs && f.frb == s.flags.frb && f.berr == s.flags.berr
  {
  }

  lemma SentCleared(dbl: bool, s: State, over: bool)
    requires s.h.AtSent?
    ensures var f := HandlerStep(dbl, s, over).flags;
            && f.frs == (s.flags.frs && !s.snap.frs) && f.frb == (s.flags.frb && !s.snap.frs)
            && f.berr == s.flags.berr
  {
  }

  lemma BegunCleared(dbl: bool, s: State, over: bool)
    requires s.h.AtBegun?
    ensures var f := HandlerStep(dbl, s, over).flags;
            f.frs == s.flags.frs && f.frb == (s.flags.frb && !s.snap.frb) && f.berr == s.flags.berr
  {
  }

  lemma FailedCleared(dbl: bool, s: State, over: bool)
    requires s.h.AtBufErr?
    ensures var f := HandlerStep(dbl, s, over).flags;
            f.frs == s.flags.frs && f.frb == s.flags.frb && f.berr == (s.flags.berr && !s.snap.berr)
  {
  }

  lemma FlagsCleared(dbl: bool, s: State, over: bool)
    ensures var f, l := HandlerStep(dbl, s, over).flags, HandlerRuns(over);
            && f.frs == (s.flags.frs && !ForgetsSent(s, l)) && f.frb == (s.flags.frb && !ForgetsBegun(s, l))
            && f.berr == (s.flags.berr && !ForgetsFailed(s, l))
  {
    if s.h.AtSent? {
      SentCleared(dbl, s, over);
    } else if s.h.AtBegun? {
      BegunCleared(dbl, s, over);
    } else if s.h.AtBufErr? {
      FailedCleared(dbl, s, over);
    } else if !s.h.OffClear? {
      FlagsKept(dbl, s, over);
    }
  }

  lemma SentStep(dbl: bool, s: State, l: Label)
    ensures Taken(dbl)(s, l).flags.frs == (!ForgetsSent(s, l) && (s.flags.frs || Reports(s, l)))
  {
    if l.HandlerRuns? {
      FlagsCleared(dbl, s, l.over);
    }
  }

  lemma BegunStep(dbl: bool, s: State, l: Label)
    ensures Taken(dbl)(s, l).flags.frb == (!ForgetsBegun(s, l) && (s.flags.frb || Begins(s, l)))
  {
    if l.HandlerRuns? {
      FlagsCleared(dbl, s, l.over);
    }
  }

  lemma FailedStep(dbl: bool, s: State, l: Label)
    ensures Taken(dbl)(s, l).flags.berr == (!ForgetsFailed(s, l) && (s.flags.berr || Fails(s, l)))
  {
    if l.HandlerRuns? {
      FlagsCleared(dbl, s, l.over);
    }
  }

  /** The end of a transmission is reported exactly when the chip has reported one and
      nobody has cleared or dropped the report since. */
  lemma SentIff(dbl: bool, s: State, steps: seq<Label>)
    ensures Reached(Taken(dbl), s, steps, |steps|).flags.frs
            <==> Latched(s.flags.frs, Marks(Taken(dbl), s, steps, Reports), Marks(Taken(dbl), s, steps, ForgetsSent))
  {
    forall s, l {
      SentStep(dbl, s, l);
    }
    var on, off := Marks(Taken(dbl), s, steps, Reports), Marks(Taken(dbl), s, steps, ForgetsSent);
    LatchIff(Taken(dbl), s, steps, |steps|, (s: State) => s.flags.frs, Reports, ForgetsSent);
    assert on[..|steps|] == on && off[..|steps|] == off;
  }

  lemma BegunIff(dbl: bool, s: State, steps: seq<Label>)
    ensures Reached(Taken(dbl), s, steps, |steps|).flags.frb
            <==> Latched(s.flags.frb, Marks(Taken(dbl), s, steps, Begins), Marks(Taken(dbl), s, steps, ForgetsBegun))
  {
    forall s, l {
      BegunStep(dbl, s, l);
    }
    var on, off := Marks(Taken(dbl), s, steps, Begins), Marks(Taken(dbl), s, steps, ForgetsBegun);
    LatchIff(Taken(dbl), s, steps, |steps|, (s: State) => s.flags.frb, Begins, ForgetsBegun);
    assert on[..|steps|] == on && off[..|steps|] == off;
  }

  lemma FailedIff(dbl: bool, s: State, steps: seq<Label>)
    ensures Reached(Taken(dbl), s, steps, |steps|).flags.berr
            <==> Latched(s.flags.berr, Marks(Taken(dbl), s, steps, Fails), Marks(Taken(dbl), s, steps, ForgetsFailed))
  {
    forall s, l {
      FailedStep(dbl, s, l);
    }
    var on, off := Marks(Taken(dbl), s, steps, Fails), Marks(Taken(dbl), s, steps, ForgetsFailed);
    LatchIff(Taken(dbl), s, steps, |steps|, (s: State) => s.flags.berr, Fails, ForgetsFailed);
    assert on[..|steps|] == on && off[..|steps|] == off;
  }
}
