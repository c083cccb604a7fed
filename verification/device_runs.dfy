/** Runs of calls and handler runs on one device, one after another, with the chip acting
    in between. The chip stops its receiver after a frame, a timeout or an error; the
    driver's promise is to go on receiving all the same until it means to stop. */
module DeviceRuns {
  import opened RegisterBits
  import opened MacDevice
  import opened Runs

  /** A call on a device, or something the chip does between two calls. */
  datatype Call =
    | InterruptMask(bits: Bits, enable: bool)
    | StartRx(late: bool, goOn: bool)
    | StopRx
    | ForceTrxOff
    | StartTx(trxoff: bool, late: bool, sleep: bool)
    | SetRxautoDisable(disable: bool)
    | SetAbsTimeout
    | Handler(a: Answers)
    | ChipSets(bits: Bits)
    /** The receiver stops, for the reason that `bits` report. */
    | ChipStops(bits: Bits)
    /** The receiver starts to wait for the answer to a transmission. */
    | ChipListens
    | ChipToggles

  /** A handler run's effect on the device. */
  function Handled(i: Image, a: Answers): Image {
    var m, st := i.m, i.events;
    Image(m.(rxautoDisable := StillDisabled(m, st, a), absTimeout := WindowLeft(m, st, a)),
          OnAfter(m, i.on, st, a), After(m, st, a), i.ic,
          if Realigns(m, st, a) then i.ic else (i.host != TakesBuffer(m, st, a)),
          i.mask, if i.sem == 0 && TxOver(m, st, a) then 1 else i.sem)
  }

  function Outcome(i: Image, call: Call): Image {
    match call
    case InterruptMask(bits, enable) => i.(mask := (i.mask - bits) + If(enable, bits))
    case StartRx(late, goOn) =>
      i.(on := !late || goOn, host := if i.m.dblbuff then i.ic else i.host,
         events := i.events - If(i.m.dblbuff && i.ic != i.host, FRAME_BITS))
    case StopRx => i.(on := false, events := i.events - (ALL_TX + ALL_RX_ERR + ALL_RX_TO + ALL_RX_GOOD))
    case ForceTrxOff =>
      i.(m := i.m.(rxautoDisable := false, absTimeout := false), on := false, events := i.events - FORCE_OFF,
         host := if i.m.dblbuff then i.ic else i.host, sem := if i.sem == 0 then 1 else i.sem)
    case StartTx(trxoff, late, sleep) =>
      if i.sem == 0 then i
      else i.(sem := i.sem - 1 + (if late then 1 else 0) + (if sleep then 1 else 0), on := i.on && !trxoff && !late)
    case SetRxautoDisable(disable) => i.(m := i.m.(rxautoDisable := disable))
    case SetAbsTimeout => i.(m := i.m.(absTimeout := true))
    case Handler(a) => Handled(i, a)
    case ChipSets(bits) => i.(events := i.events + bits)
    case ChipStops(bits) => i.(events := i.events + bits, on := false)
    case ChipListens => i.(on := true)
    case ChipToggles => i.(ic := !i.ic)
  }

  method RunHandler(d: Device, a: Answers)
    modifies d
    ensures d.Now() == Handled(old(d.Now()), a)
  {
    d.InterruptHandler(a);
  }

  method SwitchRadio(d: Device, call: Call)
    requires call.StartRx? || call.StopRx? || call.ForceTrxOff? || call.StartTx?
    modifies d
    ensures d.Now() == Outcome(old(d.Now()), call)
  {
    match call
    case StartRx(late, goOn) => d.StartRx(late, goOn);
    case StopRx => d.StopRx();
    case ForceTrxOff => d.PhyForceTrxOff();
    case StartTx(trxoff, late, sleep) => d.StartTx(trxoff, late, sleep);
  }

  method UpdateMask(d: Device, bits: Bits, enable: bool)
    modifies d
    ensures d.Now() == old(d.Now()).(mask := (old(d.mask) - bits) + If(enable, bits))
  {
    d.PhyInterruptMask(bits, enable);
    assert d.mask == (d.mask - bits) + d.mask * bits;
  }

  method Execute(d: Device, call: Call)
    modifies d
    ensures d.Now() == Outcome(old(d.Now()), call)
  {
    match call
    case InterruptMask(bits, enable) => UpdateMask(d, bits, enable);
    case StartRx(late, goOn) => SwitchRadio(d, call);
    case StopRx => SwitchRadio(d, call);
    case ForceTrxOff => SwitchRadio(d, call);
    case StartTx(trxoff, late, sleep) => SwitchRadio(d, call);
    case SetRxautoDisable(disable) => d.rxautoDisable := disable;
    case SetAbsTimeout => d.absTimeout := true;
    case Handler(a) => RunHandler(d, a);
    case ChipSets(bits) => d.events := d.events + bits;
    case ChipStops(bits) => d.events, d.rxOn := d.events + bits, false;
    case ChipListens => d.rxOn := true;
    case ChipToggles => d.icPtr := !d.icPtr;
  }

  /** Any run of calls on a device. */
  method ExecuteAll(d: Device, calls: seq<Call>)
    modifies d
    ensures d.Now() == Reached(Outcome, old(d.Now()), calls, |calls|)
  {
    for k := 0 to |calls|
      invariant d.Now() == Reached(Outcome, old(d.Now()), calls, k)
    {
      Execute(d, calls[k]);
    }
  }

  // ------------------------------------------------- why the chip stops

  /** The handler has an event to serve for which the receiver may have stopped. With the
      hardware's own re-enable in double-buffer mode a good frame does not stop it. */
  predicate Due(m: Mode, events: Bits) {
    Has(events, ALL_RX_TO) || Has(events, ALL_RX_ERR) || (Has(events, RXFCG) && !(m.dblbuff && m.rxauto))
  }

  /** The chip says why it stops: at once, or, when it stops during the readout of a frame
      of the pair, once that frame's buffer is left. */
  predicate Reported(i: Image, call: Call) {
    match call
    case ChipStops(bits) => Due(i.m, bits)
    case Handler(a) =>
      i.m.dblbuff && a.stops ==>
        Has(a.late, ALL_RX_TO) || Has(a.late, ALL_RX_ERR) || (Has(a.next, RXFCG) && !i.m.rxauto)
    case InterruptMask(bits, enable) => true
    case StartRx(late, goOn) => true
    case StopRx => true
    case ForceTrxOff => true
    case StartTx(trxoff, late, sleep) => true
    case SetRxautoDisable(disable) => true
    case SetAbsTimeout => true
    case ChipSets(bits) => true
    case ChipListens => true
    case ChipToggles => true
  }

  // ------------------------------------------- what the driver means to do

  /** The handler serves a good frame without switching the receiver on again: the
      one-shot setting says so, or the chip is about to send an acknowledgement. */
  predicate Refuses(m: Mode, st: Bits, a: Answers) {
    && Has(st, RXFCG) && !LateOverrun(m, st, a) && !(Has(st, TXFRS) && m.absTimeout)
    && (if m.dblbuff then m.rxauto || m.rxautoDisable || Has(st, AAT) else m.rxautoDisable)
  }

  /** The driver is through with receiving: stop-rx, force-off, a delayed start that came
      too late, a transmission that begins by switching the radio off; or the handler finds
      the end of the receive window, or a good frame that it is not to go on after. */
  predicate Retires(i: Image, call: Call) {
    match call
    case StopRx => true
    case ForceTrxOff => true
    case StartRx(late, goOn) => late && !goOn
    case StartTx(trxoff, late, sleep) => i.sem > 0 && (trxoff || late)
    case Handler(a) =>
      && !EarlyOverrun(i.events) && !RxError(i.events, a)
      && (if Has(i.events, ALL_RX_TO) then !WindowLeft(i.m, i.events, a)
          else Refuses(i.m, i.events, a) && (!i.on || (a.stops && !i.m.dblbuff)))
    case InterruptMask(bits, enable) => false
    case SetRxautoDisable(disable) => false
    case SetAbsTimeout => false
    case ChipSets(bits) => false
    case ChipStops(bits) => false
    case ChipListens => false
    case ChipToggles => false
  }

  /** RXENAB is written, or the chip is to listen for an answer. */
  predicate Starts(i: Image, call: Call) {
    match call
    case StartRx(late, goOn) => !late || goOn
    case ChipListens => true
    case Handler(a) =>
      || EarlyOverrun(i.events) || RxError(i.events, a)
      || ReenablesEarly(i.m, i.events) || ReenablesLate(i.m, i.events, a)
      || (Has(i.events, TXFRS) && i.m.absTimeout && !LateOverrun(i.m, i.events, a))
      || (Has(i.events, ALL_RX_TO) && WindowLeft(i.m, i.events, a))
    case StopRx => false
    case ForceTrxOff => false
    case StartTx(trxoff, late, sleep) => false
    case InterruptMask(bits, enable) => false
    case SetRxautoDisable(disable) => false
    case SetAbsTimeout => false
    case ChipSets(bits) => false
    case ChipStops(bits) => false
    case ChipToggles => false
  }

  /** After the first `k` calls the driver means to receive: it has started to, or was
      receiving, and has not retired since. */
  predicate Wanted(i: Image, calls: seq<Call>, k: nat)
    requires k <= |calls|
  {
    Latched(i.on, Marks(Outcome, i, calls, Starts)[..k], Marks(Outcome, i, calls, Retires)[..k])
  }

  /** The receiver is on only if that is meant, and if it is meant and the receiver is off,
      the handler has the reason to serve. */
  predicate Kept(i: Image, wanted: bool) {
    (i.on ==> wanted) && (wanted ==> i.on || Due(i.m, i.events))
  }

  // ---------------------------------------------------------- the steps

  lemma HasGrows(e: Bits, e': Bits, bits: Bits)
    requires forall j :: j in bits && j in e ==> j in e'
    ensures Has(e, bits) ==> Has(e', bits)
  {
  }

  lemma DueGrows(m: Mode, e: Bits, e': Bits)
    requires e <= e'
    ensures Due(m, e) ==> Due(m, e')
  {
    HasGrows(e, e', ALL_RX_TO);
    HasGrows(e, e', ALL_RX_ERR);
    HasGrows(e, e', RXFCG);
  }

  /** Nothing the handler clears without serving it. */
  lemma OnlyServed(m: Mode, st: Bits, a: Answers, j: nat)
    requires m.dblbuff && Has(st, RXFCG) && !EarlyOverrun(st) && !LateOverrun(m, st, a) && j !in st
    requires !RxError(st, a) && !Has(st, ALL_RX_TO) && j in a.late && (j in ALL_RX_TO || j in ALL_RX_ERR)
    ensures j in After(m, st, a)
  {
    assert j !in TxClears(st) && j !in RxClears(st, a) && j !in ClockClears(st) && j != 18;
  }

  lemma FrameShown(m: Mode, st: Bits, a: Answers)
    requires m.dblbuff && Has(st, RXFCG) && !EarlyOverrun(st) && !LateOverrun(m, st, a) && 14 in a.next
    ensures 14 in After(m, st, a)
  {
    assert 14 in Shown(m, st, a);
    assert 14 !in TxClears(st) && 14 !in RxClears(st, a) && 14 !in ClockClears(st);
  }

  /** Receive events that come up while a frame of the pair is read are there when the
      handler is done, unless it serves their like. */
  lemma LateStaysDue(m: Mode, st: Bits, a: Answers)
    requires m.dblbuff && Has(st, RXFCG) && !EarlyOverrun(st) && !LateOverrun(m, st, a)
    requires !RxError(st, a) && !Has(st, ALL_RX_TO)
    requires Has(a.late, ALL_RX_TO) || Has(a.late, ALL_RX_ERR) || (Has(a.next, RXFCG) && !m.rxauto)
    ensures Due(m, After(m, st, a))
  {
    if j :| j in ALL_RX_TO && j in a.late {
      assert j !in st;
      OnlyServed(m, st, a, j);
    } else if j :| j in ALL_RX_ERR && j in a.late {
      assert j !in st;
      OnlyServed(m, st, a, j);
    } else {
      FrameShown(m, st, a);
      assert 14 in RXFCG;
    }
  }

  lemma HandlerKeeps(i: Image, a: Answers, wanted: bool)
    requires Kept(i, wanted) && Reported(i, Handler(a))
    ensures Kept(Handled(i, a), !Retires(i, Handler(a)) && (wanted || Starts(i, Handler(a))))
  {
    var m, st := i.m, i.events;
    OverrunIsError(st, a);
    if m.dblbuff && Has(st, RXFCG) && a.stops && !LateOverrun(m, st, a) && !RxError(st, a) && !Has(st, ALL_RX_TO) {
      LateStaysDue(m, st, a);
    }
  }

  lemma CallKeeps(i: Image, call: Call, wanted: bool)
    requires Kept(i, wanted) && Reported(i, call)
    ensures Kept(Outcome(i, call), !Retires(i, call) && (wanted || Starts(i, call)))
  {
    match call
    case Handler(a) => HandlerKeeps(i, a, wanted);
    case ChipSets(bits) => DueGrows(i.m, i.events, i.events + bits);
    case ChipStops(bits) => DueGrows(i.m, bits, i.events + bits);
    case InterruptMask(bits, enable) =>
    case StartRx(late, goOn) =>
    case StopRx =>
    case ForceTrxOff =>
    case StartTx(trxoff, late, sleep) =>
    case SetRxautoDisable(disable) =>
    case SetAbsTimeout =>
    case ChipListens =>
    case ChipToggles =>
  }

  // -------------------------------------------------------- the promise

  lemma KeptSoFar(i: Image, calls: seq<Call>, k: nat)
    requires k <= |calls| && forall j :: 0 <= j < |calls| ==> Reported(Reached(Outcome, i, calls, j), calls[j])
    ensures Kept(Reached(Outcome, i, calls, k), Wanted(i, calls, k))
  {
    forall i, call, wanted | Kept(i, wanted) && Reported(i, call) {
      CallKeeps(i, call, wanted);
    }
    LatchKeeps(Outcome, i, calls, k, i.on, Kept, Reported, Starts, Retires);
  }

  /** The driver's promise, over any run, whenever the chip stops: between two calls the
      receiver is off only if the driver has retired since it last started, or the handler
      has not yet served the event that stopped it. */
  lemma ReceiverOnIff(i: Image, calls: seq<Call>, k: nat)
    requires k <= |calls| && forall j :: 0 <= j < |calls| ==> Reported(Reached(Outcome, i, calls, j), calls[j])
    ensures var s := Reached(Outcome, i, calls, k);
            && (s.on ==> Wanted(i, calls, k))
            && (!Due(s.m, s.events) ==> (s.on <==> Wanted(i, calls, k)))
  {
    KeptSoFar(i, calls, k);
  }

  /** A receiver that was on and is off with nothing left to serve went off for one of
      those reasons, and has not been started since. */
  lemma GoesOffOnlyBy(i: Image, calls: seq<Call>) returns (k: nat)
    requires forall j :: 0 <= j < |calls| ==> Reported(Reached(Outcome, i, calls, j), calls[j])
    requires var s := Reached(Outcome, i, calls, |calls|); i.on && !s.on && !Due(s.m, s.events)
    ensures k < |calls| && Retires(Reached(Outcome, i, calls, k), calls[k])
    ensures forall j :: k < j < |calls| ==> !Starts(Reached(Outcome, i, calls, j), calls[j])
  {
    ReceiverOnIff(i, calls, |calls|);
    k := RetiredLast(i, calls);
  }

  lemma RetiredLast(i: Image, calls: seq<Call>) returns (k: nat)
    requires i.on && !Wanted(i, calls, |calls|)
    ensures k < |calls| && Retires(Reached(Outcome, i, calls, k), calls[k])
    ensures forall j :: k < j < |calls| ==> !Starts(Reached(Outcome, i, calls, j), calls[j])
  {
    var on, off := Marks(Outcome, i, calls, Starts), Marks(Outcome, i, calls, Retires);
    assert on[..|calls|] == on && off[..|calls|] == off;
    k := LastCleared(i.on, on, off);
    forall j | k < j < |calls|
      ensures !Starts(Reached(Outcome, i, calls, j), calls[j])
    {
      assert !on[j];
    }
  }

  // --------------------------------------- receive window, one-shot disable

  predicate OpensWindow(i: Image, call: Call) {
    call.SetAbsTimeout?
  }

  /** Force-off, recovery from an overrun, or a timeout with no time left. */
  predicate ClosesWindow(i: Image, call: Call) {
    || call.ForceTrxOff?
    || (call.Handler?
        && (EarlyOverrun(i.events) || LateOverrun(i.m, i.events, call.a)
            || (Has(i.events, ALL_RX_TO) && !call.a.timeLeft)))
  }

  lemma WindowStep(i: Image, call: Call)
    ensures Outcome(i, call).m.absTimeout == (!ClosesWindow(i, call) && (i.m.absTimeout || OpensWindow(i, call)))
  {
  }

  /** Over any run the absolute receive window is open exactly when it was opened and
      neither force-off, an overrun nor a timeout with no time left came since. */
  lemma WindowOpenIff(i: Image, calls: seq<Call>)
    ensures Reached(Outcome, i, calls, |calls|).m.absTimeout
            <==> Latched(i.m.absTimeout, Marks(Outcome, i, calls, OpensWindow), Marks(Outcome, i, calls, ClosesWindow))
  {
    forall i, call {
      WindowStep(i, call);
    }
    var on, off := Marks(Outcome, i, calls, OpensWindow), Marks(Outcome, i, calls, ClosesWindow);
    LatchIff(Outcome, i, calls, |calls|, (i: Image) => i.m.absTimeout, OpensWindow, ClosesWindow);
    assert on[..|calls|] == on && off[..|calls|] == off;
  }

  predicate Disables(i: Image, call: Call) {
    call.SetRxautoDisable? && call.disable
  }

  /** Besides being taken back, the setting is spent by the first good frame (but with
      hardware re-enable in double-buffer mode), an overrun, or the end of the window. */
  predicate SpendsDisable(i: Image, call: Call) {
    || call.ForceTrxOff?
    || (call.SetRxautoDisable? && !call.disable)
    || (call.Handler?
        && (EarlyOverrun(i.events) || LateOverrun(i.m, i.events, call.a)
            || (Has(i.events, RXFCG) && !(i.m.dblbuff && i.m.rxauto))
            || (Has(i.events, ALL_RX_TO) && !WindowLeft(i.m, i.events, call.a))))
  }

  lemma DisableStep(i: Image, call: Call)
    ensures Outcome(i, call).m.rxautoDisable == (!SpendsDisable(i, call) && (i.m.rxautoDisable || Disables(i, call)))
  {
  }

  /** The setting that keeps the receiver off after a frame works once. */
  lemma OneShotIff(i: Image, calls: seq<Call>)
    ensures Reached(Outcome, i, calls, |calls|).m.rxautoDisable
            <==> Latched(i.m.rxautoDisable, Marks(Outcome, i, calls, Disables), Marks(Outcome, i, calls, SpendsDisable))
  {
    forall i, call {
      DisableStep(i, call);
    }
    var on, off := Marks(Outcome, i, calls, Disables), Marks(Outcome, i, calls, SpendsDisable);
    LatchIff(Outcome, i, calls, |calls|, (i: Image) => i.m.rxautoDisable, Disables, SpendsDisable);
    assert on[..|calls|] == on && off[..|calls|] == off;
  }

  // ----------------------------------------------- after the event is served

  lemma Resumes(s: Image, a: Answers)
    requires !s.on && !a.stops && (Has(s.events, RXFCG) || Has(s.events, ALL_RX_TO) || RxError(s.events, a))
    ensures
      Outcome(s, Handler(a)).on
      <==> || RxError(s.events, a)
           || (if Has(s.events, ALL_RX_TO)
               then s.m.absTimeout && a.timeLeft && !LateOverrun(s.m, s.events, a)
               else || LateOverrun(s.m, s.events, a)
                    || (Has(s.events, RXFCG) && !s.m.rxautoDisable
                        && !(s.m.dblbuff && (s.m.rxauto || Has(s.events, AAT))))
                    || (Has(s.events, TXFRS) && s.m.absTimeout))
  {
    OverrunIsError(s.events, a);
  }

  /** A handler run that serves what stopped the receiver, over any run before it: the
      receiver is on afterwards exactly when an error or overrun made the driver start it
      afresh, or a timeout came with the window open and time left, or a good frame came
      with the one-shot setting not in force and no acknowledgement under way, or a frame
      was sent inside an open window. */
  lemma ResumesIff(i: Image, calls: seq<Call>, a: Answers)
    requires var s := Reached(Outcome, i, calls, |calls|);
             && !s.on && !a.stops && (Has(s.events, RXFCG) || Has(s.events, ALL_RX_TO) || RxError(s.events, a))
    ensures
      var s := Reached(Outcome, i, calls, |calls|);
      var opens, closes := Marks(Outcome, i, calls, OpensWindow), Marks(Outcome, i, calls, ClosesWindow);
      var disables, spent := Marks(Outcome, i, calls, Disables), Marks(Outcome, i, calls, SpendsDisable);
      var window, oneShot := Latched(i.m.absTimeout, opens, closes), Latched(i.m.rxautoDisable, disables, spent);
      Outcome(s, Handler(a)).on
      <==> || RxError(s.events, a)
           || (if Has(s.events, ALL_RX_TO)
               then window && a.timeLeft && !LateOverrun(s.m, s.events, a)
               else || LateOverrun(s.m, s.events, a)
                    || (Has(s.events, RXFCG) && !oneShot && !(s.m.dblbuff && (s.m.rxauto || Has(s.events, AAT))))
                    || (Has(s.events, TXFRS) && window))
  {
    WindowOpenIff(i, calls);
    OneShotIff(i, calls);
    Resumes(Reached(Outcome, i, calls, |calls|), a);
  }

  /** The one-shot setting does keep the receiver off, once: after a frame in single-buffer
      mode, served without timeout or error. */
  lemma OneShotKeepsOff(i: Image, bits: Bits, a: Answers)
    requires i.on && !i.m.dblbuff && Has(bits, RXFCG) && !(Has(i.events + bits, TXFRS) && i.m.absTimeout)
    requires !Has(i.events + bits, ALL_RX_TO) && !RxError(i.events + bits, a)
    ensures var s := Outcome(Outcome(Outcome(i, SetRxautoDisable(true)), ChipStops(bits)), Handler(a));
            !s.on && !s.m.rxautoDisable
  {
    OverrunIsError(i.events + bits, a);
    HasGrows(bits, i.events + bits, RXFCG);
  }
}
