/** The interrupt handler and the calls around it, run one after another against a
    chip with write-1-to-clear status bits. */
module MacDevice {
  import opened RegisterBits

  /** What the chip answers during one handler run: whether the snapshot's high byte
      reports a Reed-Solomon error; bits the chip sets while the frame is being read, and
      whether it stops receiving meanwhile; the frame flags of the other buffer of the
      pair; whether the frame asks for an acknowledgement, and whether an absolute receive
      window has time left. */
  datatype Answers = Answers(rscs: bool, late: Bits, stops: bool, next: Bits, ackRequested: bool, timeLeft: bool)

  /** The settings a handler run reads. */
  datatype Mode = Mode(dblbuff: bool, rxauto: bool, rxautoDisable: bool, absTimeout: bool)

  datatype Image = Image(m: Mode, on: bool, events: Bits, ic: bool, host: bool, mask: Bits, sem: nat)

  // ------------------------------------------------------- specification

  predicate EarlyOverrun(st: Bits) {
    Has(st, RXFCG) && Has(st, RXOVRR)
  }

  /** The good-frame branch finds an overrun that came up during the frame's readout. */
  predicate LateOverrun(m: Mode, st: Bits, a: Answers) {
    Has(st, RXFCG) && !Has(st, RXOVRR) && m.dblbuff && Has(a.late, RXOVRR)
  }

  predicate RxError(st: Bits, a: Answers) {
    Has(st, ALL_RX_ERR) || a.rscs
  }

  /** What `dw3000_phy_forcetrxoff` clears. */
  const FORCE_OFF: Bits := ALL_TX + ALL_RX_ERR + ALL_RX_TO + ALL_RX_GOOD + TXBERR

  /** Status bits the good-frame branch clears when it looks at an automatic
      acknowledgement. */
  function AckClears(st: Bits, a: Answers): Bits {
    If(Has(st, AAT), if a.ackRequested then st * FRAME_BITS else AAT)
  }

  /** Status bits that are gone at the end of the frame: in double-buffer mode the frame's
      flags leave with its buffer. */
  function EndClears(dblbuff: bool, overrun: bool, st: Bits): Bits {
    if !dblbuff then st * (FRAME_BITS + RXPHD)
    else if overrun then FORCE_OFF
    else st * FRAME_BITS
  }

  /** Both together. */
  function FrameClears(m: Mode, st: Bits, a: Answers): Bits {
    if !Has(st, RXFCG) then {}
    else AckClears(st, a) + EndClears(m.dblbuff, LateOverrun(m, st, a), st)
  }

  /** Frame flags that show up when the host pointer goes on to the other buffer. */
  function Shown(m: Mode, st: Bits, a: Answers): Bits {
    If(m.dblbuff && Has(st, RXFCG) && !EarlyOverrun(st) && !LateOverrun(m, st, a), a.next * FRAME_BITS)
  }

  function TxClears(st: Bits): Bits {
    If(Has(st, TXFRB), TXFRB) + If(Has(st, TXFRS), ALL_TX) + If(Has(st, TXBERR), TXBERR)
  }

  function RxClears(st: Bits, a: Answers): Bits {
    If(Has(st, ALL_RX_TO), ALL_RX_TO) + If(RxError(st, a), ALL_RX_ERR)
  }

  function ClockClears(st: Bits): Bits {
    If(Has(st, SLP2INIT), SLP2INIT) + If(Has(st, CLKPLL_LL), CLKPLL_LL) + If(Has(st, CPLOCK), CPLOCK)
  }

  /** Status bits the branches after it clear. */
  function EventClears(st: Bits, a: Answers): Bits {
    TxClears(st) + If(Has(st, LDEERR), LDEERR) + RxClears(st, a) + ClockClears(st)
  }

  lemma MinusInTurn(e: Bits, a: Bits, b: Bits, c: Bits, d: Bits)
    ensures e - a - b - c - d == e - (a + b + c + d)
  {
  }

  /** Event bits after one handler run. */
  function After(m: Mode, st: Bits, a: Answers): Bits {
    if EarlyOverrun(st) then st - FRAME_BITS - FORCE_OFF
    else st + If(Has(st, RXFCG), a.late) - FrameClears(m, st, a) + Shown(m, st, a) - EventClears(st, a)
  }

  lemma MinusTwice(e: Bits, a: Bits, b: Bits)
    ensures e - a - b == e - (a + b)
  {
  }

  lemma AfterWithoutExit(m: Mode, st: Bits, a: Answers)
    requires !EarlyOverrun(st)
    ensures After(m, st, a)
            == (if Has(st, RXFCG) then st + a.late - FrameClears(m, st, a) + Shown(m, st, a) else st)
               - EventClears(st, a)
  {
    assert !Has(st, RXFCG) ==> st + If(Has(st, RXFCG), a.late) - FrameClears(m, st, a) + Shown(m, st, a) == st;
  }

  /** The handler takes the transmission for over. */
  predicate TxOver(m: Mode, st: Bits, a: Answers) {
    !Has(st, TXFRB) || Has(st, TXFRS) || Has(st, TXBERR) || EarlyOverrun(st) || LateOverrun(m, st, a)
  }

  /** A branch runs whose business is to bring the buffer pointers back together. */
  predicate Realigns(m: Mode, st: Bits, a: Answers) {
    EarlyOverrun(st) || LateOverrun(m, st, a) || (m.dblbuff && Has(st, RXOVRR))
  }

  /** A frame is taken from a buffer of the pair, which is then released. */
  predicate TakesBuffer(m: Mode, st: Bits, a: Answers) {
    m.dblbuff && Has(st, RXFCG) && !Realigns(m, st, a)
  }

  /** The absolute receive window is still open after the run. */
  predicate WindowLeft(m: Mode, st: Bits, a: Answers) {
    m.absTimeout && !EarlyOverrun(st) && !LateOverrun(m, st, a) && (Has(st, ALL_RX_TO) ==> a.timeLeft)
  }

  /** The good-frame branch writes RXENAB as soon as it has the frame's status. In
      double-buffer mode the hardware's own re-enable is not used. */
  predicate ReenablesEarly(m: Mode, st: Bits) {
    Has(st, RXFCG) && !EarlyOverrun(st) && m.dblbuff && !m.rxauto && !m.rxautoDisable && !Has(st, AAT)
  }

  /** It writes RXENAB at its end. */
  predicate ReenablesLate(m: Mode, st: Bits, a: Answers) {
    LateOverrun(m, st, a) || (Has(st, RXFCG) && !EarlyOverrun(st) && !m.dblbuff && !m.rxautoDisable)
  }

  /** The receiver is on after the good-frame branch. */
  predicate OnAfterFrame(m: Mode, on: bool, st: Bits, a: Answers) {
    if Has(st, RXFCG) then ((on || ReenablesEarly(m, st)) && !a.stops) || ReenablesLate(m, st, a) else on
  }

  /** The receiver is on after the run. */
  predicate OnAfter(m: Mode, on: bool, st: Bits, a: Answers) {
    || EarlyOverrun(st) || RxError(st, a)
    || (if Has(st, ALL_RX_TO) then WindowLeft(m, st, a)
        else OnAfterFrame(m, on, st, a) || (Has(st, TXFRS) && m.absTimeout && !LateOverrun(m, st, a)))
  }

  /** The one-shot setting that keeps the receiver off is still there after the run. */
  predicate StillDisabled(m: Mode, st: Bits, a: Answers) {
    m.rxautoDisable && !EarlyOverrun(st)
    && (Has(st, RXFCG) ==> m.dblbuff && m.rxauto && !LateOverrun(m, st, a))
    && (Has(st, ALL_RX_TO) ==> WindowLeft(m, st, a))
  }

  lemma OverrunIsError(st: Bits, a: Answers)
    ensures Has(st, RXOVRR) ==> RxError(st, a)
  {
    assert 20 in ALL_RX_ERR;
  }

  /** Neither the read nor the acknowledgement handling touches RXOVRR. */
  lemma LateBit(before: Bits, now: Bits, st: Bits, a: Answers)
    requires !Has(before, RXOVRR) && !Has(st, RXOVRR)
    requires now == before + a.late - AckClears(st, a)
    ensures Has(now, RXOVRR) == Has(a.late, RXOVRR)
  {
    assert 20 in RXOVRR;
  }

  // ---------------------------------------------------------- the device

  /** `events` and the two pointers together are SYS_STATUS; a pointer is not an event
      and clearing its bit does nothing. */
  class Device {
    var events: Bits
    var icPtr: bool
    var hostPtr: bool
    var mask: Bits
    var txSem: nat
    var dblbuff: bool
    var rxauto: bool
    var rxautoDisable: bool
    var absTimeout: bool
    var rxOn: bool

    constructor (dblbuff: bool, rxauto: bool)
      ensures events == {} && icPtr == hostPtr == false && mask == {} && txSem == 1
      ensures this.dblbuff == dblbuff && this.rxauto == rxauto && !rxautoDisable && !absTimeout && !rxOn
    {
      events, mask, txSem := {}, {}, 1;
      icPtr, hostPtr := false, false;
      this.dblbuff, this.rxauto := dblbuff, rxauto;
      rxautoDisable, absTimeout, rxOn := false, false, false;
    }

    function Settings(): Mode
      reads this
    {
      Mode(dblbuff, rxauto, rxautoDisable, absTimeout)
    }

    /** The whole device as a value. */
    function Now(): Image
      reads this
    {
      Image(Settings(), rxOn, events, icPtr, hostPtr, mask, txSem)
    }

    method ClearStatus(bits: Bits)
      modifies this`events
      ensures events == old(events) - bits
    {
      events := events - bits;
    }

    method SyncRxBufPtrs()
      modifies this`hostPtr
      ensures hostPtr == icPtr
    {
      if icPtr != hostPtr {
        hostPtr := !hostPtr;
      }
    }

    method ReleaseTxSem()
      modifies this`txSem
      ensures txSem == if old(txSem) == 0 then 1 else old(txSem)
    {
      if txSem == 0 {
        txSem := txSem + 1;
      }
    }

    method PhyInterruptMask(bits: Bits, enable: bool)
      modifies this`mask
      ensures mask * bits == If(enable, bits) && mask - bits == old(mask) - bits
    {
      var m := mask;
      if enable {
        m := m + bits;
      } else {
        m := m - bits;
      }
      mask := m;
    }

    method PhyForceTrxOff()
      modifies this`events, this`hostPtr, this`mask, this`txSem, this`rxautoDisable, this`absTimeout, this`rxOn
      ensures mask == old(mask) && txSem == (if old(txSem) == 0 then 1 else old(txSem))
      ensures events == old(events) - FORCE_OFF && hostPtr == if dblbuff then icPtr else old(hostPtr)
      ensures !rxautoDisable && !absTimeout && !rxOn
    {
      var saved := mask;
      mask := {};
      rxOn := false;
      ClearStatus(ALL_TX + ALL_RX_ERR + ALL_RX_TO + ALL_RX_GOOD + TXBERR);
      if dblbuff {
        SyncRxBufPtrs();
      }
      mask := saved;
      rxautoDisable, absTimeout := false, false;
      ReleaseTxSem();
    }

    method StopRx()
      modifies this`events, this`mask, this`rxOn
      ensures mask == old(mask) && events == old(events) - (ALL_TX + ALL_RX_ERR + ALL_RX_TO + ALL_RX_GOOD) && !rxOn
    {
      var saved := mask;
      mask := {};
      rxOn := false;
      ClearStatus(ALL_TX + ALL_RX_ERR + ALL_RX_TO + ALL_RX_GOOD);
      mask := saved;
    }

    /** `dw3000_start_rx`; `late`: a delayed start whose time has passed, which is called
        off unless it is to go on at once. The flags of a frame that is left unread go
        with its buffer. */
    method StartRx(late: bool, goOn: bool)
      modifies this`hostPtr, this`rxOn, this`events
      ensures rxOn == (!late || goOn) && hostPtr == if dblbuff then icPtr else old(hostPtr)
      ensures events == old(events) - If(dblbuff && icPtr != old(hostPtr), FRAME_BITS)
    {
      if dblbuff {
        if icPtr != hostPtr {
          ClearStatus(FRAME_BITS);
        }
        SyncRxBufPtrs();
      }
      rxOn := true;
      if late {
        rxOn := false;
        if goOn {
          rxOn := true;
        }
      }
    }

    /** `dw3000_start_tx`, once the semaphore is there; `trxoff`: the radio is forced to
        idle first; `late`: a delayed start that is called off; `sleep`: sleep after it. */
    method StartTx(trxoff: bool, late: bool, sleep: bool)
      modifies this`txSem, this`rxOn
      ensures txSem == if old(txSem) == 0 then 0
                       else old(txSem) - 1 + (if late then 1 else 0) + (if sleep then 1 else 0)
      ensures rxOn == (old(rxOn) && !(old(txSem) > 0 && (trxoff || late)))
    {
      if txSem == 0 {
        return;
      }
      txSem := txSem - 1;
      if trxoff {
        rxOn := false;
      }
      if late {
        rxOn := false;
        txSem := txSem + 1;
      }
      if sleep {
        txSem := txSem + 1;
      }
    }

    /** After an overrun: force the radio off, reset the receiver, start it afresh. */
    method RestartReceiver()
      modifies this`events, this`hostPtr, this`mask, this`txSem, this`rxautoDisable, this`absTimeout, this`rxOn
      ensures mask == old(mask) && txSem == (if old(txSem) == 0 then 1 else old(txSem))
      ensures events == old(events) - FORCE_OFF && hostPtr == icPtr
      ensures !rxautoDisable && !absTimeout && rxOn
    {
      PhyForceTrxOff();
      SyncRxBufPtrs();
      rxOn := true;
    }

    /** Clear the frame's flags; while the chip is on the same buffer their interrupts
        are masked, through the second byte of the mask register. */
    method ClearFrameBits(st: Bits)
      modifies this`events, this`mask
      ensures mask == old(mask) && events == old(events) - st * FRAME_BITS
    {
      if icPtr == hostPtr {
        var saved := InByte(mask, 1);
        mask := mask - InByte(mask, 1);
        ClearStatus(st * FRAME_BITS);
        mask := (mask - InByte(mask, 1)) + saved;
      } else {
        ClearStatus(st * FRAME_BITS);
      }
    }

    /** Leave the buffer a frame was read from, or recover from an overrun. */
    method ReleaseBuffer(st: Bits, next: Bits) returns (overrun: bool)
      modifies this`events, this`hostPtr, this`mask, this`txSem, this`rxautoDisable, this`absTimeout, this`rxOn
      requires dblbuff
      ensures overrun == Has(old(events), RXOVRR) && mask == old(mask)
      ensures events == old(events) - EndClears(true, overrun, st) + If(!overrun, next * FRAME_BITS)
      ensures hostPtr == if overrun then icPtr else !old(hostPtr)
      ensures txSem == if overrun && old(txSem) == 0 then 1 else old(txSem)
      ensures absTimeout == (old(absTimeout) && !overrun) && rxautoDisable == (old(rxautoDisable) && !overrun)
      ensures rxOn == (old(rxOn) || overrun)
    {
      overrun := Has(events, RXOVRR);
      if !overrun {
        if rxauto {
          ClearFrameBits(st);
        }
        hostPtr := !hostPtr;
        events := events - st * FRAME_BITS + next * FRAME_BITS;
      } else {
        ClearStatus(RXOVRR);
        RestartReceiver();
      }
    }

    method ReenableEarly(autoack: bool)
      modifies this`rxautoDisable, this`rxOn
      ensures rxOn == (old(rxOn) || (dblbuff && !rxauto && !old(rxautoDisable) && !autoack))
      ensures rxautoDisable == (old(rxautoDisable) && !(dblbuff && !rxauto))
    {
      if !rxauto && dblbuff {
        if !rxautoDisable && !autoack {
          rxOn := true;
        }
        rxautoDisable := false;
      }
    }

    /** The frame is read; meanwhile the chip goes on. */
    method ReadFrame(st: Bits, a: Answers)
      modifies this`events, this`rxOn
      ensures events == old(events) + a.late - AckClears(st, a) && rxOn == (old(rxOn) && !a.stops)
    {
      events := events + a.late;
      if a.stops {
        rxOn := false;
      }
      if Has(st, AAT) {
        ClearStatus(if a.ackRequested then st * FRAME_BITS else AAT);
      }
    }

    /** In single-buffer mode: clear the frame's flags and go on receiving. */
    method SingleBufferEnd(st: Bits)
      modifies this`events, this`rxautoDisable, this`rxOn
      ensures events == old(events) - st * (FRAME_BITS + RXPHD)
      ensures rxOn == (old(rxOn) || !old(rxautoDisable)) && !rxautoDisable
    {
      ClearStatus(st * (FRAME_BITS + RXPHD));
      if !rxautoDisable {
        rxOn := true;
      }
      rxautoDisable := false;
    }

    /** Once the frame is read. */
    method EndOfFrame(st: Bits, next: Bits) returns (overrun: bool)
      modifies this`events, this`hostPtr, this`mask, this`txSem, this`rxautoDisable, this`absTimeout, this`rxOn
      ensures overrun == (dblbuff && Has(old(events), RXOVRR)) && mask == old(mask)
      ensures events == old(events) - EndClears(dblbuff, overrun, st) + If(dblbuff && !overrun, next * FRAME_BITS)
      ensures hostPtr == if overrun then icPtr else (old(hostPtr) != dblbuff)
      ensures txSem == if overrun && old(txSem) == 0 then 1 else old(txSem)
      ensures absTimeout == (old(absTimeout) && !overrun)
      ensures rxOn == (old(rxOn) || (if dblbuff then overrun else !old(rxautoDisable)))
      ensures rxautoDisable == (old(rxautoDisable) && dblbuff && !overrun)
    {
      overrun := false;
      if dblbuff {
        overrun := ReleaseBuffer(st, next);
      } else {
        SingleBufferEnd(st);
      }
    }

    /** A good frame without an overrun in the snapshot; returns whether one came up. */
    method GoodFrame(st: Bits, a: Answers) returns (overrun: bool)
      requires Has(st, RXFCG) && !Has(st, RXOVRR) && !Has(events, RXOVRR)
      modifies this`events, this`hostPtr, this`mask, this`txSem, this`rxautoDisable, this`absTimeout, this`rxOn
      ensures overrun == LateOverrun(old(Settings()), st, a) && mask == old(mask)
      ensures events == old(events) + a.late - FrameClears(old(Settings()), st, a) + Shown(old(Settings()), st, a)
      ensures hostPtr == if overrun then icPtr else (old(hostPtr) != dblbuff)
      ensures txSem == if overrun && old(txSem) == 0 then 1 else old(txSem)
      ensures absTimeout == (old(absTimeout) && !overrun)
      ensures rxOn == OnAfterFrame(old(Settings()), old(rxOn), st, a)
      ensures rxautoDisable == (old(rxautoDisable) && dblbuff && rxauto && !overrun)
    {
      ReenableEarly(Has(st, AAT));
      ReadFrame(st, a);
      LateBit(old(events), events, st, a);
      overrun := EndOfFrame(st, a.next);
      MinusTwice(old(events) + a.late, AckClears(st, a), EndClears(dblbuff, overrun, st));
    }

    /** Transmit events. The write that ends a transmission is one byte wide. */
    method TxEvents(st: Bits)
      modifies this`events, this`txSem, this`rxOn
      ensures events == old(events) - TxClears(st)
      ensures txSem == if old(txSem) == 0 && (Has(st, TXFRS) || Has(st, TXBERR)) then 1 else old(txSem)
      ensures rxOn == (old(rxOn) || (Has(st, TXFRS) && absTimeout))
    {
      if Has(st, TXFRB) {
        ClearStatus(TXFRB);
      }
      if Has(st, TXFRS) {
        ClearStatus(InByte(ALL_TX, 0));
        assert InByte(ALL_TX, 0) == ALL_TX;
        if absTimeout {
          rxOn := true;
        }
        ReleaseTxSem();
      }
      if Has(st, TXBERR) {
        ClearStatus(TXBERR);
        ReleaseTxSem();
      }
    }

    /** Receive timeouts and receive errors. */
    method RxEvents(st: Bits, a: Answers, overrun: bool)
      modifies this`events, this`hostPtr, this`rxautoDisable, this`absTimeout, this`rxOn
      ensures events == old(events) - RxClears(st, a)
      ensures hostPtr == if RxError(st, a) && dblbuff && overrun then icPtr else old(hostPtr)
      ensures absTimeout == (old(absTimeout) && !(Has(st, ALL_RX_TO) && !a.timeLeft))
      ensures rxautoDisable == (old(rxautoDisable) && !(Has(st, ALL_RX_TO) && !absTimeout))
      ensures rxOn == (RxError(st, a) || (if Has(st, ALL_RX_TO) then absTimeout else old(rxOn)))
    {
      if Has(st, ALL_RX_TO) {
        ClearStatus(ALL_RX_TO);
        if absTimeout {
          if a.timeLeft {
            rxOn := true;
          } else {
            absTimeout := false;
          }
        }
        if !absTimeout {
          rxOn := false;
          rxautoDisable := false;
        }
      }
      if RxError(st, a) {
        ClearStatus(ALL_RX_ERR);
        if dblbuff && overrun {
          hostPtr := !hostPtr;
          SyncRxBufPtrs();
        } else {
          rxOn := false;
        }
        rxOn := true;
      }
    }

    method ClockEvents(st: Bits)
      modifies this`events
      ensures events == old(events) - ClockClears(st)
    {
      if Has(st, SLP2INIT) {
        ClearStatus(SLP2INIT);
      }
      if Has(st, CLKPLL_LL) {
        ClearStatus(CLKPLL_LL);
      }
      if Has(st, CPLOCK) {
        ClearStatus(CPLOCK);
      }
    }

    /** The branches after the good-frame one. */
    method OtherEvents(st: Bits, a: Answers, overrun: bool)
      modifies this`events, this`hostPtr, this`txSem, this`rxautoDisable, this`absTimeout, this`rxOn
      ensures events == old(events) - EventClears(st, a)
      ensures txSem == if old(txSem) == 0 && (Has(st, TXFRS) || Has(st, TXBERR)) then 1 else old(txSem)
      ensures hostPtr == if RxError(st, a) && dblbuff && overrun then icPtr else old(hostPtr)
      ensures absTimeout == (old(absTimeout) && !(Has(st, ALL_RX_TO) && !a.timeLeft))
      ensures rxautoDisable == (old(rxautoDisable) && !(Has(st, ALL_RX_TO) && !absTimeout))
      ensures rxOn == (RxError(st, a) || (if Has(st, ALL_RX_TO) then absTimeout
                                          else old(rxOn) || (Has(st, TXFRS) && old(absTimeout))))
    {
      MinusInTurn(events, TxClears(st), If(Has(st, LDEERR), LDEERR), RxClears(st, a), ClockClears(st));
      TxEvents(st);
      if Has(st, LDEERR) {
        ClearStatus(LDEERR);
      }
      assert events == old(events) - TxClears(st) - If(Has(st, LDEERR), LDEERR);
      RxEvents(st, a, overrun);
      ClockEvents(st);
    }

    /** The overrun that the snapshot shows: its frame is given up. */
    method OverrunExit()
      modifies this`events, this`hostPtr, this`mask, this`txSem, this`rxautoDisable, this`absTimeout, this`rxOn
      ensures mask == old(mask) && txSem == (if old(txSem) == 0 then 1 else old(txSem))
      ensures events == old(events) - FRAME_BITS - FORCE_OFF && hostPtr == icPtr
      ensures !rxautoDisable && !absTimeout && rxOn
    {
      ClearStatus(RXOVRR + FRAME_BITS);
      RestartReceiver();
    }

    /** The frame of the snapshot, if there is one and no overrun came before it. */
    method FrameEvents(st: Bits, a: Answers) returns (overrun: bool)
      requires events == st && !EarlyOverrun(st)
      modifies this`events, this`hostPtr, this`mask, this`txSem, this`rxautoDisable, this`absTimeout, this`rxOn
      ensures overrun == (Has(st, RXOVRR) || LateOverrun(old(Settings()), st, a)) && mask == old(mask)
      ensures events == if !Has(st, RXFCG) then st
                        else st + a.late - FrameClears(old(Settings()), st, a) + Shown(old(Settings()), st, a)
      ensures hostPtr == if LateOverrun(old(Settings()), st, a) then icPtr
                         else (old(hostPtr) != (dblbuff && Has(st, RXFCG)))
      ensures txSem == if LateOverrun(old(Settings()), st, a) && old(txSem) == 0 then 1 else old(txSem)
      ensures absTimeout == (old(absTimeout) && !LateOverrun(old(Settings()), st, a))
      ensures rxOn == OnAfterFrame(old(Settings()), old(rxOn), st, a)
      ensures rxautoDisable == (old(rxautoDisable)
                                && (Has(st, RXFCG) ==> dblbuff && rxauto && !LateOverrun(old(Settings()), st, a)))
    {
      overrun := Has(st, RXOVRR);
      if Has(st, RXFCG) {
        overrun := GoodFrame(st, a);
      }
    }

    /** All branches, where no overrun ends the run early. */
    method ServeEvents(st: Bits, a: Answers)
      requires events == st && !EarlyOverrun(st) && (!Has(st, TXFRB) || Has(st, TXFRS) ==> txSem > 0)
      modifies this`events, this`hostPtr, this`mask, this`txSem, this`rxautoDisable, this`absTimeout, this`rxOn
      ensures mask == old(mask)
      ensures events == After(old(Settings()), st, a)
      ensures txSem == if old(txSem) == 0 && TxOver(old(Settings()), st, a) then 1 else old(txSem)
      ensures hostPtr == if Realigns(old(Settings()), st, a) then icPtr
                         else (old(hostPtr) != TakesBuffer(old(Settings()), st, a))
      ensures rxOn == OnAfter(old(Settings()), old(rxOn), st, a)
      ensures absTimeout == WindowLeft(old(Settings()), st, a)
      ensures rxautoDisable == StillDisabled(old(Settings()), st, a)
    {
      var overrun := FrameEvents(st, a);
      AfterWithoutExit(old(Settings()), st, a);
      OverrunIsError(st, a);
      OtherEvents(st, a, overrun);
    }

    /** One run of the event task's handler. */
    method InterruptHandler(a: Answers)
      modifies this`events, this`hostPtr, this`mask, this`txSem, this`rxautoDisable, this`absTimeout, this`rxOn
      ensures mask == old(mask)
      ensures events == After(old(Settings()), old(events), a)
      ensures txSem == if old(txSem) == 0 && TxOver(old(Settings()), old(events), a) then 1 else old(txSem)
      ensures hostPtr == if Realigns(old(Settings()), old(events), a) then icPtr
                         else (old(hostPtr) != TakesBuffer(old(Settings()), old(events), a))
      ensures rxOn == OnAfter(old(Settings()), old(rxOn), old(events), a)
      ensures absTimeout == WindowLeft(old(Settings()), old(events), a)
      ensures rxautoDisable == StillDisabled(old(Settings()), old(events), a)
    {
      var st := events;
      var overrun := Has(st, RXOVRR);
      if !(Has(st, TXFRB) && !Has(st, TXFRS)) {
        ReleaseTxSem();
      }
      if Has(st, RXFCG) && overrun {
        OverrunExit();
      } else {
        ServeEvents(st, a);
      }
    }
  }
}
