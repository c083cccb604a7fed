/** How many runs of the interrupt handler it takes to clear the enabled status bits while
    the chip raises none, in single- and double-buffer mode, which bits no run clears, and
    what a run leaves of a frame taken from the buffer pair. */
module StatusDrain {
  import opened RegisterBits
  import opened MacDevice

  /** Event bits after one run per element of `answers`. */
  function AfterRuns(m: Mode, st: Bits, answers: seq<Answers>): Bits {
    if answers == [] then st
    else After(m, AfterRuns(m, st, answers[..|answers| - 1]), answers[|answers| - 1])
  }

  /** The chip sets nothing during the run, and the pair's other buffer holds no frame. */
  predicate Quiet(m: Mode, a: Answers) {
    a.late == {} && (m.dblbuff ==> a.next * FRAME_BITS == {})
  }

  predicate ChipQuiet(m: Mode, answers: seq<Answers>) {
    forall i :: 0 <= i < |answers| ==> Quiet(m, answers[i])
  }

  /** What one run leaves: the overrun exit skips the branches that would clear LDEERR
      and CPLOCK, and RXDFR is cleared together with RXFCG only. */
  function LeftByOne(st: Bits): Bits {
    if EarlyOverrun(st) then st * (LDEERR + CPLOCK)
    else if Has(st, RXFCG) then {}
    else st * RXDFR
  }

  lemma HasOne(st: Bits, i: nat)
    ensures Has(st, {i}) <==> i in st
  {
    assert i in {i};
  }

  lemma OverrunRun(m: Mode, st: Bits, a: Answers)
    requires EarlyOverrun(st)
    ensures After(m, st, a) * ENABLED == st * (LDEERR + CPLOCK) && 14 !in After(m, st, a)
  {
  }

  lemma FrameBitsCleared(m: Mode, st: Bits, a: Answers)
    requires Has(st, RXFCG) && !LateOverrun(m, st, a) && 13 in st
    ensures 13 in FrameClears(m, st, a)
  {
    assert 13 in st * (FRAME_BITS + RXPHD);
  }

  lemma FcgCleared(m: Mode, st: Bits, a: Answers)
    requires Has(st, RXFCG) && !LateOverrun(m, st, a)
    ensures 14 in FrameClears(m, st, a)
  {
    HasOne(st, 14);
    assert 14 in st * (FRAME_BITS + RXPHD);
  }

  lemma FrameRun(m: Mode, st: Bits, a: Answers)
    requires Has(st, RXFCG) && !EarlyOverrun(st) && Quiet(m, a)
    ensures After(m, st, a) * ENABLED == {} && 14 !in After(m, st, a)
  {
    FcgCleared(m, st, a);
    forall i | i in st && i in ENABLED
      ensures i in FrameClears(m, st, a) || i in EventClears(st, a)
    {
      if i == 13 {
        FrameBitsCleared(m, st, a);
      } else {
        BitCleared(st, a, i);
      }
    }
  }

  /** Whatever branch applies to an enabled bit other than RXDFR, it clears the bit. */
  lemma BitCleared(st: Bits, a: Answers, i: nat)
    requires i in st && i in ENABLED && i != 13
    ensures i in EventClears(st, a)
  {
    HasOne(st, 1);
    HasOne(st, 4);
    HasOne(st, 7);
    HasOne(st, 18);
    HasOne(st, 28);
    assert i in ALL_RX_TO ==> Has(st, ALL_RX_TO);
    assert i in ALL_RX_ERR ==> Has(st, ALL_RX_ERR);
  }

  lemma NoFrameRun(m: Mode, st: Bits, a: Answers)
    requires !Has(st, RXFCG)
    ensures After(m, st, a) * ENABLED == st * RXDFR && 14 !in After(m, st, a)
  {
    HasOne(st, 14);
    assert !EarlyOverrun(st) && FrameClears(m, st, a) == {};
    forall i | i in st && i in ENABLED && i != 13
      ensures i in EventClears(st, a)
    {
      BitCleared(st, a, i);
    }
    RxdfrKept(st, a);
  }

  lemma RxdfrKept(st: Bits, a: Answers)
    ensures 13 !in EventClears(st, a)
  {
    assert 13 !in TxClears(st) && 13 !in RxClears(st, a) && 13 !in ClockClears(st);
  }

  /** One run, exactly. */
  lemma OneRun(m: Mode, st: Bits, a: Answers)
    requires Quiet(m, a)
    ensures After(m, st, a) * ENABLED == LeftByOne(st) && !Has(After(m, st, a), RXFCG)
  {
    HasOne(After(m, st, a), 14);
    if EarlyOverrun(st) {
      OverrunRun(m, st, a);
    } else if Has(st, RXFCG) {
      FrameRun(m, st, a);
    } else {
      NoFrameRun(m, st, a);
    }
  }

  lemma AfterOne(m: Mode, st: Bits, answers: seq<Answers>)
    requires |answers| == 1
    ensures AfterRuns(m, st, answers) == After(m, st, answers[0])
  {
    assert AfterRuns(m, st, answers[..0]) == st;
  }

  /** What a run leaves of what a run left. */
  lemma LeftByTwo(st: Bits, after: Bits)
    requires after * ENABLED == LeftByOne(st) && !Has(after, RXFCG)
    ensures LeftByOne(after) == if Has(st, RXFCG) then {} else st * RXDFR
  {
    assert after * RXDFR == after * ENABLED * RXDFR;
    assert (st * RXDFR) * RXDFR == st * RXDFR;
    assert LeftByOne(after) == after * RXDFR;
  }

  /** Two or more runs clear every enabled bit, whatever the status was, except an
      RXDFR that came without RXFCG, and that one no number of runs clears. */
  lemma {:induction false} Drained(m: Mode, st: Bits, answers: seq<Answers>)
    requires ChipQuiet(m, answers) && |answers| >= 2
    ensures AfterRuns(m, st, answers) * ENABLED == if Has(st, RXFCG) then {} else st * RXDFR
    ensures !Has(AfterRuns(m, st, answers), RXFCG)
  {
    var n := |answers| - 1;
    var before := AfterRuns(m, st, answers[..n]);
    if n == 1 {
      AfterOne(m, st, answers[..1]);
      OneRun(m, st, answers[0]);
    } else {
      Drained(m, st, answers[..n]);
    }
    OneRun(m, before, answers[n]);
    if n == 1 {
      LeftByTwo(st, before);
    } else {
      assert before * RXDFR == before * ENABLED * RXDFR;
      assert LeftByOne(before) == before * RXDFR;
      assert (st * RXDFR) * RXDFR == st * RXDFR;
    }
  }

  /** The second run is needed just when the overrun exit met LDEERR or CPLOCK. */
  lemma OneRunSuffices(m: Mode, st: Bits, a: Answers, b: Answers)
    requires Quiet(m, a) && Quiet(m, b)
    ensures After(m, st, a) * ENABLED == AfterRuns(m, st, [a, b]) * ENABLED
            <==> !(EarlyOverrun(st) && Has(st, LDEERR + CPLOCK))
  {
    OneRun(m, st, a);
    Drained(m, st, [a, b]);
    HasOne(st, 14);
    if EarlyOverrun(st) {
      assert Has(st, LDEERR + CPLOCK) <==> st * (LDEERR + CPLOCK) != {};
    }
  }

  /** The interrupt pin, which the exit check reads, is low after two runs unless the
      data-frame-ready interrupt is enabled and its bit stands alone. */
  lemma PinLowAfterTwo(m: Mode, st: Bits, a: Answers, b: Answers, mask: Bits)
    requires Quiet(m, a) && Quiet(m, b) && mask <= ENABLED
    ensures Has(AfterRuns(m, st, [a, b]), mask) <==> Has(st, RXDFR) && Has(mask, RXDFR) && !Has(st, RXFCG)
  {
    var end := AfterRuns(m, st, [a, b]);
    Drained(m, st, [a, b]);
    HasOne(st, 13);
    HasOne(mask, 13);
    assert 13 in end <==> 13 in end * ENABLED;
    if Has(end, mask) {
      var i :| i in mask && i in end;
      assert i in end * ENABLED;
    }
  }

  // ------------------------------------------------------ the other bits

  /** The bit is in the snapshot, or comes up while a frame is read. */
  predicate Stays(st: Bits, a: Answers, j: nat) {
    j in st || (14 in st && j in a.late)
  }

  lemma BitAfter(m: Mode, st: Bits, a: Answers, j: nat)
    requires !(14 in st && 20 in st)
    ensures j in After(m, st, a)
            <==> ((Stays(st, a, j) && j !in FrameClears(m, st, a)) || j in Shown(m, st, a)) && j !in EventClears(st, a)
  {
    HasOne(st, 14);
    HasOne(st, 20);
  }

  lemma BitAfterExit(m: Mode, st: Bits, a: Answers, j: nat)
    requires 14 in st && 20 in st
    ensures j in After(m, st, a) <==> j in st && j !in FRAME_BITS && j !in FORCE_OFF
  {
    HasOne(st, 14);
    HasOne(st, 20);
  }

  /** In single-buffer mode LDEDONE and RXPHD go with the frame, unless they come up again. */
  lemma DoneFlagLeft(m: Mode, st: Bits, a: Answers)
    requires !m.dblbuff && 14 in st && 20 !in st
    ensures 10 in After(m, st, a) <==> 10 in a.late && 10 !in st
  {
    HasOne(st, 14);
    HasOne(st, 20);
    assert 10 in FRAME_BITS + RXPHD && 10 !in TxClears(st) && 10 !in RxClears(st, a) && 10 !in ClockClears(st);
  }

  lemma HeaderFlagLeft(m: Mode, st: Bits, a: Answers)
    requires !m.dblbuff && 14 in st && 20 !in st
    ensures 11 in After(m, st, a) <==> 11 in a.late && 11 !in st
  {
    HasOne(st, 14);
    HasOne(st, 20);
    assert 11 in FRAME_BITS + RXPHD && 11 !in TxClears(st) && 11 !in RxClears(st, a) && 11 !in ClockClears(st);
  }

  /** The overrun exit gives up the frame's flags. */
  lemma ExitFlagsLeft(m: Mode, st: Bits, a: Answers, j: nat)
    requires 14 in st && 20 in st && j in {10, 11, 13, 14, 15, 20}
    ensures j !in After(m, st, a)
  {
    BitAfterExit(m, st, a, j);
  }

  lemma AckCleared(m: Mode, st: Bits, a: Answers)
    requires !(14 in st && (20 in st || (m.dblbuff && 20 in a.late)))
    ensures 3 in FrameClears(m, st, a) <==> 14 in st && 3 in st && !a.ackRequested
    ensures 3 !in Shown(m, st, a) && (3 in EventClears(st, a) <==> 7 in st)
  {
    HasOne(st, 14);
    HasOne(st, 20);
    HasOne(a.late, 20);
    HasOne(st, 3);
    HasOne(st, 7);
    assert 3 !in FRAME_BITS + RXPHD && 3 !in RxClears(st, a) && 3 !in ClockClears(st);
  }

  /** The acknowledgement flag is cleared with the frame that asked for none, and with the
      end of a transmission; a frame that asked for one leaves it. */
  lemma AckFlagLeft(m: Mode, st: Bits, a: Answers)
    requires !(14 in st && (20 in st || (m.dblbuff && 20 in a.late)))
    ensures 3 in After(m, st, a) <==> Stays(st, a, 3) && 7 !in st && !(14 in st && 3 in st && !a.ackRequested)
  {
    BitAfter(m, st, a, 3);
    AckCleared(m, st, a);
  }

  lemma FrameLeavesClocks(m: Mode, st: Bits, a: Answers)
    ensures 23 !in FrameClears(m, st, a) && 25 !in FrameClears(m, st, a)
    ensures 23 !in Shown(m, st, a) && 25 !in Shown(m, st, a)
  {
    assert 23 !in FORCE_OFF && 25 !in FORCE_OFF && 23 !in FRAME_BITS + RXPHD && 25 !in FRAME_BITS + RXPHD;
  }

  lemma ClocksCleared(st: Bits, a: Answers)
    ensures (23 in EventClears(st, a) <==> 23 in st) && (25 in EventClears(st, a) <==> 25 in st)
  {
    HasOne(st, 23);
    HasOne(st, 25);
    assert (23 in ClockClears(st) <==> 23 in st) && (25 in ClockClears(st) <==> 25 in st);
    assert 23 !in TxClears(st) && 23 !in RxClears(st, a) && 25 !in TxClears(st) && 25 !in RxClears(st, a);
  }

  /** The clock's bits are cleared by every run but the overrun exit. */
  lemma SleepFlagLeft(m: Mode, st: Bits, a: Answers)
    ensures 23 in After(m, st, a) <==> if 14 in st && 20 in st then 23 in st else 14 in st && 23 in a.late && 23 !in st
  {
    if 14 in st && 20 in st {
      BitAfterExit(m, st, a, 23);
    } else {
      BitAfter(m, st, a, 23);
      FrameLeavesClocks(m, st, a);
      ClocksCleared(st, a);
    }
  }

  lemma LockFlagLeft(m: Mode, st: Bits, a: Answers)
    ensures 25 in After(m, st, a) <==> if 14 in st && 20 in st then 25 in st else 14 in st && 25 in a.late && 25 !in st
  {
    if 14 in st && 20 in st {
      BitAfterExit(m, st, a, 25);
    } else {
      BitAfter(m, st, a, 25);
      FrameLeavesClocks(m, st, a);
      ClocksCleared(st, a);
    }
  }
}
