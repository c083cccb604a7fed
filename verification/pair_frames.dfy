/** Frames taken from the buffer pair by the handler: which frame flags a run leaves, where
    the host pointer is then, and that frame after frame both sides stay together. */
module PairFrames {
  import opened RegisterBits
  import opened MacDevice
  import opened DeviceRuns
  import opened StatusDrain
  import opened Runs

  /** A run that takes a frame from the pair. */
  predicate TakesOne(m: Mode, st: Bits, a: Answers) {
    m.dblbuff && 14 in st && 20 !in st && 20 !in a.late
  }

  lemma InTermsOfBits(m: Mode, st: Bits, a: Answers)
    ensures EarlyOverrun(st) <==> 14 in st && 20 in st
    ensures LateOverrun(m, st, a) <==> m.dblbuff && 14 in st && 20 !in st && 20 in a.late
    ensures Has(st, RXFCG) <==> 14 in st
  {
    HasOne(st, 14);
    HasOne(st, 20);
    HasOne(a.late, 20);
  }

  lemma FrameBitNotCleared(st: Bits, a: Answers, j: nat)
    requires j in {10, 13, 14}
    ensures j !in EventClears(st, a)
  {
    assert j !in TxClears(st) && j !in RxClears(st, a) && j !in ClockClears(st);
  }

  lemma PairClears(m: Mode, st: Bits, a: Answers, j: nat)
    requires TakesOne(m, st, a) && j in FRAME_BITS
    ensures j in FrameClears(m, st, a) <==> j in st
    ensures j in Shown(m, st, a) <==> j in a.next
  {
    InTermsOfBits(m, st, a);
  }

  /** The flags of the frame just served are gone with its buffer: what is set afterwards
      is what the other buffer shows, or came up while the frame was read. */
  lemma FlagsLeft(m: Mode, st: Bits, a: Answers, j: nat)
    requires TakesOne(m, st, a) && j in {10, 13, 14}
    ensures j in After(m, st, a) <==> j in a.next || (j in a.late && j !in st)
  {
    InTermsOfBits(m, st, a);
    PairClears(m, st, a, j);
    FrameBitNotCleared(st, a, j);
  }

  /** RXPHD is not cleared with it. */
  lemma HeaderFlagStays(m: Mode, st: Bits, a: Answers)
    requires TakesOne(m, st, a)
    ensures 11 in After(m, st, a) <==> 11 in st || 11 in a.late
  {
    InTermsOfBits(m, st, a);
    assert 11 !in TxClears(st) && 11 !in RxClears(st, a) && 11 !in ClockClears(st);
    assert 11 !in FRAME_BITS && 11 !in FrameClears(m, st, a);
  }

  /** RXFCE is a receive error besides: the error branch clears it. */
  lemma ErrorFlagLeft(m: Mode, st: Bits, a: Answers)
    requires TakesOne(m, st, a)
    ensures 15 in After(m, st, a)
            <==> (15 in a.next || 15 in a.late) && !a.rscs && forall j :: j in {12, 15, 16, 26, 29} ==> j !in st
  {
    InTermsOfBits(m, st, a);
    PairClears(m, st, a, 15);
    assert RxError(st, a) <==> a.rscs || exists j :: j in {12, 15, 16, 26, 29} && j in st by {
      assert forall j :: j in ALL_RX_ERR ==> j in {12, 15, 16, 26, 29} || j == 20;
      assert forall j :: j in {12, 15, 16, 26, 29} ==> j in ALL_RX_ERR;
    }
    assert 15 in EventClears(st, a) <==> RxError(st, a) by {
      assert 15 !in TxClears(st) && 15 !in ClockClears(st) && 15 in ALL_RX_ERR && 15 !in ALL_RX_TO;
    }
  }

  /** The host pointer after a run: with the chip's after an overrun, in the snapshot or
      found after the readout; at the other buffer after a frame taken from the pair; and
      otherwise where it was. */
  lemma HostAfter(i: Image, a: Answers)
    ensures var h := Handled(i, a).host;
      && (20 in i.events && (14 in i.events || i.m.dblbuff) ==> h == i.ic)
      && (20 in a.late && 14 in i.events && i.m.dblbuff ==> h == i.ic)
      && (TakesOne(i.m, i.events, a) ==> h != i.host)
      && (14 !in i.events && (20 !in i.events || !i.m.dblbuff) ==> h == i.host)
      && (!i.m.dblbuff && 20 !in i.events ==> h == i.host)
  {
    InTermsOfBits(i.m, i.events, a);
    HasOne(i.events, 20);
  }

  // --------------------------------------------------- frame after frame

  /** A good frame comes in and the handler runs. */
  function Round(i: Image, a: Answers): Image {
    Handled(i.(ic := !i.ic, events := i.events + {10, 13, 14}), a)
  }

  /** Pointers together at that buffer, and nothing to serve. */
  predicate TogetherAt(i: Image, host: bool) {
    i.m.dblbuff && i.ic == i.host == host && i.events * ENABLED == {} && 14 !in i.events
  }

  predicate QuietPair(a: Answers) {
    a.late == {} && a.next * FRAME_BITS == {}
  }

  lemma NoOverrun(events: Bits)
    requires events * ENABLED == {}
    ensures 20 !in events
  {
    assert 20 in events ==> 20 in events * ENABLED;
  }

  lemma RoundKeepsUp(i: Image, host: bool, a: Answers)
    requires TogetherAt(i, host) && QuietPair(a)
    ensures TogetherAt(Round(i, a), !host)
  {
    var before := i.(ic := !i.ic, events := i.events + {10, 13, 14});
    NoOverrun(i.events);
    HostAfter(before, a);
    OneRun(i.m, before.events, a);
    InTermsOfBits(i.m, before.events, a);
    HasOne(Round(i, a).events, 14);
  }

  /** However many frames come in, one at a time, in double-buffer mode, with or without the
      hardware's own re-enable: after each the pointers are together at the next buffer and
      no enabled status bit is left. */
  lemma PairKeepsUp(i: Image, host: bool, answers: seq<Answers>, k: nat)
    requires k <= |answers| && TogetherAt(i, host) && forall j :: 0 <= j < |answers| ==> QuietPair(answers[j])
    ensures TogetherAt(Reached(Round, i, answers, k), host == (k % 2 == 0))
  {
    forall i, host, a | TogetherAt(i, host) && QuietPair(a) {
      RoundKeepsUp(i, host, a);
    }
    Alternates(Round, i, answers, k, host, TogetherAt, QuietPair);
  }
}
