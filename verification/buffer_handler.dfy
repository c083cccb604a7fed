/** The handler of the buffer pair's step system, run to its end with nothing in between but
    an overrun that comes up while a frame is read: what it delivers and what it leaves of
    the chip's registers, which is what the device's interrupt handler leaves. */
module BufferHandler {
  import opened Common
  import opened RegisterBits
  import opened MacDevice
  import opened Runs
  import opened DoubleBuffer

  /** What a handler step does with the choices made for this run: `late` says that RXOVRR
      comes up just before the handler looks for it again. */
  datatype Choice = Choice(size: nat, over: bool, hi: bool, late: bool)

  function Met(s: State, late: bool): State {
    if s.h.AtCheck? && late then s.(chip := s.chip.(ovrr := true, scribbling := true), past := s.past.(gap := true))
    else s
  }

  function Next(x: Choice, s: State): State {
    HandlerStep(x.size, Met(s, x.late), x.over, x.hi)
  }

  /** One step within a handler run; the run ends where the handler is idle. */
  function Beat(x: Choice): (State, ()) -> Option<State> {
    (s: State, beat: ()) => if s.h.Idle? then None else Some(Next(x, s))
  }

  ghost predicate Goes(x: Choice, s: State, t: State) {
    exists beats :: RunOf(Beat(x), s, beats) == Some(t)
  }

  lemma Stays(x: Choice, s: State)
    ensures Goes(x, s, s)
  {
    assert RunOf(Beat(x), s, []) == Some(s);
  }

  /** One more step on the way to `u`. */
  lemma Steps(x: Choice, s: State, t: State, u: State)
    requires !s.h.Idle? && t == Next(x, s) && Goes(x, t, u)
    ensures Goes(x, s, u)
  {
    var beats :| RunOf(Beat(x), t, beats) == Some(u);
    OneStep(Beat(x), s, (), t);
    Then(Beat(x), s, [()], t, beats, u);
  }

  // ------------------------------------------------------------ the frame

  /** The frame in the host's buffer, as far as the driver's buffer takes it. */
  function Front(size: nat, data: seq<byte>): seq<byte> {
    data[..Min(|data|, size)]
  }

  function ReadPart(size: nat, s: State): State {
    var k := At(s.chip, s.chip.host);
    s.(local := s.local.(len := |k.data|, got := Front(size, k.data), readId := k.id), h := AtCheck)
  }

  /** The bytes, one after another. */
  lemma {:induction false} ViaBytes(x: Choice, s: State, end: State)
    requires var data := At(s.chip, s.chip.host).data;
             && s.h.ReadBytes? && s.local.len == |data| && |s.local.got| <= Min(|data|, x.size)
             && s.local.got == data[..|s.local.got|]
             && Goes(x, s.(local := s.local.(got := Front(x.size, data)), h := AtCheck), end)
    ensures Goes(x, s, end)
    decreases x.size - |s.local.got|
  {
    var data, n := At(s.chip, s.chip.host).data, |s.local.got|;
    if n < Min(|data|, x.size) {
      var t := s.(local := s.local.(got := data[..n + 1]));
      assert data[..n] + [NextByte(s.chip, n)] == data[..n + 1];
      assert t.local.(got := Front(x.size, data)) == s.local.(got := Front(x.size, data));
      ViaBytes(x, t, end);
      Steps(x, s, t, end);
    } else {
      Steps(x, s, s.(local := s.local.(got := Front(x.size, data)), h := AtCheck), end);
    }
  }

  lemma ViaRead(x: Choice, s: State, end: State)
    requires s.h.ReadLen? && Goes(x, ReadPart(x.size, s), end)
    ensures Goes(x, s, end)
  {
    var k := At(s.chip, s.chip.host);
    var t := s.(local := s.local.(len := |k.data|, got := [], readId := k.id), h := ReadBytes);
    assert t.local.(got := Front(x.size, k.data)) == ReadPart(x.size, s).local;
    ViaBytes(x, t, end);
    Steps(x, s, t, end);
  }

  // ------------------------------------------------------- after an overrun

  /** Everything off, both buffers free, pointers together, on again. */
  function Restarted(c: Chip): Chip {
    c.(slot0 := c.slot0.(unread := false), slot1 := c.slot1.(unread := false), host := c.ic,
       rxOn := true, scribbling := false, ovrr := false, err := false, rxto := false)
  }

  lemma ViaRecovery(x: Choice, s: State, early: bool, end: State)
    requires s.h == RecStop(early)
    requires Goes(x, s.(chip := Restarted(s.chip), h := if early then Idle else AtDeliver), end)
    ensures Goes(x, s, end)
  {
    var c := s.chip;
    var c1 := c.(rxOn := false, scribbling := false);
    var c2 := c1.(slot0 := c.slot0.(unread := false), slot1 := c.slot1.(unread := false),
                  ovrr := false, err := false, rxto := false);
    var c3 := c2.(host := c.ic);
    assert Synced(c2) == c3;
    Steps(x, s.(chip := c3, h := RecEnable(early)),
          s.(chip := Restarted(c), h := if early then Idle else AtDeliver), end);
    Steps(x, s.(chip := c2, h := RecSync(early)), s.(chip := c3, h := RecEnable(early)), end);
    Steps(x, s.(chip := c1, h := RecClear(early)), s.(chip := c2, h := RecSync(early)), end);
    Steps(x, s, s.(chip := c1, h := RecClear(early)), end);
  }

  /** The delivery of what has been read. */
  function Handed(s: State, flagged: bool): Past {
    var d := Delivery(s.local.readId, s.local.len, s.local.got);
    if flagged then s.past.(flagged := s.past.flagged + [d]) else s.past.(clean := s.past.clean + [d])
  }

  /** From the check of the frame that has been read to its delivery. */
  function CheckPart(x: Choice, s: State): State {
    if s.chip.ovrr || x.late then
      var past := if x.late then s.past.(gap := true) else s.past;
      s.(chip := Restarted(s.chip), local := s.local.(overrun := true), past := Handed(s.(past := past), true),
         h := AtTimeout)
    else
      s.(chip := Toggled(s.chip), local := s.local.(overrun := false),
         past := Handed(s.(past := s.past.(floor := s.local.readId + 1)), false), h := AtTimeout)
  }

  lemma ViaOverrun(x: Choice, s: State, end: State)
    requires s.h.AtCheck? && (s.chip.ovrr || x.late) && Goes(x, CheckPart(x, s), end)
    ensures Goes(x, s, end)
  {
    var m := Met(s, x.late);
    var t := m.(chip := m.chip.(ovrr := false), local := s.local.(overrun := true), h := RecStop(false));
    var u := t.(chip := Restarted(t.chip), h := AtDeliver);
    Steps(x, u, CheckPart(x, s), end);
    ViaRecovery(x, t, false, end);
    Steps(x, s, t, end);
  }

  lemma ViaCheck(x: Choice, s: State, end: State)
    requires s.h.AtCheck? && Goes(x, CheckPart(x, s), end)
    ensures Goes(x, s, end)
  {
    if s.chip.ovrr || x.late {
      ViaOverrun(x, s, end);
    } else {
      var t := s.(local := s.local.(overrun := false), h := AtToggle);
      var u := t.(chip := Toggled(s.chip), past := s.past.(floor := s.local.readId + 1), h := AtDeliver);
      Steps(x, u, CheckPart(x, s), end);
      Steps(x, t, u, end);
      Steps(x, s, t, end);
    }
  }

  // -------------------------------------------------- timeouts and errors

  function TimeoutPart(x: Choice, s: State): State {
    var c, snap := s.chip, s.local.snap;
    s.(chip := c.(rxto := c.rxto && !snap.rxto, rxOn := if snap.rxto then !x.over else c.rxOn,
                  scribbling := c.scribbling && !(snap.rxto && x.over)),
       h := if snap.err || snap.ovrr then ErrClear else Idle)
  }

  /** The error branch on the pointers: with the chip's, leaving the buffers in between. */
  function Realigned(c: Chip): Chip {
    Synced(Toggled(c))
  }

  function ErrorPart(s: State): State {
    var c := s.chip.(ovrr := false, err := false, scribbling := false, rxOn := true);
    s.(chip := if s.local.overrun then Realigned(c) else c, h := Idle)
  }

  lemma ViaRealign(x: Choice, s: State, end: State)
    requires s.h.ErrToggle? && Goes(x, s.(chip := Realigned(s.chip).(rxOn := true), h := Idle), end)
    ensures Goes(x, s, end)
  {
    var t, u := s.(chip := Toggled(s.chip), h := ErrSync), s.(chip := Realigned(s.chip), h := ErrEnable);
    Steps(x, u, s.(chip := Realigned(s.chip).(rxOn := true), h := Idle), end);
    Steps(x, t, u, end);
    Steps(x, s, t, end);
  }

  lemma ToggledWith(c: Chip, on: bool)
    ensures Toggled(c.(rxOn := on)) == Toggled(c).(rxOn := on)
  {
  }

  /** Switching the receiver on or off and realigning do not depend on each other. */
  lemma RealignedWith(c: Chip, on: bool)
    ensures Realigned(c.(rxOn := on)) == Realigned(c).(rxOn := on)
  {
    ToggledWith(c, on);
    ToggledWith(Toggled(c), on);
  }

  lemma ViaStop(x: Choice, s: State, end: State)
    requires s.h.ErrStop?
    requires var c := s.chip.(scribbling := false, rxOn := true);
             Goes(x, s.(chip := if s.local.overrun then Realigned(c) else c, h := Idle), end)
    ensures Goes(x, s, end)
  {
    var c := s.chip.(rxOn := false, scribbling := false);
    if s.local.overrun {
      RealignedWith(c, true);
      ViaRealign(x, s.(chip := c, h := ErrToggle), end);
      Steps(x, s, s.(chip := c, h := ErrToggle), end);
    } else {
      Steps(x, s.(chip := c, h := ErrEnable), s.(chip := c.(rxOn := true), h := Idle), end);
      Steps(x, s, s.(chip := c, h := ErrEnable), end);
    }
  }

  lemma ViaError(x: Choice, s: State)
    requires s.h.ErrClear?
    ensures Goes(x, s, ErrorPart(s))
  {
    var t := s.(chip := s.chip.(ovrr := false, err := false), h := ErrStop);
    Stays(x, ErrorPart(s));
    ViaStop(x, t, ErrorPart(s));
    Steps(x, s, t, ErrorPart(s));
  }

  function Tail(x: Choice, s: State): State {
    var t := TimeoutPart(x, s);
    if t.h.Idle? then t else ErrorPart(t)
  }

  lemma ViaTail(x: Choice, s: State)
    requires s.h.AtTimeout?
    ensures Goes(x, s, Tail(x, s))
  {
    var t, end := TimeoutPart(x, s), Tail(x, s);
    if t.h.Idle? {
      Stays(x, end);
    } else {
      ViaError(x, t);
    }
    Steps(x, s, t, end);
  }

  // ---------------------------------------------------------- whole runs

  /** After the snapshot. */
  function Begun(x: Choice, s: State): State {
    var c := s.chip;
    s.(local := s.local.(snap := Snapshot(At(c, c.host).unread, c.ovrr, c.err || x.hi, c.rxto), overrun := c.ovrr))
  }

  function Whole(x: Choice, s: State): State {
    var u := Begun(x, s);
    if !u.local.snap.fcg then Tail(x, u.(h := AtTimeout))
    else if u.local.overrun then u.(chip := Restarted(s.chip), h := Idle)
    else Tail(x, CheckPart(x, ReadPart(x.size, u.(h := ReadLen))))
  }

  lemma ViaFrame(x: Choice, s: State, end: State)
    requires s.h.AtFrame?
    requires Goes(x, if s.local.overrun then s.(chip := Restarted(s.chip), h := Idle)
                     else Tail(x, CheckPart(x, ReadPart(x.size, s.(h := ReadLen)))), end)
    ensures Goes(x, s, end)
  {
    if s.local.overrun {
      var t := s.(chip := s.chip.(ovrr := false), h := RecStop(true));
      assert Restarted(t.chip) == Restarted(s.chip);
      ViaRecovery(x, t, true, end);
      Steps(x, s, t, end);
    } else {
      ViaReading(x, s.(h := ReadLen), end);
      Steps(x, s, s.(h := ReadLen), end);
    }
  }

  lemma ViaReading(x: Choice, s: State, end: State)
    requires s.h.ReadLen? && Goes(x, Tail(x, CheckPart(x, ReadPart(x.size, s))), end)
    ensures Goes(x, s, end)
  {
    var u := CheckPart(x, ReadPart(x.size, s));
    ViaTail(x, u);
    Onwards(x, u, Tail(x, u), end);
    ViaCheck(x, ReadPart(x.size, s), end);
    ViaRead(x, s, end);
  }

  lemma Onwards(x: Choice, s: State, t: State, u: State)
    requires Goes(x, s, t) && Goes(x, t, u)
    ensures Goes(x, s, u)
  {
    var a :| RunOf(Beat(x), s, a) == Some(t);
    var b :| RunOf(Beat(x), t, b) == Some(u);
    Then(Beat(x), s, a, t, b, u);
  }

  lemma WholeRun(x: Choice, s: State)
    requires s.h.Idle?
    ensures Goes(x, Next(x, s), Whole(x, s))
  {
    var u, end := Begun(x, s), Whole(x, s);
    Stays(x, end);
    if u.local.snap.fcg {
      assert Next(x, s) == u.(h := AtFrame);
      ViaFrame(x, u.(h := AtFrame), end);
    } else {
      assert Next(x, s) == u.(h := AtTimeout);
      ViaTail(x, u.(h := AtTimeout));
    }
  }

  lemma ReachesWhole(x: Choice, s: State, beats: seq<()>, t: State)
    requires s.h.Idle? && t.h.Idle? && RunOf(Beat(x), Next(x, s), beats) == Some(t)
    ensures t == Whole(x, s)
  {
    WholeRun(x, s);
    var full :| RunOf(Beat(x), Next(x, s), full) == Some(Whole(x, s));
    OneEnd(Beat(x), Next(x, s), beats, full);
  }

  // ------------------------------------------------- frames handed over

  /** The run gets as far as reading the frame. */
  predicate Reads(s: State) {
    At(s.chip, s.chip.host).unread && !s.chip.ovrr
  }

  lemma TailPast(x: Choice, s: State)
    ensures Tail(x, s).past == s.past && Tail(x, s).h.Idle?
  {
  }

  /** A run delivers the frame in the host's buffer, once and as far as the driver's buffer
      takes it, unless an overrun was there before; it is marked exactly if an overrun
      comes up while it is read. */
  lemma WholePast(x: Choice, s: State)
    ensures var k, t := At(s.chip, s.chip.host), Whole(x, s);
            var d := Delivery(k.id, |k.data|, Front(x.size, k.data));
            && t.h.Idle? && t.past.arrived == s.past.arrived
            && t.past.clean == s.past.clean + (if Reads(s) && !x.late then [d] else [])
            && t.past.flagged == s.past.flagged + (if Reads(s) && x.late then [d] else [])
            && t.past.floor == (if Reads(s) && !x.late then k.id + 1 else s.past.floor)
            && t.past.gap == (s.past.gap || (Reads(s) && x.late))
  {
    var u := Begun(x, s);
    if Reads(s) {
      TailPast(x, CheckPart(x, ReadPart(x.size, u.(h := ReadLen))));
    } else if !u.local.snap.fcg {
      TailPast(x, u.(h := AtTimeout));
    }
  }

  // ---------------------------------------------------- the device's handler

  /** Chip and status register say the same. */
  predicate SameStatus(c: Chip, st: Bits) {
    && (14 in st <==> At(c, c.host).unread) && (20 in st <==> c.ovrr) && (17 in st || 21 in st <==> c.rxto)
    && (12 in st || 15 in st || 16 in st || 26 in st || 29 in st <==> c.err)
  }

  /** The device's settings and the chip's answers that go with such a run: double buffering
      with the hardware's own re-enable, no frame sent meanwhile. */
  predicate Fits(x: Choice, c: Chip, m: Mode, st: Bits, a: Answers) {
    && SameStatus(c, st) && m.dblbuff && m.rxauto && 7 !in st
    && a.rscs == x.hi && a.late == If(x.late, RXOVRR) && !a.stops
    && (14 in a.next <==> At(c, !c.host).unread) && 15 !in a.next && x.over == !WindowLeft(m, st, a)
  }

  lemma EventsOf(x: Choice, c: Chip, m: Mode, st: Bits, a: Answers)
    requires Fits(x, c, m, st, a)
    ensures Has(st, RXFCG) == At(c, c.host).unread && Has(st, RXOVRR) == c.ovrr && Has(st, ALL_RX_TO) == c.rxto
    ensures MacDevice.RxError(st, a) == (c.err || c.ovrr || x.hi) && !Has(st, TXFRS) && Has(a.late, RXOVRR) == x.late
  {
    if c.ovrr { assert 20 in RXOVRR; }
    if At(c, c.host).unread { assert 14 in RXFCG; }
    if c.rxto { assert 17 in ALL_RX_TO && 21 in ALL_RX_TO; }
    if c.err || c.ovrr {
      assert 12 in ALL_RX_ERR && 15 in ALL_RX_ERR && 16 in ALL_RX_ERR && 20 in ALL_RX_ERR;
      assert 26 in ALL_RX_ERR && 29 in ALL_RX_ERR;
    }
    if x.late { assert 20 in a.late && 20 in RXOVRR; }
  }

  /** The registers after the timeout and error branches. */
  lemma TailChip(x: Choice, s: State)
    ensures var c, snap, t := s.chip, s.local.snap, Tail(x, s).chip;
            var e := snap.err || snap.ovrr;
            && t.ic == c.ic && t.host == (if e && s.local.overrun then c.ic else c.host)
            && t.ovrr == (c.ovrr && !e) && t.err == (c.err && !e) && t.rxto == (c.rxto && !snap.rxto)
            && t.rxOn == (e || (if snap.rxto then !x.over else c.rxOn))
            && At(t, t.host).unread
               == (if !(e && s.local.overrun) then At(c, c.host).unread else c.ic != c.host && At(c, c.ic).unread)
  {
  }

  /** Pointers and receiver after the run. */
  lemma PointersAgree(x: Choice, s: State, m: Mode, st: Bits, a: Answers)
    requires Fits(x, s.chip, m, st, a)
    ensures var c, t := s.chip, Whole(x, s).chip;
            && t.ic == c.ic && t.host == (if Realigns(m, st, a) then c.ic else c.host != TakesBuffer(m, st, a))
  {
    EventsOf(x, s.chip, m, st, a);
    var u := Begun(x, s);
    if !u.local.snap.fcg {
      TailChip(x, u.(h := AtTimeout));
    } else if !u.local.overrun {
      TailChip(x, CheckPart(x, ReadPart(x.size, u.(h := ReadLen))));
    }
  }

  lemma ReceiverAgrees(x: Choice, s: State, m: Mode, st: Bits, a: Answers)
    requires Fits(x, s.chip, m, st, a)
    ensures Whole(x, s).chip.rxOn == OnAfter(m, s.chip.rxOn, st, a)
  {
    EventsOf(x, s.chip, m, st, a);
    var u := Begun(x, s);
    if !u.local.snap.fcg {
      TailChip(x, u.(h := AtTimeout));
    } else if !u.local.overrun {
      TailChip(x, CheckPart(x, ReadPart(x.size, u.(h := ReadLen))));
    }
  }

  /** An overrun without a frame leaves no frame behind in the other buffer either. */
  predicate OverrunAlone(c: Chip) {
    c.ovrr && !At(c, c.host).unread ==> !At(c, !c.host).unread
  }

  lemma WholeFlags(x: Choice, s: State)
    requires OverrunAlone(s.chip)
    ensures var c, t := s.chip, Whole(x, s).chip;
            && !t.ovrr && !t.err && !t.rxto
            && At(t, t.host).unread == (Reads(s) && !x.late && At(c, !c.host).unread)
  {
    var u := Begun(x, s);
    if !u.local.snap.fcg {
      TailChip(x, u.(h := AtTimeout));
    } else if !u.local.overrun {
      TailChip(x, CheckPart(x, ReadPart(x.size, u.(h := ReadLen))));
    }
  }

  lemma ErrorBitsGone(x: Choice, c: Chip, m: Mode, st: Bits, a: Answers)
    requires Fits(x, c, m, st, a)
    ensures forall k :: k in {12, 15, 16, 26, 29} ==> k !in After(m, st, a)
  {
    EventsOf(x, c, m, st, a);
  }

  lemma OtherBitsGone(x: Choice, c: Chip, m: Mode, st: Bits, a: Answers)
    requires Fits(x, c, m, st, a)
    ensures forall k :: k in {17, 20, 21} ==> k !in After(m, st, a)
  {
    EventsOf(x, c, m, st, a);
  }

  lemma NoFrameBit(x: Choice, s: State, m: Mode, st: Bits, a: Answers)
    requires Fits(x, s.chip, m, st, a) && !(Reads(s) && !x.late)
    ensures 14 !in After(m, st, a)
  {
    EventsOf(x, s.chip, m, st, a);
    assert 14 in FRAME_BITS && 14 in FORCE_OFF;
  }

  lemma FrameBitsTold(x: Choice, s: State, m: Mode, st: Bits, a: Answers)
    requires Fits(x, s.chip, m, st, a) && Reads(s) && !x.late
    ensures !EarlyOverrun(st) && 14 in FrameClears(m, st, a) && (14 in Shown(m, st, a) <==> 14 in a.next)
  {
    EventsOf(x, s.chip, m, st, a);
    assert 14 in FRAME_BITS;
  }

  lemma NextFrameBit(x: Choice, s: State, m: Mode, st: Bits, a: Answers)
    requires Fits(x, s.chip, m, st, a) && Reads(s) && !x.late
    ensures 14 in After(m, st, a) <==> 14 in a.next
  {
    FrameBitsTold(x, s, m, st, a);
    assert 14 !in TxClears(st) && 14 !in RxClears(st, a) && 14 !in ClockClears(st);
  }

  lemma FrameBitShown(x: Choice, s: State, m: Mode, st: Bits, a: Answers)
    requires Fits(x, s.chip, m, st, a)
    ensures 14 in After(m, st, a) <==> Reads(s) && !x.late && At(s.chip, !s.chip.host).unread
  {
    if Reads(s) && !x.late {
      NextFrameBit(x, s, m, st, a);
    } else {
      NoFrameBit(x, s, m, st, a);
    }
  }

  lemma StatusAgrees(x: Choice, s: State, m: Mode, st: Bits, a: Answers)
    requires Fits(x, s.chip, m, st, a) && OverrunAlone(s.chip)
    ensures SameStatus(Whole(x, s).chip, After(m, st, a))
  {
    WholeFlags(x, s);
    ErrorBitsGone(x, s.chip, m, st, a);
    OtherBitsGone(x, s.chip, m, st, a);
    FrameBitShown(x, s, m, st, a);
    assert forall k :: k in {12, 15, 16, 26, 29} ==> k !in After(m, st, a);
    assert forall k :: k in {17, 20, 21} ==> k !in After(m, st, a);
  }

  /** The handler's steps, from its start to its end with nothing else in between, hand over
      the frame that is there, once and whole, and leave status bits, pointers and receiver
      as the interrupt handler does. */
  lemma HandlerIsOnePiece(x: Choice, s: State, beats: seq<()>, t: State, m: Mode, st: Bits, a: Answers)
    requires s.h.Idle? && t.h.Idle? && RunOf(Beat(x), Next(x, s), beats) == Some(t)
    requires Fits(x, s.chip, m, st, a) && OverrunAlone(s.chip)
    ensures SameStatus(t.chip, After(m, st, a)) && t.chip.ic == s.chip.ic
    ensures t.chip.host == if Realigns(m, st, a) then s.chip.ic else s.chip.host != TakesBuffer(m, st, a)
    ensures t.chip.rxOn == OnAfter(m, s.chip.rxOn, st, a)
  {
    ReachesWhole(x, s, beats, t);
    StatusAgrees(x, s, m, st, a);
    PointersAgree(x, s, m, st, a);
    ReceiverAgrees(x, s, m, st, a);
  }

  lemma HandlerDelivers(x: Choice, s: State, beats: seq<()>, t: State)
    requires s.h.Idle? && t.h.Idle? && RunOf(Beat(x), Next(x, s), beats) == Some(t)
    ensures var k := At(s.chip, s.chip.host);
            var d := Delivery(k.id, |k.data|, Front(x.size, k.data));
            && t.past.clean == s.past.clean + (if Reads(s) && !x.late then [d] else [])
            && t.past.flagged == s.past.flagged + (if Reads(s) && x.late then [d] else [])
            && t.past.arrived == s.past.arrived
  {
    ReachesWhole(x, s, beats, t);
    WholePast(x, s);
  }

  /** It gets to its end. */
  lemma HandlerEnds(x: Choice, s: State) returns (beats: seq<()>)
    requires s.h.Idle?
    ensures var end := RunOf(Beat(x), Next(x, s), beats); end.Some? && end.value.h.Idle?
  {
    WholeRun(x, s);
    WholePast(x, s);
    beats :| RunOf(Beat(x), Next(x, s), beats) == Some(Whole(x, s));
  }
}
