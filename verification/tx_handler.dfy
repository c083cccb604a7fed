/** The handler of the transmit semaphore's step system, run to its end with nothing in
    between but an overrun that comes up while a frame is read, does what the device's
    interrupt handler does; and the calls that are cut into steps do what they do in one
    piece. */
module TxHandler {
  import opened Common
  import opened RegisterBits
  import opened MacDevice
  import opened Runs
  import T = TxSemaphore

  /** Status register and flags say the same. */
  predicate SameFlags(f: T.Flags, st: Bits) {
    && (4 in st <==> f.frb) && (7 in st <==> f.frs) && (28 in st <==> f.berr)
    && (14 in st <==> f.fcg) && (20 in st <==> f.ovrr) && (17 in st || 21 in st <==> f.rxto)
    && (12 in st || 15 in st || 16 in st || 26 in st || 29 in st <==> f.rxerr)
  }

  /** RXOVRR comes up just before the handler looks for it once more. */
  function Met(s: T.State, late: bool): T.State {
    if s.h.AtFrame? && late && !s.overrun then s.(flags := s.flags.(ovrr := true)) else s
  }

  /** One step within a handler run; the run ends where the handler is idle. */
  function Beat(dbl: bool, over: bool, late: bool): (T.State, ()) -> Option<T.State> {
    (s: T.State, beat: ()) => if s.h.Idle? then None else Some(T.HandlerStep(dbl, Met(s, late), over))
  }

  ghost predicate Goes(dbl: bool, over: bool, late: bool, s: T.State, t: T.State) {
    exists beats :: RunOf(Beat(dbl, over, late), s, beats) == Some(t)
  }

  lemma Stays(dbl: bool, over: bool, late: bool, s: T.State)
    ensures Goes(dbl, over, late, s, s)
  {
    assert RunOf(Beat(dbl, over, late), s, []) == Some(s);
  }

  /** One more step on the way to `u`. */
  lemma Steps(dbl: bool, over: bool, late: bool, s: T.State, t: T.State, u: T.State)
    requires !s.h.Idle? && t == T.HandlerStep(dbl, Met(s, late), over) && Goes(dbl, over, late, t, u)
    ensures Goes(dbl, over, late, s, u)
  {
    var beats :| RunOf(Beat(dbl, over, late), t, beats) == Some(u);
    OneStep(Beat(dbl, over, late), s, (), t);
    Then(Beat(dbl, over, late), s, [()], t, beats, u);
  }

  // ------------------------------------------------------------ the parts

  /** The count after a release that is made if it is called for. */
  function Released(count: nat, release: bool): nat {
    if release && count == 0 then 1 else count
  }

  /** The branches of the handler, each run in one piece from where it starts. */
  function FirstPart(s: T.State): T.State {
    s.(count := Released(s.count, !s.snap.frb || s.snap.frs), h := T.AfterFirst(s))
  }

  function SentPart(s: T.State): T.State {
    var sent := s.snap.frs;
    s.(flags := s.flags.(frb := s.flags.frb && !sent, frs := s.flags.frs && !sent),
       count := Released(s.count, sent), h := T.AtBufErr)
  }

  function BufErrPart(s: T.State): T.State {
    var err := s.snap.berr;
    s.(flags := s.flags.(berr := s.flags.berr && !err), count := Released(s.count, err), h := T.AtTimeout)
  }

  function OffPart(s: T.State, early: bool): T.State {
    s.(air := false, flags := T.NO_FLAGS, count := Released(s.count, true), h := T.AfterOff(early))
  }

  lemma ViaFirst(dbl: bool, over: bool, late: bool, s: T.State, end: T.State)
    requires s.h.AtFirstRelease? && Goes(dbl, over, late, FirstPart(s), end)
    ensures Goes(dbl, over, late, s, end)
  {
    var t := FirstPart(s);
    if s.count == 0 && (!s.snap.frb || s.snap.frs) {
      var u := s.(h := T.FirstGive);
      Steps(dbl, over, late, u, t, end);
      Steps(dbl, over, late, s, u, end);
    } else {
      Steps(dbl, over, late, s, t, end);
    }
  }

  lemma ViaSentRelease(dbl: bool, over: bool, late: bool, s: T.State, end: T.State)
    requires s.h.SentRelease? && Goes(dbl, over, late, s.(count := Released(s.count, true), h := T.AtBufErr), end)
    ensures Goes(dbl, over, late, s, end)
  {
    var t := s.(count := Released(s.count, true), h := T.AtBufErr);
    if s.count == 0 {
      Steps(dbl, over, late, s.(h := T.SentGive), t, end);
      Steps(dbl, over, late, s, s.(h := T.SentGive), end);
    } else {
      Steps(dbl, over, late, s, t, end);
    }
  }

  lemma ViaSent(dbl: bool, over: bool, late: bool, s: T.State, end: T.State)
    requires s.h.AtSent? && Goes(dbl, over, late, SentPart(s), end)
    ensures Goes(dbl, over, late, s, end)
  {
    var t := SentPart(s);
    if s.snap.frs {
      ViaSentRelease(dbl, over, late, t.(count := s.count, h := T.SentRelease), end);
      Steps(dbl, over, late, s, t.(count := s.count, h := T.SentRelease), end);
    } else {
      Steps(dbl, over, late, s, t, end);
    }
  }

  lemma ViaBufErrRelease(dbl: bool, over: bool, late: bool, s: T.State, end: T.State)
    requires s.h.BufErrRelease? && Goes(dbl, over, late, s.(count := Released(s.count, true), h := T.AtTimeout), end)
    ensures Goes(dbl, over, late, s, end)
  {
    var t := s.(count := Released(s.count, true), h := T.AtTimeout);
    if s.count == 0 {
      Steps(dbl, over, late, s.(h := T.BufErrGive), t, end);
      Steps(dbl, over, late, s, s.(h := T.BufErrGive), end);
    } else {
      Steps(dbl, over, late, s, t, end);
    }
  }

  lemma ViaBufErr(dbl: bool, over: bool, late: bool, s: T.State, end: T.State)
    requires s.h.AtBufErr? && Goes(dbl, over, late, BufErrPart(s), end)
    ensures Goes(dbl, over, late, s, end)
  {
    var t := BufErrPart(s);
    if s.snap.berr {
      ViaBufErrRelease(dbl, over, late, t.(count := s.count, h := T.BufErrRelease), end);
      Steps(dbl, over, late, s, t.(count := s.count, h := T.BufErrRelease), end);
    } else {
      Steps(dbl, over, late, s, t, end);
    }
  }

  lemma ViaOff(dbl: bool, over: bool, late: bool, s: T.State, early: bool, end: T.State)
    requires s.h == T.OffStop(early) && Goes(dbl, over, late, OffPart(s, early), end)
    ensures Goes(dbl, over, late, s, end)
  {
    var t := OffPart(s, early);
    var u := s.(air := false, h := T.OffClear(early));
    var v := u.(flags := T.NO_FLAGS, h := T.OffRelease(early));
    if s.count == 0 {
      Steps(dbl, over, late, v.(h := T.OffGive(early)), t, end);
      Steps(dbl, over, late, v, v.(h := T.OffGive(early)), end);
    } else {
      Steps(dbl, over, late, v, t, end);
    }
    Steps(dbl, over, late, u, v, end);
    Steps(dbl, over, late, s, u, end);
  }

  // -------------------------------------------------------- whole handler

  /** What the branches after the frame's leave of the flags. */
  function Cleared(f: T.Flags, snap: T.Flags): T.Flags {
    var err := snap.rxerr || snap.ovrr;
    T.Flags(f.frb && !snap.frb && !snap.frs, f.frs && !snap.frs, f.berr && !snap.berr, f.fcg,
            f.ovrr && !err, f.rxto && !snap.rxto, f.rxerr && !err)
  }

  /** The branches after the frame's, from its end. */
  function Tail(dbl: bool, over: bool, s: T.State): T.State {
    s.(flags := Cleared(s.flags, s.snap), h := T.Idle,
       count := Released(s.count, s.snap.frs || s.snap.berr),
       air := s.air && !(s.snap.rxto && over) && (s.snap.rxerr || s.snap.ovrr ==> dbl && s.overrun))
  }

  lemma BegunStep(dbl: bool, s: T.State, over: bool)
    requires s.h.AtBegun?
    ensures T.HandlerStep(dbl, s, over) == s.(flags := s.flags.(frb := s.flags.frb && !s.snap.frb), h := T.AtSent)
  {
  }

  lemma TimeoutStep(dbl: bool, s: T.State, over: bool)
    requires s.h.AtTimeout?
    ensures T.HandlerStep(dbl, s, over)
            == s.(flags := s.flags.(rxto := s.flags.rxto && !s.snap.rxto),
                  air := s.air && !(s.snap.rxto && over), h := T.AtRxError)
  {
  }

  lemma ErrorStep(dbl: bool, s: T.State, over: bool)
    requires s.h.AtRxError?
    ensures var err := s.snap.rxerr || s.snap.ovrr;
            T.HandlerStep(dbl, s, over)
            == s.(flags := s.flags.(rxerr := s.flags.rxerr && !err, ovrr := s.flags.ovrr && !err), h := T.Idle,
                  air := s.air && (err ==> dbl && s.overrun))
  {
  }

  /** The flags and the transmitter after the last two branches. */
  function LastParts(dbl: bool, over: bool, s: T.State): T.State {
    var err := s.snap.rxerr || s.snap.ovrr;
    s.(flags := s.flags.(rxto := s.flags.rxto && !s.snap.rxto, rxerr := s.flags.rxerr && !err,
                         ovrr := s.flags.ovrr && !err), h := T.Idle,
       air := s.air && !(s.snap.rxto && over) && (err ==> dbl && s.overrun))
  }

  lemma ViaLast(dbl: bool, over: bool, late: bool, s: T.State)
    requires s.h.AtTimeout?
    ensures Goes(dbl, over, late, s, LastParts(dbl, over, s))
  {
    var u, v := T.HandlerStep(dbl, s, over), LastParts(dbl, over, s);
    TimeoutStep(dbl, s, over);
    ErrorStep(dbl, u, over);
    Stays(dbl, over, late, v);
    Steps(dbl, over, late, u, v, v);
    Steps(dbl, over, late, s, u, v);
  }

  lemma TailIsParts(dbl: bool, over: bool, s: T.State)
    ensures var u := s.(flags := s.flags.(frb := s.flags.frb && !s.snap.frb), h := T.AtSent);
            Tail(dbl, over, s) == LastParts(dbl, over, BufErrPart(SentPart(u)))
  {
  }

  lemma ViaTail(dbl: bool, over: bool, late: bool, s: T.State)
    requires s.h.AtBegun?
    ensures Goes(dbl, over, late, s, Tail(dbl, over, s))
  {
    var u, t := T.HandlerStep(dbl, s, over), Tail(dbl, over, s);
    BegunStep(dbl, s, over);
    TailIsParts(dbl, over, s);
    ViaLast(dbl, over, late, BufErrPart(SentPart(u)));
    ViaBufErr(dbl, over, late, SentPart(u), t);
    ViaSent(dbl, over, late, u, t);
    Steps(dbl, over, late, s, u, t);
  }

  /** The handler with no overrun to deal with, and with one that came up late. */
  function Undisturbed(s: T.State, late: bool): T.State {
    s.(flags := s.flags.(fcg := false, ovrr := s.flags.ovrr || late), h := T.AtBegun)
  }

  function Disturbed(s: T.State): T.State {
    s.(flags := s.flags.(ovrr := true), overrun := true, h := T.OffStop(false))
  }

  lemma FrameStep(dbl: bool, over: bool, late: bool, s: T.State)
    requires s.h.AtFrame?
    ensures T.HandlerStep(dbl, Met(s, late), over)
            == if s.overrun then s.(h := T.OffStop(true))
               else if dbl && (s.flags.ovrr || late) then Disturbed(s) else Undisturbed(s, late)
  {
  }

  /** A run from where the handler looks at the frame. */
  function FromFrame(dbl: bool, over: bool, late: bool, s: T.State): T.State {
    if s.overrun then OffPart(s.(h := T.OffStop(true)), true)
    else if dbl && (s.flags.ovrr || late) then Tail(dbl, over, OffPart(Disturbed(s), false))
    else Tail(dbl, over, Undisturbed(s, late))
  }

  lemma ViaFrame(dbl: bool, over: bool, late: bool, s: T.State)
    requires s.h.AtFrame?
    ensures Goes(dbl, over, late, s, FromFrame(dbl, over, late, s))
  {
    FrameStep(dbl, over, late, s);
    var t := FromFrame(dbl, over, late, s);
    if s.overrun {
      var u := s.(h := T.OffStop(true));
      Stays(dbl, over, late, t);
      ViaOff(dbl, over, late, u, true, t);
      Steps(dbl, over, late, s, u, t);
    } else if dbl && (s.flags.ovrr || late) {
      ViaTail(dbl, over, late, OffPart(Disturbed(s), false));
      ViaOff(dbl, over, late, Disturbed(s), false, t);
      Steps(dbl, over, late, s, Disturbed(s), t);
    } else {
      ViaTail(dbl, over, late, Undisturbed(s, late));
      Steps(dbl, over, late, s, Undisturbed(s, late), t);
    }
  }

  /** A whole run: the snapshot, the release of a transmission that is over, the frame and
      the rest. */
  function Whole(dbl: bool, over: bool, late: bool, s: T.State): T.State {
    var f := s.flags;
    var u := FirstPart(s.(snap := f, overrun := f.ovrr));
    if f.fcg then FromFrame(dbl, over, late, u) else Tail(dbl, over, u)
  }

  lemma WholeRun(dbl: bool, over: bool, late: bool, s: T.State)
    requires s.h.Idle?
    ensures Goes(dbl, over, late, T.HandlerStep(dbl, s, over), Whole(dbl, over, late, s))
  {
    var f, t := s.flags, Whole(dbl, over, late, s);
    var u := s.(snap := f, overrun := f.ovrr, h := T.AtFirstRelease);
    var v := FirstPart(u);
    if f.fcg {
      ViaFrame(dbl, over, late, v);
    } else {
      ViaTail(dbl, over, late, v);
    }
    ViaFirst(dbl, over, late, u, t);
  }

  // ---------------------------------------------------- the device's handler

  /** The chip's answers in such a run: at most an overrun comes up, and the other buffer
      of the pair is empty. */
  predicate Plain(a: Answers, late: bool) {
    !a.rscs && a.late == If(late, RXOVRR) && a.next * FRAME_BITS == {}
  }

  lemma EventsOf(f: T.Flags, st: Bits, a: Answers)
    requires SameFlags(f, st) && !a.rscs
    ensures Has(st, TXFRB) == f.frb && Has(st, TXFRS) == f.frs && Has(st, TXBERR) == f.berr
    ensures Has(st, RXFCG) == f.fcg && Has(st, RXOVRR) == f.ovrr && Has(st, ALL_RX_TO) == f.rxto
    ensures RxError(st, a) == (f.rxerr || f.ovrr)
  {
    if f.frb { assert 4 in TXFRB; }
    if f.frs { assert 7 in TXFRS; }
    if f.berr { assert 28 in TXBERR; }
    if f.fcg { assert 14 in RXFCG; }
    if f.ovrr { assert 20 in RXOVRR; }
    if f.rxto { assert 17 in ALL_RX_TO && 21 in ALL_RX_TO; }
    if f.rxerr || f.ovrr {
      assert 12 in ALL_RX_ERR && 15 in ALL_RX_ERR && 16 in ALL_RX_ERR && 20 in ALL_RX_ERR;
      assert 26 in ALL_RX_ERR && 29 in ALL_RX_ERR;
    }
  }

  /** An overrun ends the frame: everything is cleared. */
  lemma FlagsGone(m: Mode, over: bool, late: bool, s: T.State, st: Bits, a: Answers)
    requires SameFlags(s.flags, st) && Plain(a, late) && s.flags.fcg && (s.flags.ovrr || (m.dblbuff && late))
    ensures SameFlags(Whole(m.dblbuff, over, late, s).flags, After(m, st, a))
  {
    EventsOf(s.flags, st, a);
    assert late ==> 20 in a.late && 20 in RXOVRR;
    assert Whole(m.dblbuff, over, late, s).flags == T.NO_FLAGS;
  }

  lemma WholeFlags(dbl: bool, over: bool, late: bool, s: T.State)
    requires !(s.flags.fcg && (s.flags.ovrr || (dbl && late)))
    ensures Whole(dbl, over, late, s).flags
            == Cleared(s.flags.(fcg := false, ovrr := s.flags.ovrr || (s.flags.fcg && late)), s.flags)
  {
  }

  lemma TxBitsLeft(m: Mode, f: T.Flags, st: Bits, a: Answers, late: bool)
    requires SameFlags(f, st) && Plain(a, late) && !(f.fcg && (f.ovrr || (m.dblbuff && late)))
    ensures var e := After(m, st, a);
            (4 in e <==> f.frb && !f.frb && !f.frs) && (7 in e <==> f.frs && !f.frs) && (28 in e <==> f.berr && !f.berr)
  {
    EventsOf(f, st, a);
    assert 4 !in FRAME_BITS && 7 !in FRAME_BITS && 28 !in FRAME_BITS;
  }

  lemma FrameBitLeft(m: Mode, f: T.Flags, st: Bits, a: Answers, late: bool)
    requires SameFlags(f, st) && Plain(a, late) && !(f.fcg && (f.ovrr || (m.dblbuff && late)))
    ensures 14 !in After(m, st, a)
  {
    EventsOf(f, st, a);
  }

  lemma OverrunBitTold(m: Mode, f: T.Flags, st: Bits, a: Answers, late: bool)
    requires SameFlags(f, st) && Plain(a, late) && !(f.fcg && (f.ovrr || (m.dblbuff && late)))
    ensures !EarlyOverrun(st) && 20 !in FrameClears(m, st, a) && 20 !in Shown(m, st, a)
    ensures Has(st, RXFCG) == f.fcg && RxError(st, a) == (f.rxerr || f.ovrr)
  {
    EventsOf(f, st, a);
    assert 20 !in FRAME_BITS + RXPHD;
  }

  lemma OverrunBitLeft(m: Mode, f: T.Flags, st: Bits, a: Answers, late: bool)
    requires SameFlags(f, st) && Plain(a, late) && !(f.fcg && (f.ovrr || (m.dblbuff && late)))
    ensures 20 in After(m, st, a) <==> (f.ovrr || (f.fcg && late)) && !f.rxerr && !f.ovrr
  {
    OverrunBitTold(m, f, st, a, late);
    assert 20 !in TxClears(st) && 20 !in ClockClears(st) && (20 in RxClears(st, a) <==> RxError(st, a));
    assert 20 in a.late <==> late;
  }

  lemma ErrorBitsLeft(m: Mode, f: T.Flags, st: Bits, a: Answers, late: bool)
    requires SameFlags(f, st) && Plain(a, late) && !(f.fcg && (f.ovrr || (m.dblbuff && late)))
    ensures forall k :: k in {12, 15, 16, 17, 21, 26, 29} ==> k !in After(m, st, a)
  {
    EventsOf(f, st, a);
    AfterWithoutExit(m, st, a);
  }

  lemma FlagsLeft(m: Mode, over: bool, late: bool, s: T.State, st: Bits, a: Answers)
    requires SameFlags(s.flags, st) && Plain(a, late) && !(s.flags.fcg && (s.flags.ovrr || (m.dblbuff && late)))
    ensures SameFlags(Whole(m.dblbuff, over, late, s).flags, After(m, st, a))
  {
    WholeFlags(m.dblbuff, over, late, s);
    TxBitsLeft(m, s.flags, st, a, late);
    FrameBitLeft(m, s.flags, st, a, late);
    OverrunBitLeft(m, s.flags, st, a, late);
    ErrorBitsLeft(m, s.flags, st, a, late);
    assert forall k :: k in {12, 15, 16, 17, 21, 26, 29} ==> k !in After(m, st, a);
  }

  lemma FlagsAgree(m: Mode, over: bool, late: bool, s: T.State, st: Bits, a: Answers)
    requires SameFlags(s.flags, st) && Plain(a, late)
    ensures SameFlags(Whole(m.dblbuff, over, late, s).flags, After(m, st, a))
  {
    if s.flags.fcg && (s.flags.ovrr || (m.dblbuff && late)) {
      FlagsGone(m, over, late, s, st, a);
    } else {
      FlagsLeft(m, over, late, s, st, a);
    }
  }

  lemma CountAgrees(m: Mode, over: bool, late: bool, s: T.State, st: Bits, a: Answers)
    requires SameFlags(s.flags, st) && Plain(a, late)
    ensures Whole(m.dblbuff, over, late, s).count == Released(s.count, TxOver(m, st, a))
  {
    EventsOf(s.flags, st, a);
    assert late ==> 20 in a.late && 20 in RXOVRR;
  }

  /** The transmitter is cut off by an overrun with a good frame, by a timeout that ends
      the receive window, and by an error unless the buffers are only to be realigned. */
  lemma AirLeft(dbl: bool, over: bool, late: bool, s: T.State)
    ensures var f := s.flags;
            Whole(dbl, over, late, s).air
            == (s.air && !(f.fcg && (f.ovrr || (dbl && late))) && !(f.rxto && over)
                && (f.rxerr || f.ovrr ==> dbl && f.ovrr))
  {
  }

  /** A handler run that ends in `t` has done to the status register and to the semaphore
      what the interrupt handler does. */
  predicate Agrees(m: Mode, over: bool, late: bool, s: T.State, st: Bits, a: Answers, t: T.State) {
    var f := s.flags;
    && SameFlags(t.flags, After(m, st, a)) && t.count == Released(s.count, TxOver(m, st, a))
    && t.air == (s.air && !(f.fcg && (f.ovrr || (m.dblbuff && late))) && !(f.rxto && over)
                 && (f.rxerr || f.ovrr ==> m.dblbuff && f.ovrr))
  }

  lemma WholeAgrees(m: Mode, over: bool, late: bool, s: T.State, st: Bits, a: Answers)
    requires SameFlags(s.flags, st) && Plain(a, late)
    ensures Agrees(m, over, late, s, st, a, Whole(m.dblbuff, over, late, s))
  {
    AirLeft(m.dblbuff, over, late, s);
    CountAgrees(m, over, late, s, st, a);
    FlagsAgree(m, over, late, s, st, a);
  }

  lemma ReachesWhole(dbl: bool, over: bool, late: bool, s: T.State, beats: seq<()>, t: T.State)
    requires s.h.Idle? && t.h.Idle? && RunOf(Beat(dbl, over, late), T.HandlerStep(dbl, s, over), beats) == Some(t)
    ensures t == Whole(dbl, over, late, s)
  {
    var u, w := T.HandlerStep(dbl, s, over), Whole(dbl, over, late, s);
    WholeRun(dbl, over, late, s);
    var full :| RunOf(Beat(dbl, over, late), u, full) == Some(w);
    OneEnd(Beat(dbl, over, late), u, beats, full);
  }

  /** The handler's steps, from its start to its end with nothing else in between, do what
      the interrupt handler does. */
  lemma HandlerIsOnePiece(m: Mode, over: bool, late: bool, s: T.State, st: Bits, a: Answers, beats: seq<()>, t: T.State)
    requires s.h.Idle? && SameFlags(s.flags, st) && Plain(a, late)
    requires RunOf(Beat(m.dblbuff, over, late), T.HandlerStep(m.dblbuff, s, over), beats) == Some(t) && t.h.Idle?
    ensures Agrees(m, over, late, s, st, a, t)
  {
    ReachesWhole(m.dblbuff, over, late, s, beats, t);
    WholeAgrees(m, over, late, s, st, a);
  }

  /** It gets to its end. */
  lemma HandlerEnds(dbl: bool, over: bool, late: bool, s: T.State) returns (beats: seq<()>)
    requires s.h.Idle?
    ensures var end := RunOf(Beat(dbl, over, late), T.HandlerStep(dbl, s, over), beats);
            end.Some? && end.value.h.Idle?
  {
    WholeRun(dbl, over, late, s);
    beats :| RunOf(Beat(dbl, over, late), T.HandlerStep(dbl, s, over), beats) == Some(Whole(dbl, over, late, s));
  }

  // --------------------------------------------------------- the device's calls

  lemma ForcedWhole(s: T.State, t: nat)
    requires t < |s.off| && s.off[t] == T.Outside
    ensures var u := T.Forced(T.Forced(T.Forced(T.Forced(s, t), t), t), t);
            && (s.count == 0 ==> u.off[t] != T.Outside)
            && (if s.count == 0 then T.Forced(u, t) else u)
               == s.(flags := T.NO_FLAGS, air := false, count := Released(s.count, true))
  {
    var u := s.(off := s.off[t := T.Stopping]);
    var v := s.(air := false, off := s.off[t := T.Clearing]);
    var w := s.(air := false, flags := T.NO_FLAGS, off := s.off[t := T.Releasing]);
    assert T.Forced(s, t) == u;
    assert T.Forced(u, t) == v by {
      assert u.off[t := T.Clearing] == s.off[t := T.Clearing];
    }
    assert T.Forced(v, t) == w by {
      assert v.off[t := T.Releasing] == s.off[t := T.Releasing];
    }
    assert w.off[t := T.Outside] == s.off && w.off[t := T.Giving][t := T.Outside] == s.off;
  }

  /** So do the steps of the call that forces the radio off. */
  lemma ForceOffIsOnePiece(s: T.State, t: nat, st: Bits)
    requires t < |s.off| && s.off[t] == T.Outside && SameFlags(s.flags, st)
    ensures var u := T.Forced(T.Forced(T.Forced(T.Forced(s, t), t), t), t);
            var v := if s.count == 0 then T.Forced(u, t) else u;
            && (s.count == 0 ==> u.off[t] != T.Outside)
            && v == s.(flags := v.flags, air := false, count := Released(s.count, true))
            && SameFlags(v.flags, st - FORCE_OFF)
  {
    ForcedWhole(s, t);
  }

  /** The releases that a start still owes, made one after another. */
  function Given(dbl: bool, s: T.State, n: nat): T.State
    requires n <= s.owing
    ensures Given(dbl, s, n) == s.(count := s.count + n, owing := s.owing - n)
    decreases n
  {
    if n == 0 then s else Given(dbl, T.Apply(dbl, s, T.StartGive), n - 1)
  }

  /** A start up to where it starts the transmission. */
  function Begun(dbl: bool, s: T.State, trxoff: bool): (t: T.State)
    requires s.count > 0
    ensures t == s.(count := s.count - 1, starting := s.starting + 1, air := s.air && !trxoff)
  {
    var pended := T.Apply(dbl, s, T.StartPend);
    if trxoff then T.Apply(dbl, pended, T.StartIdle) else pended
  }

  /** And those of the call that starts a transmission, once it has the semaphore. */
  lemma StartIsOnePiece(dbl: bool, s: T.State, trxoff: bool, late: bool, sleep: bool, clears: bool)
    requires s.count > 0
    ensures var begun := Begun(dbl, s, trxoff);
            var started := T.Apply(dbl, begun, T.StartTx(late, sleep, clears));
            && started.starting == s.starting && started.owing >= s.owing
            && Given(dbl, started, started.owing - s.owing).count
               == s.count - 1 + (if late then 1 else 0) + (if sleep then 1 else 0)
            && started.air == !late && started.thenSleep == sleep
  {
  }

  lemma StopIsOnePiece(dbl: bool, s: T.State, st: Bits)
    requires SameFlags(s.flags, st)
    ensures var t := T.Apply(dbl, s, T.StopRx);
            SameFlags(t.flags, st - (ALL_TX + ALL_RX_ERR + ALL_RX_TO + ALL_RX_GOOD)) && t.count == s.count && !t.air
  {
    var bits := ALL_TX + ALL_RX_ERR + ALL_RX_TO + ALL_RX_GOOD;
    assert 4 in bits && 7 in bits && 28 !in bits && 14 in bits && 20 in bits;
    assert 17 in bits && 21 in bits && 12 in bits && 15 in bits && 16 in bits && 26 in bits && 29 in bits;
  }

  lemma FlagsAdded(f: T.Flags, st: Bits, fcg: bool, ovrr: bool, rxto: bool, rxerr: bool)
    requires SameFlags(f, st)
    ensures SameFlags(f.(fcg := f.fcg || fcg, ovrr := f.ovrr || ovrr, rxto := f.rxto || rxto,
                         rxerr := f.rxerr || rxerr),
                      st + If(fcg, {14}) + If(ovrr, {20}) + If(rxto, {17}) + If(rxerr, {12}))
  {
  }

  /** What the receiver reports is added to the status register. */
  lemma ReceiverReports(dbl: bool, s: T.State, st: Bits, fcg: bool, ovrr: bool, rxto: bool, rxerr: bool)
    requires SameFlags(s.flags, st)
    ensures var t := T.Apply(dbl, s, T.Receives(fcg, ovrr, rxto, rxerr));
            && SameFlags(t.flags, st + If(fcg, {14}) + If(ovrr, {20}) + If(rxto, {17}) + If(rxerr, {12}))
            && t.count == s.count && t.air == s.air
  {
    FlagsAdded(s.flags, st, fcg, ovrr, rxto, rxerr);
  }
}
