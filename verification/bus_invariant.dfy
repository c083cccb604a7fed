/** What holds in every reachable state of the bus, and that every step keeps it. */
module BusInvariant {
  import opened Codec
  import opened Common
  import opened SpiBus

  // --------------------------------------------------- serial reference

  /** Memory of device `d` after the accesses of `log`, one at a time. */
  function Serial(c: Config, log: seq<Entry>, d: nat): Mem
    requires d < |c.mems|
  {
    if log == [] then c.mems[d]
    else
      var a, m := log[|log| - 1].a, Serial(c, log[..|log| - 1], d);
      if a.dev == d && a.h.write then WriteBytes(m, DataAddr(a), a.data) else m
  }

  predicate LogOk(c: Config, log: seq<Entry>) {
    forall i :: 0 <= i < |log| ==> log[i].a.dev < |c.mems|
  }

  /** What the `i`th access reads when the ones before it ran alone. */
  function Expected(c: Config, log: seq<Entry>, i: nat): (bytes: seq<byte>)
    requires LogOk(c, log) && i < |log|
    ensures |bytes| == log[i].a.len
  {
    ReadBytes(Serial(c, log[..i], log[i].a.dev), DataAddr(log[i].a), log[i].a.len)
  }

  lemma SerialAppend(c: Config, log: seq<Entry>, e: Entry, d: nat)
    requires d < |c.mems|
    ensures Serial(c, log + [e], d) ==
            if e.a.dev == d && e.a.h.write then WriteBytes(Serial(c, log, d), DataAddr(e.a), e.a.data)
            else Serial(c, log, d)
  {
    assert (log + [e])[..|log|] == log;
  }

  lemma ExpectedAppend(c: Config, log: seq<Entry>, e: Entry, i: nat)
    requires LogOk(c, log) && LogOk(c, log + [e]) && i < |log|
    ensures Expected(c, log + [e], i) == Expected(c, log, i)
  {
    assert (log + [e])[..i] == log[..i];
  }

  // ------------------------------------------------- one chip, mid-access

  /** `bytes` is how far the frame of `a` has got; read filler may be anything. */
  predicate Carries(a: Access, bytes: seq<byte>) {
    && |bytes| <= FrameLen(a)
    && forall i :: 0 <= i < |bytes| && (i < HLen(a) || a.h.write) ==> bytes[i] == Frame(a)[i]
  }

  /** The chip started at `m0` and has taken part of the frame of `a`. */
  predicate ChipMid(a: Access, m0: Mem, chip: Chip) {
    && Carries(a, chip.clocked)
    && chip.mem == if a.h.write && |chip.clocked| > HLen(a)
                   then WriteBytes(m0, DataAddr(a), a.data[..|chip.clocked| - HLen(a)]) else m0
  }

  lemma HeaderSeen(a: Access, bytes: seq<byte>)
    requires Carries(a, bytes)
    ensures Decode(bytes) == if |bytes| < HLen(a) then Incomplete else Complete(a.h, HLen(a))
  {
    assert StartsAs(a.h, bytes) by {
      forall i | 0 <= i < |bytes| && i < |Encode(a.h)|
        ensures bytes[i] == Encode(a.h)[i]
      {
        assert bytes[i] == Frame(a)[i];
      }
    }
    DecodeEncode(a.h, bytes);
  }

  lemma FeedKeeps(a: Access, m0: Mem, chip: Chip, b: byte)
    requires ChipMid(a, m0, chip) && |chip.clocked| < FrameLen(a)
    requires |chip.clocked| < HLen(a) || a.h.write ==> b == Frame(a)[|chip.clocked|]
    ensures ChipMid(a, m0, Feed(chip, b))
  {
    HeaderSeen(a, chip.clocked);
    var i := |chip.clocked| - HLen(a);
    if i >= 0 && a.h.write {
      assert a.data[..i + 1][..i] == a.data[..i];
      assert a.data[..0] == [];
    }
  }

  /** While data of a read go out the chip drives the byte it stores. */
  lemma DrivenByte(a: Access, m0: Mem, chip: Chip)
    requires ChipMid(a, m0, chip) && !a.h.write && HLen(a) <= |chip.clocked| < FrameLen(a)
    ensures Driven(chip) == Some(Get(m0, DataAddr(a) + |chip.clocked| - HLen(a)))
  {
    HeaderSeen(a, chip.clocked);
  }

  // ------------------------------------------------------- the invariant

  /** Device `e` is not being talked to and holds what the serial order gives it. */
  predicate QuietDev(c: Config, s: State, e: nat)
    requires Sized(c, s) && e < |c.mems|
  {
    s.nb[e] == 1 && s.high[e] && s.chips[e] == Chip(Serial(c, s.log, e), [])
  }

  predicate OthersQuiet(c: Config, s: State, d: nat)
    requires Sized(c, s)
  {
    forall e :: 0 <= e < |c.mems| && e != d ==> QuietDev(c, s, e)
  }

  /** Task `t` waits for its read's final transfer, or has its data already. */
  predicate ReadPending(c: Config, s: State, t: nat)
    requires Sized(c, s) && LogOk(c, s.log)
  {
    && HasAccess(s, t)
    && var k, a := s.tasks[t], Cur(s, t);
       && !a.h.write && a.noblock && !Short(c, a)
       && k.ticket < |s.log| && s.log[k.ticket] == Entry(t, a)
       && |k.buf| == a.len
       && ((s.hold == Detached && k.ticket == |s.log| - 1) || k.buf == Expected(c, s.log, k.ticket))
  }

  /** Task `t` holds nothing. */
  predicate Parked(c: Config, s: State, t: nat)
    requires Sized(c, s) && LogOk(c, s.log) && t < |s.tasks|
  {
    s.tasks[t].pc == Start || (s.tasks[t].pc == Reacquire && ReadPending(c, s, t))
  }

  predicate OthersParked(c: Config, s: State, t: nat)
    requires Sized(c, s) && LogOk(c, s.log)
  {
    forall u :: 0 <= u < |s.tasks| && u != t ==> Parked(c, s, u)
  }

  /** Transfers start at byte 0 or, outside the short path, inside the data part. */
  predicate Aligned(c: Config, a: Access, done: nat) {
    && done <= FrameLen(a)
    && (done == 0 || done == FrameLen(a) || (done >= HLen(a) && !(a.noblock && Short(c, a))))
  }

  /** The read data that have come back are the expected ones, wherever they land,
      and the scratch buffer still holds the rest of a short frame. */
  predicate Moved(c: Config, s: State, a: Access, buf: seq<byte>, n: nat)
    requires Sized(c, s) && LogOk(c, s.log) && |s.log| > 0 && s.log[|s.log| - 1].a == a
  {
    var d, exp := a.dev, Expected(c, s.log, |s.log| - 1);
    if a.noblock && Short(c, a) then
      && (!a.h.write ==> forall i :: HLen(a) <= i < n && i < FrameLen(a) ==> s.txbufs[d][i] == exp[i - HLen(a)])
      && (forall i :: n <= i < FrameLen(a) ==> s.txbufs[d][i] == Frame(a)[i])
    else
      !a.h.write ==> |buf| == a.len && forall i :: 0 <= i < n - HLen(a) && i < a.len ==> buf[i] == exp[i]
  }

  /** The chip of the running access is selected and has taken `n` bytes. */
  predicate Mid(c: Config, s: State, a: Access, buf: seq<byte>, n: nat)
    requires Sized(c, s) && LogOk(c, s.log) && |s.log| > 0 && s.log[|s.log| - 1].a == a
  {
    var d := a.dev;
    && !s.high[d] && |s.chips[d].clocked| == n
    && ChipMid(a, Serial(c, s.log[..|s.log| - 1], d), s.chips[d])
    && Moved(c, s, a, buf, n)
  }

  /** The transfer from `base` on is in flight. */
  predicate Flying(c: Config, s: State, t: nat, a: Access, buf: seq<byte>, base: nat)
    requires Sized(c, s) && LogOk(c, s.log) && |s.log| > 0 && s.log[|s.log| - 1].a == a
  {
    && base < FrameLen(a) && Aligned(c, a, base) && s.xfer.Some?
    && var x := s.xfer.value;
       && x == Xfer(t, a, base, XferLen(c, a, base), x.pos, XferMode(c, a, base))
       && x.pos <= x.len && Mid(c, s, a, buf, base + x.pos)
  }

  predicate Untouched(c: Config, s: State, a: Access)
    requires Sized(c, s) && LogOk(c, s.log) && |s.log| > 0 && s.log[|s.log| - 1].a == a
  {
    var d := a.dev;
    s.xfer == None && s.nb[d] == 1 && s.high[d] && s.chips[d] == Chip(Serial(c, s.log[..|s.log| - 1], d), [])
  }

  /** Where the holder of the bus stands, program point by program point. */
  predicate AtPc(c: Config, s: State, t: nat)
    requires Sized(c, s) && LogOk(c, s.log) && HasAccess(s, t)
    requires |s.log| > 0 && s.log[|s.log| - 1].a == Cur(s, t)
  {
    match s.tasks[t].pc
    case SetCb => Cur(s, t).noblock && s.tasks[t].done == 0 && Untouched(c, s, Cur(s, t))
    case SelectLow => s.tasks[t].done == 0 && Untouched(c, s, Cur(s, t))
    case Fill => AtFill(c, s, t)
    case TakeNb => AtTransfer(c, s, t) && XferMode(c, Cur(s, t), s.tasks[t].done) == Synced && s.nb[Cur(s, t).dev] == 1
    case Launch =>
      AtTransfer(c, s, t)
      && s.nb[Cur(s, t).dev] == (if XferMode(c, Cur(s, t), s.tasks[t].done) == Synced then 0 else 1)
    case ClearTx => s.tasks[t].done == 0 && !Cur(s, t).h.write && !Short(c, Cur(s, t)) && WaitingNb(c, s, t)
    case WaitNb => WaitingNb(c, s, t)
    case GiveNb => AtGiveNb(c, s, t)
    case WaitBlk =>
      !Cur(s, t).noblock && s.nb[Cur(s, t).dev] == 1 && Flying(c, s, t, Cur(s, t), s.tasks[t].buf, s.tasks[t].done)
    case SelectHigh => AtSelectHigh(c, s, t)
    case CopyOut => AtCopyOut(c, s, t)
    case Release =>
      s.xfer == None && QuietDev(c, s, Cur(s, t).dev)
      && (Cur(s, t).h.write || s.tasks[t].buf == Expected(c, s.log, |s.log| - 1))
    case Start => false
    case Reacquire => false
    case Test => false
    case PassOn => false
  }

  predicate AtFill(c: Config, s: State, t: nat)
    requires Sized(c, s) && LogOk(c, s.log) && HasAccess(s, t)
    requires |s.log| > 0 && s.log[|s.log| - 1].a == Cur(s, t)
  {
    var a, d := Cur(s, t), Cur(s, t).dev;
    && a.noblock && Short(c, a) && s.tasks[t].done == 0 && s.xfer == None && s.nb[d] == 1
    && !s.high[d] && s.chips[d] == Chip(Serial(c, s.log[..|s.log| - 1], d), [])
  }

  /** Ready for the transfer from `done` on. */
  predicate AtTransfer(c: Config, s: State, t: nat)
    requires Sized(c, s) && LogOk(c, s.log) && HasAccess(s, t)
    requires |s.log| > 0 && s.log[|s.log| - 1].a == Cur(s, t)
  {
    var k, a := s.tasks[t], Cur(s, t);
    k.done < FrameLen(a) && s.xfer == None && Mid(c, s, a, k.buf, k.done)
  }

  predicate AtGiveNb(c: Config, s: State, t: nat)
    requires Sized(c, s) && LogOk(c, s.log) && HasAccess(s, t)
    requires |s.log| > 0 && s.log[|s.log| - 1].a == Cur(s, t)
  {
    var k, a := s.tasks[t], Cur(s, t);
    && k.done < FrameLen(a) && XferMode(c, a, k.done) == Synced && s.xfer == None && s.nb[a.dev] == 0
    && Mid(c, s, a, k.buf, k.done + XferLen(c, a, k.done))
  }

  predicate AtSelectHigh(c: Config, s: State, t: nat)
    requires Sized(c, s) && LogOk(c, s.log) && HasAccess(s, t)
    requires |s.log| > 0 && s.log[|s.log| - 1].a == Cur(s, t)
  {
    var k, a := s.tasks[t], Cur(s, t);
    && k.done == FrameLen(a) && s.xfer == None && s.nb[a.dev] == 1 && Mid(c, s, a, k.buf, FrameLen(a))
    && (a.noblock ==> Short(c, a) && !a.h.write)
  }

  predicate AtCopyOut(c: Config, s: State, t: nat)
    requires Sized(c, s) && LogOk(c, s.log) && HasAccess(s, t)
    requires |s.log| > 0 && s.log[|s.log| - 1].a == Cur(s, t)
  {
    var a := Cur(s, t);
    && a.noblock && Short(c, a) && !a.h.write && s.xfer == None && QuietDev(c, s, a.dev)
    && s.txbufs[a.dev][HLen(a)..FrameLen(a)] == Expected(c, s.log, |s.log| - 1)
  }

  predicate WaitingNb(c: Config, s: State, t: nat)
    requires Sized(c, s) && LogOk(c, s.log) && HasAccess(s, t)
    requires |s.log| > 0 && s.log[|s.log| - 1].a == Cur(s, t)
  {
    var k, a := s.tasks[t], Cur(s, t);
    && k.done < FrameLen(a) && XferMode(c, a, k.done) == Synced
    && if s.xfer == None then s.nb[a.dev] == 1 && Mid(c, s, a, k.buf, k.done + XferLen(c, a, k.done))
       else s.nb[a.dev] == 0 && Flying(c, s, t, a, k.buf, k.done)
  }

  /** Task `t` is in the middle of the access begun last. */
  ghost function Here(c: Config, t: nat): iset<State> {
    iset s: State |
      && ValidConfig(c) && Sized(c, s) && LogOk(c, s.log) && HasAccess(s, t) && |s.log| > 0
      && s.log[|s.log| - 1] == Entry(t, Cur(s, t)) && s.tasks[t].ticket == |s.log| - 1
      && |s.tasks[t].buf| == (if Cur(s, t).h.write then 0 else Cur(s, t).len)
      && Aligned(c, Cur(s, t), s.tasks[t].done)
      && (Cur(s, t).noblock && s.tasks[t].pc != SetCb ==> s.cb == Some(Cur(s, t).dev))
      && AtPc(c, s, t)
  }

  ghost predicate DrivingOk(c: Config, s: State, t: nat)
    requires Sized(c, s) && LogOk(c, s.log)
  {
    s in Here(c, t) && OthersQuiet(c, s, Cur(s, t).dev) && OthersParked(c, s, t)
  }

  /** Only the final transfer of the last access is left; the callback will close it. */
  ghost function Afloat(c: Config): iset<State> {
    iset s: State |
      && ValidConfig(c) && Sized(c, s) && LogOk(c, s.log) && |s.log| > 0
      && s.xfer.Some? && s.xfer.value.mode == Final
      && s.log[|s.log| - 1] == Entry(s.xfer.value.t, s.xfer.value.a)
      && s.xfer.value.a.noblock && s.cb == Some(s.xfer.value.a.dev) && s.nb[s.xfer.value.a.dev] == 1
      && OthersQuiet(c, s, s.xfer.value.a.dev) && OthersParked(c, s, |s.tasks|)
      && Flying(c, s, s.xfer.value.t, s.xfer.value.a, s.tasks[s.xfer.value.t].buf, s.xfer.value.base)
      && (!s.xfer.value.a.h.write ==>
            s.tasks[s.xfer.value.t].pc == Reacquire && s.tasks[s.xfer.value.t].ticket == |s.log| - 1)
  }

  predicate AllQuiet(c: Config, s: State)
    requires Sized(c, s)
  {
    s.xfer == None && forall e :: 0 <= e < |c.mems| ==> QuietDev(c, s, e)
  }

  predicate PassingOk(c: Config, s: State, t: nat)
    requires Sized(c, s) && LogOk(c, s.log)
  {
    && AllQuiet(c, s) && OthersParked(c, s, t) && Running(s, t)
    && match s.tasks[t].prog[0]
       case WaitBus => s.tasks[t].pc == Test || s.tasks[t].pc == PassOn
       case Do(a) => s.tasks[t].pc == PassOn && ReadPending(c, s, t)
  }

  ghost predicate HoldOk(c: Config, s: State)
    requires Sized(c, s) && LogOk(c, s.log)
  {
    match s.hold
    case Free => s.spiSem == 1 && AllQuiet(c, s) && OthersParked(c, s, |s.tasks|)
    case Driving(t) => s.spiSem == 0 && DrivingOk(c, s, t)
    case Detached => s.spiSem == 0 && s in Afloat(c)
    case Passing(t) => s.spiSem == 0 && PassingOk(c, s, t)
  }

  /** The last access is between its select edges, or before them. */
  predicate Open(s: State) {
    || s.hold.Detached?
    || (s.hold.Driving? && s.hold.t < |s.tasks|
        && s.tasks[s.hold.t].pc != CopyOut && s.tasks[s.hold.t].pc != Release)
  }

  /** One select pulse carries exactly one frame. */
  predicate IsTrainOf(a: Access, train: Train) {
    train.dev == a.dev && |train.bytes| == FrameLen(a) && Carries(a, train.bytes)
  }

  predicate TrainsOk(s: State) {
    && |s.trains| == |s.log| - (if Open(s) then 1 else 0)
    && forall i :: 0 <= i < |s.trains| ==> IsTrainOf(s.log[i].a, s.trains[i])
  }

  predicate ResultOk(c: Config, log: seq<Entry>, r: Result)
    requires LogOk(c, log)
  {
    r.ticket < |log| && !log[r.ticket].a.h.write && r.buf == Expected(c, log, r.ticket)
  }

  predicate ResultsOk(c: Config, s: State)
    requires LogOk(c, s.log)
  {
    forall i :: 0 <= i < |s.results| ==> ResultOk(c, s.log, s.results[i])
  }

  /** The states every run stays within. */
  ghost function Inv(c: Config): iset<State> {
    iset s: State |
      && ValidConfig(c) && Sized(c, s) && LogOk(c, s.log)
      && HoldOk(c, s) && TrainsOk(s) && ResultsOk(c, s)
  }
}
