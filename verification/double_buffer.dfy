/** The receive buffer pair as a step system: the chip fills buffers and flags overruns
    while the interrupt handler reads a frame byte by byte, checks, toggles or recovers. */
module DoubleBuffer {
  import opened Common

  /** `id` is history: which of the frames received so far the buffer holds. */
  datatype Slot = Slot(data: seq<byte>, unread: bool, id: nat)

  datatype Snapshot = Snapshot(fcg: bool, ovrr: bool, err: bool, rxto: bool)

  datatype HandlerPc =
    | Idle | AtFrame | ReadLen | ReadBytes | AtCheck | AtToggle | AtDeliver
    | RecStop(early: bool) | RecClear(early: bool) | RecSync(early: bool) | RecEnable(early: bool)
    | AtTimeout | ErrClear | ErrStop | ErrToggle | ErrSync | ErrEnable

  /** A frame handed to `rx_complete_cb`: reported length, bytes, and, as history, which. */
  datatype Delivery = Delivery(id: nat, len: nat, bytes: seq<byte>)

  /** History, which no step reads: the frames received, those delivered without and with
      `overrun_error`, and whether a frame may be missing, because RXOVRR was flagged or a
      start of reception left a buffer unread. Frames below `floor` have been taken from
      their buffer for delivery. */
  datatype Past = Past(
    arrived: seq<seq<byte>>, clean: seq<Delivery>, flagged: seq<Delivery>, floor: nat, gap: bool)

  /** Buffers, pointers (`ic` where the chip receives next, `host` where the handler
      reads), the receiver's state and the status bits besides the buffers' own. */
  datatype Chip = Chip(
    slot0: Slot, slot1: Slot, ic: bool, host: bool,
    rxOn: bool, scribbling: bool, ovrr: bool, err: bool, rxto: bool)

  /** The handler's variables: status snapshot, `overrun_error`, frame length and bytes
      read so far; `readId` is history. */
  datatype Local = Local(snap: Snapshot, overrun: bool, len: nat, got: seq<byte>, readId: nat)

  datatype State = State(chip: Chip, h: HandlerPc, local: Local, past: Past)

  /** The receiver has just been started. */
  predicate JustStarted(s: State) {
    && !s.chip.slot0.unread && !s.chip.slot1.unread && s.chip.ic == s.chip.host
    && s.chip.rxOn && !s.chip.scribbling && !s.chip.ovrr && !s.chip.err && !s.chip.rxto
    && s.h == Idle && !s.local.overrun && s.past.floor == 0 && !s.past.gap
    && s.past.arrived == [] && s.past.clean == [] && s.past.flagged == []
  }

  function At(c: Chip, b: bool): Slot {
    if b then c.slot1 else c.slot0
  }

  function Put(c: Chip, b: bool, k: Slot): Chip {
    if b then c.(slot1 := k) else c.(slot0 := k)
  }

  /** The host pointer toggles; the buffer it leaves is free. */
  function Toggled(c: Chip): Chip {
    Put(c, c.host, At(c, c.host).(unread := false)).(host := !c.host)
  }

  function Synced(c: Chip): Chip {
    if c.ic != c.host then Toggled(c) else c
  }

  // -------------------------------------------------------------- handler

  /** Byte `i` of the buffer the host pointer selects. */
  function NextByte(c: Chip, i: nat): byte {
    var k := At(c, c.host).data;
    if i < |k| then k[i] else 0
  }

  predicate Taking(h: HandlerPc) {
    h.Idle? || h.AtFrame? || h.ReadLen? || h.ReadBytes? || h.AtCheck? || h.AtToggle? || h.AtDeliver?
  }

  predicate Recovering(h: HandlerPc) {
    h.RecStop? || h.RecClear? || h.RecSync? || h.RecEnable?
  }

  /** From the snapshot to the delivery of the frame in the host's buffer. `size`: length
      of the driver's receive buffer; `hi`: the stale high status byte reports an error. */
  function Take(size: nat, s: State, hi: bool): State
    requires Taking(s.h)
  {
    var c, l := s.chip, s.local;
    match s.h
    case Idle =>
      var snap := Snapshot(At(c, c.host).unread, c.ovrr, c.err || hi, c.rxto);
      s.(local := l.(snap := snap, overrun := c.ovrr), h := if snap.fcg then AtFrame else AtTimeout)
    case AtFrame => if l.overrun then s.(chip := c.(ovrr := false), h := RecStop(true)) else s.(h := ReadLen)
    case ReadLen =>
      s.(local := l.(len := |At(c, c.host).data|, got := [], readId := At(c, c.host).id), h := ReadBytes)
    case ReadBytes =>
      if |l.got| < Min(l.len, size) then s.(local := l.(got := l.got + [NextByte(c, |l.got|)]))
      else s.(h := AtCheck)
    case AtCheck =>
      if c.ovrr then s.(chip := c.(ovrr := false), local := l.(overrun := true), h := RecStop(false))
      else s.(local := l.(overrun := false), h := AtToggle)
    case AtToggle => s.(chip := Toggled(c), past := s.past.(floor := l.readId + 1), h := AtDeliver)
    case AtDeliver =>
      var d := Delivery(l.readId, l.len, l.got);
      s.(past := if l.overrun then s.past.(flagged := s.past.flagged + [d]) else s.past.(clean := s.past.clean + [d]),
         h := AtTimeout)
  }

  /** After an overrun: everything off, flags cleared, pointers together, on again. */
  function Recover(s: State): State
    requires Recovering(s.h)
  {
    var c := s.chip;
    match s.h
    case RecStop(early) => s.(chip := c.(rxOn := false, scribbling := false), h := RecClear(early))
    case RecClear(early) =>
      s.(chip := c.(ovrr := false, err := false, rxto := false,
                    slot0 := c.slot0.(unread := false), slot1 := c.slot1.(unread := false)),
         h := RecSync(early))
    case RecSync(early) => s.(chip := Synced(c), h := RecEnable(early))
    case RecEnable(early) => s.(chip := c.(rxOn := true), h := if early then Idle else AtDeliver)
  }

  /** The timeout and error branches. `over`: a receive timeout ends the window. */
  function Repair(s: State, over: bool): State
    requires !Taking(s.h) && !Recovering(s.h)
  {
    var c, snap := s.chip, s.local.snap;
    match s.h
    case AtTimeout =>
      var next := if snap.err || snap.ovrr then ErrClear else Idle;
      if !snap.rxto then s.(h := next)
      else if over then s.(chip := c.(rxto := false, rxOn := false, scribbling := false), h := next)
      else s.(chip := c.(rxto := false, rxOn := true), h := next)
    case ErrClear => s.(chip := c.(ovrr := false, err := false), h := ErrStop)
    case ErrStop =>
      s.(chip := c.(rxOn := false, scribbling := false), h := if s.local.overrun then ErrToggle else ErrEnable)
    case ErrToggle => s.(chip := Toggled(c), h := ErrSync)
    case ErrSync => s.(chip := Synced(c), h := ErrEnable)
    case ErrEnable => s.(chip := c.(rxOn := true), h := Idle)
  }

  function HandlerStep(size: nat, s: State, over: bool, hi: bool): State {
    if Taking(s.h) then Take(size, s, hi)
    else if Recovering(s.h) then Recover(s)
    else Repair(s, over)
  }

  // ----------------------------------------------------------------- chip

  datatype Label =
    | Handler(over: bool, hi: bool)
    /** A frame comes in well, into a free buffer. */
    | Good(data: seq<byte>, stays: bool)
    /** Part of a frame, or a bad one, is written to a free buffer. */
    | Partial(data: seq<byte>)
    /** No free buffer: RXOVRR goes up before anything is overwritten. */
    | Flag
    | Scribble(data: seq<byte>)
    | ScribbleEnds(mark: bool, stays: bool)
    | RxError
    | RxTimeout
    /** `dw3000_start_rx` between two handler runs; `trxoff`: the radio is forced to idle
        first. */
    | StartRx(trxoff: bool)
    /** The handler writes RXENAB: as soon as it has the frame's status, or after a frame
        was sent inside a receive window. */
    | Reenable

  predicate Enabled(s: State, l: Label) {
    match l
    case Handler(over, hi) => true
    case Good(data, stays) => s.chip.rxOn && !s.chip.scribbling && !At(s.chip, s.chip.ic).unread
    case Partial(data) => s.chip.rxOn && !s.chip.scribbling && !At(s.chip, s.chip.ic).unread
    case Flag => s.chip.rxOn && !s.chip.scribbling && At(s.chip, s.chip.ic).unread
    case Scribble(data) => s.chip.scribbling
    case ScribbleEnds(mark, stays) => s.chip.scribbling
    case RxError => s.chip.rxOn
    case RxTimeout => s.chip.rxOn
    case StartRx(trxoff) => s.h.Idle?
    case Reenable => s.h.ReadLen? || s.h.AtTimeout?
  }

  function Apply(size: nat, s: State, l: Label): State {
    var c := s.chip;
    match l
    case Handler(over, hi) => HandlerStep(size, s, over, hi)
    case Good(data, stays) =>
      s.(chip := Put(c, c.ic, Slot(data, true, |s.past.arrived|)).(ic := !c.ic, rxOn := stays),
         past := s.past.(arrived := s.past.arrived + [data]))
    case Partial(data) => s.(chip := Put(c, c.ic, At(c, c.ic).(data := data)))
    case Flag => s.(chip := c.(ovrr := true, scribbling := true), past := s.past.(gap := true))
    case Scribble(data) => s.(chip := Put(c, c.ic, At(c, c.ic).(data := data)))
    case ScribbleEnds(mark, stays) =>
      var k := At(c, c.ic);
      s.(chip := Put(c, c.ic, k.(unread := k.unread || mark, id := |s.past.arrived|))
                 .(ic := !c.ic, rxOn := stays, scribbling := false),
         past := s.past.(arrived := s.past.arrived + [k.data]))
    case RxError => s.(chip := c.(err := true))
    case RxTimeout => s.(chip := c.(rxto := true, rxOn := false))
    case StartRx(trxoff) =>
      s.(chip := Synced(if trxoff then c.(scribbling := false) else c).(rxOn := true),
         past := s.past.(gap := s.past.gap || c.ic != c.host))
    case Reenable => s.(chip := c.(rxOn := true))
  }

  // ------------------------------------------------------------ invariant

  function Unread(c: Chip): nat {
    (if c.slot0.unread then 1 else 0) + (if c.slot1.unread then 1 else 0)
  }

  /** The same as far as the driver reads: the length, and the bytes its buffer takes. */
  predicate LooksLike(size: nat, data: seq<byte>, frame: seq<byte>) {
    |data| == |frame| && data[..Min(|data|, size)] == frame[..Min(|frame|, size)]
  }

  /** An unread buffer holds a received frame, later than every delivered one. */
  predicate Holds(size: nat, k: Slot, past: Past) {
    k.unread ==> past.floor <= k.id < |past.arrived| && LooksLike(size, k.data, past.arrived[k.id])
  }

  /** Pointers and buffers are in step: equal pointers with both buffers free or both
      unread and the host at the older one, or the host at the only unread one. Before
      the first gap no frame is missing. */
  predicate Aligned(size: nat, c: Chip, past: Past) {
    && !c.scribbling && Holds(size, c.slot0, past) && Holds(size, c.slot1, past)
    && (if c.host == c.ic
        then At(c, c.host).unread == At(c, !c.host).unread
             && (At(c, c.host).unread ==> At(c, c.host).id < At(c, !c.host).id)
        else At(c, c.host).unread && !At(c, !c.host).unread)
    && (!past.gap ==> |past.arrived| == past.floor + Unread(c))
  }

  predicate InRecovery(h: HandlerPc) {
    Recovering(h) || h.ErrSync?
  }

  /** What the handler has read so far is the front of frame `f`. */
  predicate ReadOk(size: nat, l: Local, f: seq<byte>) {
    |l.got| <= Min(|f|, size) && l.len == |f| && l.got == f[..|l.got|]
  }

  predicate AllRead(size: nat, l: Local, f: seq<byte>) {
    ReadOk(size, l, f) && |l.got| == Min(l.len, size)
  }

  /** The delivery is the frame it claims to be, as far as the receive buffer reaches. */
  predicate Intact(size: nat, past: Past, d: Delivery) {
    && d.id < |past.arrived| && d.len == |past.arrived[d.id]|
    && d.bytes == past.arrived[d.id][..Min(d.len, size)]
  }

  /** Unmarked deliveries are whole, come in the order they were received, and none comes
      twice. */
  predicate InOrder(size: nat, past: Past) {
    && (forall k :: 0 <= k < |past.clean| ==> Intact(size, past, past.clean[k]))
    && (forall j, k :: 0 <= j < k < |past.clean| ==> past.clean[j].id < past.clean[k].id)
  }

  /** The number after that of the last delivery. */
  function NextId(ds: seq<Delivery>): nat {
    if ds == [] then 0 else ds[|ds| - 1].id + 1
  }

  /** Unmarked deliveries are in order and lie before what is still to come; before the
      first gap, none is left out. */
  predicate CleanOk(size: nat, s: State) {
    var past := s.past;
    && InOrder(size, past)
    && (forall i :: 0 <= i < |past.clean| ==> past.clean[i].id < past.floor)
    && (s.h.AtDeliver? && !s.local.overrun ==>
          forall i :: 0 <= i < |past.clean| ==> past.clean[i].id < s.local.readId)
    && ((s.h.AtDeliver? && !s.local.overrun) || past.floor == NextId(past.clean))
    && (!past.gap ==>
          past.floor == |past.clean| + (if s.h.AtDeliver? then 1 else 0) && past.flagged == [])
  }

  /** Where the handler stands between taking a frame up and delivering it, and on its
      way through recovery. */
  predicate HandlerOk(size: nat, s: State) {
    var c, l, past := s.chip, s.local, s.past;
    var mine := At(c, c.host);
    match s.h
    case Idle => true
    case AtFrame => l.overrun || c.ovrr || mine.unread
    case ReadLen => c.ovrr || mine.unread
    case ReadBytes => c.ovrr || (mine.unread && l.readId == mine.id && ReadOk(size, l, mine.data))
    case AtCheck => c.ovrr || (mine.unread && l.readId == mine.id && AllRead(size, l, mine.data))
    case AtToggle =>
      && !l.overrun && past.floor <= l.readId < |past.arrived| && AllRead(size, l, past.arrived[l.readId])
      && (if c.ovrr then At(c, !c.host).unread else mine.unread && l.readId == mine.id)
    case AtDeliver =>
      || l.overrun
      || (past.floor == l.readId + 1 && l.readId < |past.arrived| && AllRead(size, l, past.arrived[l.readId]))
    case RecStop(early) => early || l.overrun
    case RecClear(early) => Off(c) && (early || l.overrun)
    case RecSync(early) => Off(c) && !c.ovrr && Unread(c) == 0 && (early || l.overrun)
    case RecEnable(early) => Off(c) && !c.ovrr && Unread(c) == 0 && c.host == c.ic && (early || l.overrun)
    case AtTimeout => true
    case ErrClear => true
    case ErrStop => true
    case ErrToggle => Off(c) && l.overrun
    case ErrSync =>
      Off(c) && l.overrun && !At(c, !c.host).unread && (c.host == c.ic && mine.unread ==> c.ovrr)
    case ErrEnable => Off(c) && (l.overrun ==> c.host == c.ic)
  }

  predicate Off(c: Chip) {
    !c.rxOn && !c.scribbling
  }

  /** The recovery of the error branch empties the host's buffer, and the other one unless
      the chip receives next there: so in the end both are free. */
  predicate Mendable(c: Chip) {
    At(c, c.host).unread && (At(c, !c.host).unread ==> c.ic == c.host && !c.scribbling)
  }

  /** On the way to that recovery. */
  predicate Mending(s: State) {
    (s.h.ErrStop? || s.h.ErrToggle?) && s.local.overrun
  }

  /** Outside recovery the buffers are in step, or RXOVRR is up and the host's buffer is
      unread, so that the next snapshot starts recovery. */
  ghost function Buffers(size: nat): iset<State> {
    iset s: State |
      && (InRecovery(s.h) ==> s.past.gap)
      && (s.local.overrun || s.chip.ovrr || s.chip.scribbling ==> s.past.gap)
      && s.past.floor <= |s.past.arrived|
      && (!InRecovery(s.h) ==>
            || Aligned(size, s.chip, s.past)
            || (s.chip.ovrr && At(s.chip, s.chip.host).unread)
            || (Mending(s) && Mendable(s.chip)))
  }

  ghost function Handling(size: nat): iset<State> {
    iset s: State | HandlerOk(size, s)
  }

  ghost predicate InStep(size: nat, s: State) {
    s in Buffers(size) && s in Handling(size)
  }

  ghost function Delivered(size: nat): iset<State> {
    iset s: State | CleanOk(size, s)
  }

  ghost predicate Inv(size: nat, s: State) {
    InStep(size, s) && s in Delivered(size)
  }

  /** RXOVRR is cleared, and what follows does not put the buffers back in step. Without
      an overrun on record the error branch leaves them as they are; with one it empties
      both, unless both are unread and the chip is, or may get, to the other one. */
  predicate WipeHarms(size: nat, s: State) {
    if s.local.overrun then Unread(s.chip) == 2 && (s.chip.ic != s.chip.host || s.chip.scribbling)
    else !Aligned(size, s.chip, s.past)
  }

  predicate WipesHarmfully(size: nat, s: State, l: Label) {
    l.Handler? && s.h.ErrClear? && WipeHarms(size, s)
  }

  /** A start of reception, without forcing the radio to idle, brings the pointers together
      while the chip is still writing to a free buffer under an overrun: it may be about to
      go on to the other one. */
  predicate StartHarms(s: State) {
    s.chip.scribbling && s.chip.ic != s.chip.host && !At(s.chip, !s.chip.host).unread
  }

  predicate Harms(size: nat, s: State, l: Label) {
    WipesHarmfully(size, s, l) || (l.StartRx? && !l.trxoff && StartHarms(s))
  }

  // ------------------------------------------------------------ the steps

  lemma TakeUpStep(size: nat, s: State, hi: bool)
    requires InStep(size, s) && (s.h.Idle? || s.h.AtFrame? || s.h.ReadLen? || s.h.AtCheck?)
    ensures InStep(size, Take(size, s, hi))
  {
  }

  /** Steps in the handler's own variables leave the buffers as they are. */
  lemma LocalStep(size: nat, s: State, s': State)
    requires s in Buffers(size) && !InRecovery(s.h) && !InRecovery(s'.h)
    requires s'.chip == s.chip && s'.past == s.past && s'.local.overrun == s.local.overrun
    requires !Mending(s) && !Mending(s')
    ensures s' in Buffers(size)
  {
  }

  lemma ReadBytesStep(size: nat, s: State, hi: bool)
    requires InStep(size, s) && s.h.ReadBytes?
    ensures InStep(size, Take(size, s, hi))
  {
    LocalStep(size, s, Take(size, s, hi));
    if |s.local.got| < Min(s.local.len, size) {
      OneMore(size, s);
    } else {
      NoneLeft(size, s);
    }
  }

  lemma OneMore(size: nat, s: State)
    requires s in Handling(size) && s.h.ReadBytes? && |s.local.got| < Min(s.local.len, size)
    ensures s.(local := s.local.(got := s.local.got + [NextByte(s.chip, |s.local.got|)])) in Handling(size)
  {
    var k, n := At(s.chip, s.chip.host).data, |s.local.got|;
    if !s.chip.ovrr {
      assert s.local.got + [NextByte(s.chip, n)] == k[..n + 1];
    }
  }

  lemma NoneLeft(size: nat, s: State)
    requires s in Handling(size) && s.h.ReadBytes? && |s.local.got| >= Min(s.local.len, size)
    ensures s.(h := AtCheck) in Handling(size)
  {
  }

  lemma ToggleStep(size: nat, s: State, hi: bool)
    requires InStep(size, s) && s.h.AtToggle?
    ensures InStep(size, Take(size, s, hi))
  {
    if !s.chip.ovrr {
      ToggleBuffers(size, s.chip, s.past, s.local.readId);
    }
  }

  /** Leaving the older of two unread buffers, or the only one. */
  lemma ToggleBuffers(size: nat, c: Chip, past: Past, id: nat)
    requires Aligned(size, c, past) && At(c, c.host).unread && id == At(c, c.host).id
    ensures Aligned(size, Toggled(c), past.(floor := id + 1))
  {
  }

  lemma DeliverStep(size: nat, s: State, hi: bool)
    requires InStep(size, s) && s.h.AtDeliver?
    ensures InStep(size, Take(size, s, hi))
  {
  }

  lemma RecoverStep(size: nat, s: State)
    requires InStep(size, s) && Recovering(s.h)
    ensures InStep(size, Recover(s))
  {
  }

  lemma TimeoutStep(size: nat, s: State, over: bool)
    requires InStep(size, s) && s.h.AtTimeout?
    ensures InStep(size, Repair(s, over))
  {
  }

  lemma RestartStep(size: nat, s: State, over: bool)
    requires InStep(size, s) && (s.h.ErrStop? || s.h.ErrEnable?)
    ensures InStep(size, Repair(s, over))
  {
  }

  lemma RealignStep(size: nat, s: State, over: bool)
    requires InStep(size, s) && (s.h.ErrToggle? || s.h.ErrSync?)
    ensures InStep(size, Repair(s, over))
  {
  }

  lemma ClearStep(size: nat, s: State, over: bool)
    requires InStep(size, s) && s.h.ErrClear?
    ensures InStep(size, Repair(s, over)) <==> !WipeHarms(size, s)
  {
  }

  lemma HandlerInStep(size: nat, s: State, over: bool, hi: bool)
    requires InStep(size, s) && !s.h.ErrClear?
    ensures InStep(size, HandlerStep(size, s, over, hi))
  {
    match s.h
    case Idle => TakeUpStep(size, s, hi);
    case AtFrame => TakeUpStep(size, s, hi);
    case ReadLen => TakeUpStep(size, s, hi);
    case ReadBytes => ReadBytesStep(size, s, hi);
    case AtCheck => TakeUpStep(size, s, hi);
    case AtToggle => ToggleStep(size, s, hi);
    case AtDeliver => DeliverStep(size, s, hi);
    case RecStop(early) => RecoverStep(size, s);
    case RecClear(early) => RecoverStep(size, s);
    case RecSync(early) => RecoverStep(size, s);
    case RecEnable(early) => RecoverStep(size, s);
    case AtTimeout => TimeoutStep(size, s, over);
    case ErrStop => RestartStep(size, s, over);
    case ErrToggle => RealignStep(size, s, over);
    case ErrSync => RealignStep(size, s, over);
    case ErrEnable => RestartStep(size, s, over);
  }

  /** What the chip does leaves the handler where it is. */
  lemma HandlingKept(size: nat, s: State, s': State)
    requires s in Handling(size) && (s.chip.rxOn || s.chip.scribbling) && s'.h == s.h && s'.local == s.local
    requires s'.chip.host == s.chip.host && s'.chip.ovrr == s.chip.ovrr
    requires s'.past == s.past.(arrived := s'.past.arrived) && s.past.arrived <= s'.past.arrived
    requires !s.chip.ovrr && !InRecovery(s.h) && At(s.chip, s.chip.host).unread
             ==> At(s'.chip, s.chip.host) == At(s.chip, s.chip.host)
    requires At(s.chip, !s.chip.host).unread ==> At(s'.chip, !s.chip.host).unread
    ensures s' in Handling(size)
  {
  }

  lemma GoodStep(size: nat, s: State, l: Label)
    requires InStep(size, s) && Enabled(s, l) && (l.Good? || l.Partial?)
    ensures InStep(size, Apply(size, s, l))
  {
    FillBuffers(size, s, l);
    HandlingKept(size, s, Apply(size, s, l));
  }

  lemma FillBuffers(size: nat, s: State, l: Label)
    requires InStep(size, s) && Enabled(s, l) && (l.Good? || l.Partial?)
    ensures Apply(size, s, l) in Buffers(size)
  {
  }

  lemma ScribbleStep(size: nat, s: State, l: Label)
    requires InStep(size, s) && Enabled(s, l) && (l.Scribble? || l.ScribbleEnds?)
    ensures InStep(size, Apply(size, s, l))
  {
    if !s.h.ErrStop? {
      HandlingKept(size, s, Apply(size, s, l));
    }
  }

  lemma FlagStep(size: nat, s: State, l: Label)
    requires InStep(size, s) && Enabled(s, l) && l.Flag?
    ensures InStep(size, Apply(size, s, l))
  {
  }

  lemma EventStep(size: nat, s: State, l: Label)
    requires InStep(size, s) && Enabled(s, l) && (l.RxError? || l.RxTimeout?)
    ensures InStep(size, Apply(size, s, l))
  {
    HandlingKept(size, s, Apply(size, s, l));
  }

  lemma StartStep(size: nat, s: State, trxoff: bool)
    requires InStep(size, s) && s.h.Idle?
    ensures InStep(size, Apply(size, s, StartRx(trxoff))) <==> trxoff || !StartHarms(s)
  {
  }

  lemma ReenableStep(size: nat, s: State)
    requires InStep(size, s) && Enabled(s, Reenable)
    ensures InStep(size, Apply(size, s, Reenable))
  {
  }

  // ----------------------------------------------------------- deliveries

  /** Deliveries stay what they are while nothing but reception goes on. */
  lemma DeliveredKept(size: nat, s: State, s': State)
    requires s in Delivered(size) && s.past.arrived <= s'.past.arrived && (s.past.gap ==> s'.past.gap)
    requires s'.past == s.past.(arrived := s'.past.arrived, gap := s'.past.gap)
    requires if s.h.AtDeliver? then s'.h.AtDeliver? && s'.local == s.local
             else s'.h.AtDeliver? ==> s'.local.overrun && s'.past.gap
    ensures s' in Delivered(size)
  {
    forall i | 0 <= i < |s'.past.clean|
      ensures Intact(size, s'.past, s'.past.clean[i])
    {
      assert Intact(size, s.past, s.past.clean[i]);
    }
  }

  /** The frame taken up is the next one in line while no overrun has come up. */
  lemma NextInLine(size: nat, s: State)
    requires InStep(size, s) && s.h.AtToggle?
    ensures s.past.floor <= s.local.readId && (!s.past.gap ==> s.local.readId == s.past.floor)
  {
  }

  lemma ToggleDelivers(size: nat, s: State, hi: bool)
    requires Inv(size, s) && s.h.AtToggle?
    ensures Take(size, s, hi) in Delivered(size)
  {
    NextInLine(size, s);
    var s' := Take(size, s, hi);
    forall i | 0 <= i < |s'.past.clean|
      ensures Intact(size, s'.past, s'.past.clean[i])
    {
      assert Intact(size, s.past, s.past.clean[i]);
    }
  }

  lemma DeliverAppends(size: nat, s: State, hi: bool)
    requires Inv(size, s) && s.h.AtDeliver?
    ensures Take(size, s, hi) in Delivered(size)
  {
    var s' := Take(size, s, hi);
    forall i | 0 <= i < |s'.past.clean|
      ensures Intact(size, s'.past, s'.past.clean[i]) && s'.past.clean[i].id < s'.past.floor
    {
      if i < |s.past.clean| {
        assert Intact(size, s.past, s.past.clean[i]) && s'.past.clean[i] == s.past.clean[i];
      }
    }
  }

  /** No delivery is made, and none falls due but one marked with the overrun. */
  lemma HandlerLeaves(size: nat, s: State, over: bool, hi: bool, s': State)
    requires InStep(size, s) && !s.h.AtToggle? && !s.h.AtDeliver? && s' == HandlerStep(size, s, over, hi)
    ensures s'.past == s.past
    ensures s'.h.AtDeliver? ==> s'.local.overrun && s'.past.gap
  {
  }

  lemma HandlerDelivers(size: nat, s: State, over: bool, hi: bool)
    requires Inv(size, s)
    ensures HandlerStep(size, s, over, hi) in Delivered(size)
  {
    if s.h.AtToggle? {
      ToggleDelivers(size, s, hi);
    } else if s.h.AtDeliver? {
      DeliverAppends(size, s, hi);
    } else {
      HandlerLeaves(size, s, over, hi, HandlerStep(size, s, over, hi));
      DeliveredKept(size, s, HandlerStep(size, s, over, hi));
    }
  }

  lemma ChipInStep(size: nat, s: State, l: Label)
    requires InStep(size, s) && Enabled(s, l) && !l.Handler?
    ensures InStep(size, Apply(size, s, l)) <==> !Harms(size, s, l)
  {
    if l.Good? || l.Partial? {
      GoodStep(size, s, l);
    } else if l.Scribble? || l.ScribbleEnds? {
      ScribbleStep(size, s, l);
    } else if l.Flag? {
      FlagStep(size, s, l);
    } else if l.StartRx? {
      StartStep(size, s, l.trxoff);
    } else if l.Reenable? {
      ReenableStep(size, s);
    } else {
      EventStep(size, s, l);
    }
  }

  lemma ChipDelivers(size: nat, s: State, l: Label)
    requires s in Delivered(size) && Enabled(s, l) && !l.Handler?
    ensures Apply(size, s, l) in Delivered(size)
  {
    DeliveredKept(size, s, Apply(size, s, l));
  }

  /** A step keeps the invariant exactly when it neither clears an RXOVRR whose recovery is
      still needed nor starts reception into its way. */
  lemma StepInvIff(size: nat, s: State, l: Label)
    requires Inv(size, s) && Enabled(s, l)
    ensures Inv(size, Apply(size, s, l)) <==> !Harms(size, s, l)
  {
    if l.Handler? {
      HandlerDelivers(size, s, l.over, l.hi);
      if s.h.ErrClear? {
        ClearStep(size, s, l.over);
      } else {
        HandlerInStep(size, s, l.over, l.hi);
      }
    } else {
      ChipDelivers(size, s, l);
      ChipInStep(size, s, l);
    }
  }

  // ----------------------------------------------------------------- runs

  /** What the driver could check before it clears the error flags, with status register,
      pointers and `overrun_error`: RXOVRR is up, a frame waits in the host's buffer and,
      if the overrun is on record, another one in the other buffer. */
  predicate Risky(c: Chip, overrun: bool) {
    c.ovrr && At(c, c.host).unread && (overrun ==> At(c, !c.host).unread)
  }

  /** And before it starts reception without forcing the radio to idle: RXOVRR is up, the
      pointers differ and the buffer the chip is at is free. */
  predicate RiskyStart(c: Chip) {
    c.ovrr && c.ic != c.host && !At(c, !c.host).unread
  }

  /** What the checks read is the same in both states. */
  predicate SameRegisters(s: State, s': State) {
    && s'.h == s.h && s'.local.overrun == s.local.overrun
    && s'.chip.ovrr == s.chip.ovrr && s'.chip.ic == s.chip.ic && s'.chip.host == s.chip.host
    && s'.chip.slot0.unread == s.chip.slot0.unread && s'.chip.slot1.unread == s.chip.slot1.unread
  }

  /** No weaker check is safe: it holds back exactly the clears that would do harm in some
      state with these registers. */
  lemma RiskyIffMayHarm(size: nat, s: State)
    requires Inv(size, s) && s.h.ErrClear?
    ensures Risky(s.chip, s.local.overrun)
            <==> exists s' :: Inv(size, s') && SameRegisters(s, s') && WipeHarms(size, s')
  {
    if Risky(s.chip, s.local.overrun) {
      var s' := s.(chip := s.chip.(scribbling := true));
      assert Inv(size, s') && SameRegisters(s, s') && WipeHarms(size, s');
    }
    forall s' | Inv(size, s') && SameRegisters(s, s') && WipeHarms(size, s')
      ensures Risky(s.chip, s.local.overrun)
    {
      HarmIsRisky(size, s');
    }
  }

  lemma RiskyStartIffMayHarm(size: nat, s: State)
    requires Inv(size, s) && s.h.Idle?
    ensures RiskyStart(s.chip) <==> exists s' :: Inv(size, s') && SameRegisters(s, s') && StartHarms(s')
  {
    if RiskyStart(s.chip) {
      var s' := s.(chip := s.chip.(scribbling := true));
      assert Inv(size, s') && SameRegisters(s, s') && StartHarms(s');
    }
  }

  lemma HarmIsRisky(size: nat, s: State)
    requires Inv(size, s) && s.h.ErrClear? && WipeHarms(size, s)
    ensures Risky(s.chip, s.local.overrun)
  {
  }

  /** From the start of reception, one enabled step at a time; the error flags are not
      cleared, and reception is not started again, while that is risky. */
  ghost predicate IsRun(size: nat, run: seq<State>, steps: seq<Label>) {
    && |run| == |steps| + 1 && JustStarted(run[0])
    && forall i :: 0 <= i < |steps| ==> StepOk(size, run[i], steps[i], run[i + 1])
  }

  predicate StepOk(size: nat, s: State, l: Label, s': State) {
    && Enabled(s, l) && s' == Apply(size, s, l)
    && !(l.Handler? && s.h.ErrClear? && Risky(s.chip, s.local.overrun))
    && !(l.StartRx? && !l.trxoff && RiskyStart(s.chip))
  }

  lemma StartInv(size: nat, s: State)
    requires JustStarted(s)
    ensures Inv(size, s)
  {
  }

  lemma {:induction false} RunInv(size: nat, run: seq<State>, steps: seq<Label>, i: nat)
    requires IsRun(size, run, steps) && i < |run|
    ensures Inv(size, run[i])
  {
    if i == 0 {
      StartInv(size, run[0]);
    } else {
      var s, l := run[i - 1], steps[i - 1];
      RunInv(size, run, steps, i - 1);
      assert StepOk(size, s, l, run[i]);
      if WipesHarmfully(size, s, l) {
        HarmIsRisky(size, s);
      }
      StepInvIff(size, s, l);
    }
  }

  lemma DeliveredInOrder(size: nat, run: seq<State>, steps: seq<Label>, i: nat)
    requires IsRun(size, run, steps) && i < |run|
    ensures InOrder(size, run[i].past)
  {
    RunInv(size, run, steps, i);
  }

  /** As long as RXOVRR has not come up, and no start of reception has left a buffer
      unread, the pair is a queue: what is delivered is the front of what was received, and
      at most three frames are under way. */
  lemma QueueUntilOverrun(size: nat, run: seq<State>, steps: seq<Label>, i: nat)
    requires IsRun(size, run, steps) && i < |run| && !run[i].past.gap
    ensures |run[i].past.clean| <= |run[i].past.arrived| <= |run[i].past.clean| + 3 && run[i].past.flagged == []
    ensures forall k :: 0 <= k < |run[i].past.clean| ==> run[i].past.clean[k].id == k
  {
    RunInv(size, run, steps, i);
    IdsAreIndices(run[i].past.clean);
  }

  lemma {:induction false} IdsAreIndices(ds: seq<Delivery>)
    requires forall i, j :: 0 <= i < j < |ds| ==> ds[i].id < ds[j].id
    requires forall i :: 0 <= i < |ds| ==> ds[i].id < |ds|
    ensures forall k :: 0 <= k < |ds| ==> ds[k].id == k
  {
    var n := |ds| - 1;
    if n >= 0 {
      forall i | 0 <= i < n
        ensures ds[..n][i].id < n
      {
        assert ds[i].id < ds[n].id;
      }
      IdsAreIndices(ds[..n]);
      assert forall k :: 0 <= k < n ==> ds[k] == ds[..n][k];
      assert n > 0 ==> ds[n - 1].id < ds[n].id;
    }
  }

  /** The pointers tell an even number of unread buffers from an odd one, except on the
      way through a recovery and while RXOVRR announces one. */
  lemma PointersTrackParity(size: nat, run: seq<State>, steps: seq<Label>, i: nat)
    requires IsRun(size, run, steps) && i < |run|
    requires !run[i].chip.ovrr && !InRecovery(run[i].h) && !Mending(run[i])
    ensures run[i].chip.ic == run[i].chip.host <==> Unread(run[i].chip) % 2 == 0
  {
    RunInv(size, run, steps, i);
  }

  /** The receiver goes on again after an overrun with the pointers together, and after
      the two overrun branches proper with both buffers free. */
  lemma RestartsAligned(size: nat, run: seq<State>, steps: seq<Label>, i: nat)
    requires IsRun(size, run, steps) && i < |run|
    requires run[i].h.RecEnable? || (run[i].h.ErrEnable? && run[i].local.overrun)
    ensures run[i].chip.ic == run[i].chip.host && !run[i].chip.rxOn
    ensures run[i].h.RecEnable? ==> Unread(run[i].chip) == 0
  {
    RunInv(size, run, steps, i);
  }

  // -------------------------------------------------- nothing is left out

  /** The delivery of the frame that the handler has read to the end. */
  function AsRead(l: Local): Delivery {
    Delivery(l.readId, l.len, l.got)
  }

  /** The frame checked in `s` is on its way to its delivery, `late`: with the overrun that
      came up before the check. */
  predicate OnItsWay(s: State, s': State, late: bool) {
    && s'.local == s.local.(overrun := late) && s'.past.clean == s.past.clean && s'.past.flagged == s.past.flagged
    && (s'.h.AtDeliver?
        || (if late then s'.h in {RecStop(false), RecClear(false), RecSync(false), RecEnable(false)}
            else s'.h.AtToggle?))
  }

  /** It has been delivered: marked with the overrun if there was one, and else not. */
  predicate DeliveredAs(s: State, s': State, late: bool) {
    if late then s'.past.flagged == s.past.flagged + [AsRead(s.local)] && s'.past.clean == s.past.clean
    else s'.past.clean == s.past.clean + [AsRead(s.local)] && s'.past.flagged == s.past.flagged
  }

  lemma CheckStep(size: nat, s: State, l: Label)
    requires s.h.AtCheck? && l.Handler?
    ensures OnItsWay(s, Apply(size, s, l), s.chip.ovrr)
  {
  }

  lemma OthersLeaveIt(size: nat, s: State, l: Label)
    requires Enabled(s, l) && !l.Handler?
    ensures var s' := Apply(size, s, l);
            s'.h == s.h && s'.local == s.local && s'.past.clean == s.past.clean && s'.past.flagged == s.past.flagged
  {
  }

  lemma HandlerBringsIt(size: nat, s: State, s': State, l: Label, late: bool)
    requires OnItsWay(s, s', late) && l.Handler?
    ensures OnItsWay(s, Apply(size, s', l), late) || DeliveredAs(s, Apply(size, s', l), late)
  {
    if s'.h.AtDeliver? {
      assert AsRead(s'.local) == AsRead(s.local);
    }
  }

  lemma {:induction false} StillOnItsWay(size: nat, run: seq<State>, steps: seq<Label>, i: nat, j: nat)
    requires IsRun(size, run, steps) && i < j < |run| && run[i].h.AtCheck? && steps[i].Handler?
    ensures OnItsWay(run[i], run[j], run[i].chip.ovrr)
            || exists k :: i < k <= j && DeliveredAs(run[i], run[k], run[i].chip.ovrr)
  {
    var s, l := run[j - 1], steps[j - 1];
    assert StepOk(size, s, l, run[j]);
    if j - 1 == i {
      CheckStep(size, s, l);
    } else {
      StillOnItsWay(size, run, steps, i, j - 1);
      if OnItsWay(run[i], s, run[i].chip.ovrr) {
        if l.Handler? {
          HandlerBringsIt(size, run[i], s, l, run[i].chip.ovrr);
        } else {
          OthersLeaveIt(size, s, l);
        }
      }
    }
  }

  /** Over every run a frame that the handler has read and checked is delivered before that
      handler run ends, marked exactly if the check found RXOVRR. */
  lemma CheckedIsDelivered(size: nat, run: seq<State>, steps: seq<Label>, i: nat, j: nat)
    requires IsRun(size, run, steps) && i < j < |run| && run[i].h.AtCheck? && steps[i].Handler? && run[j].h.Idle?
    ensures exists k :: i < k <= j && DeliveredAs(run[i], run[k], run[i].chip.ovrr)
  {
    StillOnItsWay(size, run, steps, i, j);
  }
}
