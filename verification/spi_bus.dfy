/** The shared SPI bus as a step system: application tasks, the DMA engine and its
    completion callback interleave over one bus semaphore, one wake-up semaphore,
    one scratch buffer and one chip select per device, and the chips themselves. */
module SpiBus {
  import opened Codec
  import opened Common

  // ------------------------------------------------------------- accesses

  /** One call of a HAL read or write. A write carries its payload, which the
      caller leaves alone until the call's transfers are over. */
  datatype RawAccess = RawAccess(dev: nat, h: Header, noblock: bool, len: nat, data: seq<byte>)

  type Access = a: RawAccess |
    && ValidHeader(a.h) && a.h.sub + a.len <= 0x7FFF
    && |a.data| == (if a.h.write then a.len else 0)
    && (a.noblock ==> a.len > 0)
    witness RawAccess(0, Header(false, 0, 0), false, 0, [])

  /** What a task does: an access, or a wait for the bus to become idle. */
  datatype Op = Do(a: Access) | WaitBus

  /** Initial chip memories, one per device, and the two sizes the HAL compares with. */
  datatype Config = Config(mems: seq<Mem>, txbufSize: nat, maxCnt: nat)

  predicate ValidConfig(c: Config) {
    c.txbufSize >= 3 && c.maxCnt >= 1
  }

  function HLen(a: Access): (n: nat)
    ensures 1 <= n <= 3
  {
    |Encode(a.h)|
  }

  function FrameLen(a: Access): nat {
    HLen(a) + a.len
  }

  /** Header, then payload; a read clocks out filler where a write has payload. */
  function Frame(a: Access): (f: seq<byte>)
    ensures |f| == FrameLen(a)
  {
    Encode(a.h) + (if a.h.write then a.data else Zeros(a.len))
  }

  function Zeros(n: nat): (z: seq<byte>)
    ensures |z| == n
  {
    seq<byte>(n, i => 0)
  }

  function DataAddr(a: Access): nat {
    Addr(a.h.reg, a.h.sub)
  }

  /** The whole frame goes through the scratch buffer in one transfer. */
  predicate Short(c: Config, a: Access) {
    FrameLen(a) < c.txbufSize && FrameLen(a) < c.maxCnt
  }

  function ChunkStep(c: Config): nat {
    if c.txbufSize > c.maxCnt then c.maxCnt else c.txbufSize
  }

  /** Length of the transfer that starts once `done` bytes of the frame are out. */
  function XferLen(c: Config, a: Access, done: nat): nat
    requires done < FrameLen(a)
  {
    if a.noblock && Short(c, a) then FrameLen(a) - done
    else if done < HLen(a) then HLen(a) - done
    else if a.h.write && !a.noblock then FrameLen(a) - done
    else if FrameLen(a) - done > ChunkStep(c) then ChunkStep(c)
    else FrameLen(a) - done
  }

  /** How the end of a transfer is noticed: the call itself blocks; the callback wakes
      the task; or the callback closes the transaction. */
  datatype Mode = Blocking | Synced | Final

  function XferMode(c: Config, a: Access, done: nat): Mode
    requires done < FrameLen(a)
  {
    if !a.noblock then Blocking
    else if Short(c, a) then (if a.h.write then Final else Synced)
    else if done + XferLen(c, a, done) < FrameLen(a) then Synced
    else Final
  }

  // ---------------------------------------------------------------- state

  /** A slave: its registers and the bytes clocked in since its select went low. */
  datatype Chip = Chip(mem: Mem, clocked: seq<byte>)

  function Feed(chip: Chip, mosi: byte): Chip {
    var mem := match Decode(chip.clocked)
      case Complete(h, n) =>
        if h.write then chip.mem[Addr(h.reg, h.sub + |chip.clocked| - n) := mosi] else chip.mem
      case Incomplete => chip.mem;
    Chip(mem, chip.clocked + [mosi])
  }

  /** The byte a chip puts on the bus next, where it drives it at all. */
  function Driven(chip: Chip): Option<byte> {
    match Decode(chip.clocked)
    case Complete(h, n) =>
      if h.write || h.sub + |chip.clocked| < n then None
      else Some(Get(chip.mem, Addr(h.reg, h.sub + |chip.clocked| - n)))
    case Incomplete => None
  }

  datatype PC =
    | Start | SetCb | SelectLow | Fill | TakeNb | Launch | ClearTx | WaitNb | GiveNb
    | WaitBlk | SelectHigh | CopyOut | Release | Reacquire | Test | PassOn

  /** `done` frame bytes of the current access are transferred; a read's result is in `buf`. */
  datatype Task = Task(prog: seq<Op>, pc: PC, done: nat, buf: seq<byte>, ticket: nat)

  /** The transfer in flight, for frame bytes [base, base+len), `pos` of them clocked. */
  datatype Xfer = Xfer(t: nat, a: Access, base: nat, len: nat, pos: nat, mode: Mode)

  // History only, read by no step: who acquired the bus for what, which byte trains
  // were clocked between select edges, and what the reads returned.
  datatype Entry = Entry(t: nat, a: Access)
  datatype Train = Train(dev: nat, bytes: seq<byte>)
  datatype Result = Result(t: nat, ticket: nat, buf: seq<byte>)
  datatype Hold = Free | Driving(t: nat) | Detached | Passing(t: nat)

  datatype State = State(
    spiSem: nat, nb: seq<nat>, high: seq<bool>, cb: Option<nat>, xfer: Option<Xfer>,
    chips: seq<Chip>, txbufs: seq<seq<byte>>, tasks: seq<Task>,
    log: seq<Entry>, trains: seq<Train>, results: seq<Result>, hold: Hold)

  predicate OpOk(c: Config, op: Op) {
    op.Do? ==> op.a.dev < |c.mems|
  }

  predicate Sized(c: Config, s: State) {
    && |s.nb| == |s.high| == |s.chips| == |s.txbufs| == |c.mems|
    && (forall d :: 0 <= d < |s.txbufs| ==> |s.txbufs[d]| == c.txbufSize)
    && (forall t :: 0 <= t < |s.tasks| ==> forall op :: op in s.tasks[t].prog ==> OpOk(c, op))
    && (s.cb.Some? ==> s.cb.value < |c.mems|)
    && (s.xfer.Some? ==> s.xfer.value.a.dev < |c.mems| && s.xfer.value.t < |s.tasks|)
  }

  function Init(c: Config, programs: seq<seq<Op>>): State {
    var n := |c.mems|;
    State(1, seq(n, i => 1), seq(n, i => true), None, None,
          seq(n, i requires 0 <= i < n => Chip(c.mems[i], [])), seq(n, i => Zeros(c.txbufSize)),
          seq(|programs|, t requires 0 <= t < |programs| => Task(programs[t], Start, 0, [], 0)),
          [], [], [], Free)
  }

  // ---------------------------------------------------------- task steps

  predicate Running(s: State, t: nat) {
    t < |s.tasks| && s.tasks[t].prog != []
  }

  predicate HasAccess(s: State, t: nat) {
    Running(s, t) && s.tasks[t].prog[0].Do? && s.tasks[t].prog[0].a.dev < |s.nb|
  }

  /** The access task `t` is in the middle of. */
  function Cur(s: State, t: nat): Access
    requires HasAccess(s, t)
  {
    s.tasks[t].prog[0].a
  }

  /** Task `t` can execute its next primitive. */
  predicate CanAdvance(c: Config, s: State, t: nat)
    requires Sized(c, s)
  {
    && Running(s, t)
    && match s.tasks[t].pc
       case Start => s.spiSem > 0
       case Reacquire => HasAccess(s, t) && s.spiSem > 0
       case Test => true
       case PassOn => true
       case TakeNb => HasAccess(s, t) && s.nb[Cur(s, t).dev] > 0
       case Launch => HasAccess(s, t) && s.xfer.None? && s.tasks[t].done < FrameLen(Cur(s, t))
       case WaitNb => HasAccess(s, t) && s.nb[Cur(s, t).dev] > 0
       case GiveNb => HasAccess(s, t) && s.tasks[t].done < FrameLen(Cur(s, t))
       case WaitBlk => HasAccess(s, t) && s.tasks[t].done < FrameLen(Cur(s, t))
                       && s.xfer.Some? && s.xfer.value.t == t && s.xfer.value.pos == s.xfer.value.len
       case CopyOut => HasAccess(s, t) && FrameLen(Cur(s, t)) <= c.txbufSize
       case SetCb => HasAccess(s, t)
       case SelectLow => HasAccess(s, t)
       case Fill => HasAccess(s, t)
       case ClearTx => HasAccess(s, t)
       case SelectHigh => HasAccess(s, t)
       case Release => HasAccess(s, t)
  }

  /** Where the transfer loop goes with `done` bytes of the frame out. */
  function LoopPc(c: Config, a: Access, done: nat): PC {
    if done >= FrameLen(a) then SelectHigh
    else if XferMode(c, a, done) == Synced then TakeNb
    else Launch
  }

  function SetTask(s: State, t: nat, k: Task): State
    requires t < |s.tasks|
  {
    s.(tasks := s.tasks[t := k])
  }

  /** Chip select of `d` falls: the chip starts a new byte train. */
  function Lower(s: State, d: nat): State
    requires d < |s.high| == |s.chips|
  {
    s.(high := s.high[d := false], chips := s.chips[d := s.chips[d].(clocked := [])])
  }

  /** Chip select of `d` rises: the train it received is over. */
  function Raise(s: State, d: nat): State
    requires d < |s.high| == |s.chips|
  {
    s.(high := s.high[d := true], chips := s.chips[d := s.chips[d].(clocked := [])],
       trains := s.trains + [Train(d, s.chips[d].clocked)])
  }

  /** The call of task `t` returns; the bus is no longer held for it. */
  function Return(s: State, t: nat): State
    requires Running(s, t)
  {
    var k := s.tasks[t];
    var r := if k.prog[0].Do? && !k.prog[0].a.h.write then [Result(t, k.ticket, k.buf)] else [];
    SetTask(s, t, k.(prog := k.prog[1..], pc := Start)).(results := s.results + r, hold := Free)
  }

  function Begin(c: Config, s: State, t: nat): State
    requires Running(s, t) && s.spiSem > 0
  {
    var k := s.tasks[t];
    match k.prog[0]
    case WaitBus => SetTask(s, t, k.(pc := Test)).(spiSem := s.spiSem - 1, hold := Passing(t))
    case Do(a) =>
      SetTask(s, t, k.(pc := if a.noblock then SetCb else SelectLow, done := 0,
                       buf := if a.h.write then [] else Zeros(a.len), ticket := |s.log|))
      .(spiSem := s.spiSem - 1, log := s.log + [Entry(t, a)], hold := Driving(t))
  }

  /** The transfer is handed to the SPI hardware; after the final one of a non-blocking
      access a write returns at once and a read waits for the bus to come free. */
  function StartXfer(c: Config, s: State, t: nat): State
    requires HasAccess(s, t) && s.tasks[t].done < FrameLen(s.tasks[t].prog[0].a)
  {
    var k := s.tasks[t];
    var a, mode := k.prog[0].a, XferMode(c, k.prog[0].a, k.done);
    var s1 := s.(xfer := Some(Xfer(t, a, k.done, XferLen(c, a, k.done), 0, mode)));
    match mode
    case Blocking => SetTask(s1, t, k.(pc := WaitBlk))
    case Synced => SetTask(s1, t, k.(pc := if !Short(c, a) && !a.h.write && k.done == 0 then ClearTx else WaitNb))
    case Final =>
      if a.h.write then SetTask(s1, t, k.(prog := k.prog[1..], pc := Start)).(hold := Detached)
      else SetTask(s1, t, k.(pc := Reacquire)).(hold := Detached)
  }

  function XferDone(c: Config, k: Task): Task
    requires k.prog != [] && k.prog[0].Do? && k.done < FrameLen(k.prog[0].a)
  {
    var done := k.done + XferLen(c, k.prog[0].a, k.done);
    k.(done := done, pc := LoopPc(c, k.prog[0].a, done))
  }

  /** Overwrite the front of the scratch buffer of `d`, as far as it reaches. */
  function Load(c: Config, s: State, d: nat, bytes: seq<byte>): State
    requires Sized(c, s) && d < |c.mems|
  {
    var n := if |bytes| <= c.txbufSize then |bytes| else c.txbufSize;
    s.(txbufs := s.txbufs[d := bytes[..n] + s.txbufs[d][n..]])
  }

  function Advance(c: Config, s: State, t: nat): State
    requires Sized(c, s) && CanAdvance(c, s, t)
  {
    var k := s.tasks[t];
    match k.pc
    case Start => Begin(c, s, t)
    case Reacquire => SetTask(s, t, k.(pc := PassOn)).(spiSem := s.spiSem - 1, hold := Passing(t))
    case Test => if s.spiSem == 0 then SetTask(s, t, k.(pc := PassOn)) else Return(s, t)
    case PassOn => Return(s, t).(spiSem := s.spiSem + 1)
    case SetCb => SetTask(s, t, k.(pc := SelectLow)).(cb := Some(Cur(s, t).dev))
    case SelectLow =>
      var a := Cur(s, t);
      Lower(SetTask(s, t, k.(pc := if a.noblock && Short(c, a) then Fill else LoopPc(c, a, 0))), a.dev)
    case Fill => Load(c, SetTask(s, t, k.(pc := LoopPc(c, Cur(s, t), 0))), Cur(s, t).dev, Frame(Cur(s, t)))
    case TakeNb =>
      var d := Cur(s, t).dev;
      SetTask(s, t, k.(pc := Launch)).(nb := s.nb[d := s.nb[d] - 1])
    case Launch => StartXfer(c, s, t)
    case ClearTx => Load(c, SetTask(s, t, k.(pc := WaitNb)), Cur(s, t).dev, Zeros(Cur(s, t).len))
    case WaitNb =>
      var d := Cur(s, t).dev;
      SetTask(s, t, k.(pc := GiveNb)).(nb := s.nb[d := s.nb[d] - 1])
    case GiveNb =>
      var d := Cur(s, t).dev;
      SetTask(s, t, XferDone(c, k)).(nb := s.nb[d := s.nb[d] + 1])
    case WaitBlk => SetTask(s, t, XferDone(c, k)).(xfer := None)
    case SelectHigh =>
      Raise(SetTask(s, t, k.(pc := if Cur(s, t).noblock then CopyOut else Release)), Cur(s, t).dev)
    case CopyOut =>
      var a := Cur(s, t);
      SetTask(s, t, k.(pc := Release, buf := s.txbufs[a.dev][HLen(a)..FrameLen(a)]))
    case Release => Return(s, t).(spiSem := s.spiSem + 1)
  }

  // ------------------------------------------------ hardware and callback

  /** The byte the DMA engine shifts out next: from the scratch buffer for a short
      access and while read data come in, else from the command or the payload. */
  function Mosi(c: Config, s: State, x: Xfer): byte
    requires Sized(c, s) && x.a.dev < |c.mems| && x.pos < x.len
  {
    var i := x.base + x.pos;
    if (x.a.noblock && Short(c, x.a)) || (!x.a.h.write && i >= HLen(x.a))
    then (if x.pos < c.txbufSize then s.txbufs[x.a.dev][x.pos] else 0)
    else if i < FrameLen(x.a) then Frame(x.a)[i] else 0
  }

  predicate OnlyLow(s: State, d: nat)
    requires d < |s.high|
  {
    forall e :: 0 <= e < |s.high| ==> (s.high[e] <==> e != d)
  }

  /** A byte can be clocked, with `miso` on the way back: what the one selected chip
      drives, anything where no chip or more than one would. */
  predicate CanClock(c: Config, s: State, miso: byte)
    requires Sized(c, s)
  {
    && s.xfer.Some? && s.xfer.value.pos < s.xfer.value.len
    && forall d :: 0 <= d < |s.chips| && OnlyLow(s, d) && Driven(s.chips[d]).Some?
         ==> miso == Driven(s.chips[d]).value
  }

  function Put(bytes: seq<byte>, i: nat, b: byte): (r: seq<byte>)
    ensures |r| == |bytes|
  {
    if i < |bytes| then bytes[i := b] else bytes
  }

  /** One byte crosses the bus: every selected chip takes it, and what comes back goes
      to the caller's buffer (read data outside the short path), to the scratch buffer
      (non-blocking otherwise) or nowhere. */
  function Clock(c: Config, s: State, miso: byte): State
    requires Sized(c, s) && CanClock(c, s, miso)
  {
    var x := s.xfer.value;
    var mosi := Mosi(c, s, x);
    var chips := seq(|s.chips|, d requires 0 <= d < |s.chips| =>
      if s.high[d] then s.chips[d] else Feed(s.chips[d], mosi));
    var s1 := s.(chips := chips, xfer := Some(x.(pos := x.pos + 1)));
    if !x.a.h.write && x.base >= HLen(x.a) then
      var k := s.tasks[x.t];
      SetTask(s1, x.t, k.(buf := Put(k.buf, x.base - HLen(x.a) + x.pos, miso)))
    else if x.a.noblock then
      s1.(txbufs := s.txbufs[x.a.dev := Put(s.txbufs[x.a.dev], x.pos, miso)])
    else s1
  }

  predicate CanComplete(c: Config, s: State)
    requires Sized(c, s)
  {
    && s.xfer.Some? && s.xfer.value.pos == s.xfer.value.len
    && s.xfer.value.mode != Blocking && s.cb.Some?
  }

  /** The completion callback. It knows only the instance registered last and its
      wake-up semaphore's count. */
  function Callback(c: Config, s: State): State
    requires Sized(c, s) && CanComplete(c, s)
  {
    var i := s.cb.value;
    if s.nb[i] == 0 then s.(xfer := None, nb := s.nb[i := 1])
    else Raise(s, i).(xfer := None, spiSem := s.spiSem + 1, hold := Free)
  }

  // ----------------------------------------------------------------- runs

  datatype Label = TaskStep(t: nat) | ClockStep(miso: byte) | CallbackStep

  predicate Enabled(c: Config, s: State, l: Label)
    requires Sized(c, s)
  {
    match l
    case TaskStep(t) => CanAdvance(c, s, t)
    case ClockStep(miso) => CanClock(c, s, miso)
    case CallbackStep => CanComplete(c, s)
  }

  function Apply(c: Config, s: State, l: Label): State
    requires Sized(c, s) && Enabled(c, s, l)
  {
    match l
    case TaskStep(t) => Advance(c, s, t)
    case ClockStep(miso) => Clock(c, s, miso)
    case CallbackStep => Callback(c, s)
  }

  ghost predicate Follows(c: Config, s: State, s': State) {
    Sized(c, s) && exists l :: Enabled(c, s, l) && s' == Apply(c, s, l)
  }

  /** `run` starts with idle tasks and makes one enabled step at a time. */
  ghost predicate IsRun(c: Config, programs: seq<seq<Op>>, run: seq<State>) {
    && |run| > 0 && run[0] == Init(c, programs)
    && forall i :: 0 < i < |run| ==> Follows(c, run[i - 1], run[i])
  }

  /** The programs name existing devices only. */
  predicate ProgramsOk(c: Config, programs: seq<seq<Op>>) {
    forall t :: 0 <= t < |programs| ==> forall op :: op in programs[t] ==> OpOk(c, op)
  }
}
