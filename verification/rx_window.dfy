/** The absolute receive window on the chip's 40-bit clock: the hardware timeout is armed
    again and again until the window's end. Times here are unbounded; the registers hold
    them modulo the clock's period. */
module RxWindow {
  import opened Runs

  const PERIOD := 0x100_0000_0000
  const HALF := 0x80_0000_0000
  /** One step of the hardware timeout, 512 cycles of the 499.2 MHz clock. */
  const UNIT := 0x1_0000

  function Clock(time: int): (r: nat)
    ensures r < PERIOD
  {
    time % PERIOD
  }

  /** The 64-bit subtraction, masked to 40 bits. */
  function Distance(from: nat, to: nat): (d: nat)
    ensures d < PERIOD
  {
    (to - from) % PERIOD
  }

  /** `calc_rx_window_timeout`. */
  function CalcTimeout(start: nat, end: nat): nat {
    var t := Distance(start, end) / UNIT;
    if t > 0x7F_FFFF then 1 else if t > 0xFFFF then 0xFFFF else t
  }

  /** What `left` clock units before the end are worth as a timeout: the whole units, at
      most 0xFFFF of them. */
  function Armed(left: nat): (t: nat)
    ensures t * UNIT <= left && t <= 0xFFFF && (t == 0xFFFF || left < (t + 1) * UNIT)
  {
    if left >= 0xFFFF * UNIT then 0xFFFF else left / UNIT
  }

  /** The clock's wrap-around is invisible within half a period. */
  lemma DistanceOfTimes(from: int, to: int)
    ensures 0 <= to - from < PERIOD ==> Distance(Clock(from), Clock(to)) == to - from
    ensures -PERIOD <= to - from < 0 ==> Distance(Clock(from), Clock(to)) == to - from + PERIOD
  {
  }

  /** What is programmed, by how far away the end is; a single unit once it has passed. */
  lemma TimeoutValue(now: int, end: int)
    requires -HALF <= end - now < HALF
    ensures CalcTimeout(Clock(now), Clock(end)) == if now > end then 1 else Armed(end - now)
  {
    DistanceOfTimes(now, end);
  }

  /** An armed timeout never passes an end that lies ahead, and falls short of it by less
      than a unit unless it is the longest there is. */
  lemma TimeoutWithinWindow(now: int, end: int)
    requires 0 <= end - now < HALF
    ensures
      var t := CalcTimeout(Clock(now), Clock(end));
      now + t * UNIT <= end && (t == 0xFFFF || end < now + (t + 1) * UNIT)
  {
    TimeoutValue(now, end);
  }

  /** Zero is programmed, which switches the hardware timeout off, exactly within the last
      unit before the end. */
  lemma DisabledIff(now: int, end: int)
    requires -HALF <= end - now < HALF
    ensures CalcTimeout(Clock(now), Clock(end)) == 0 <==> 0 <= end - now < UNIT
  {
    TimeoutValue(now, end);
  }

  /** Arms a run of expiries can take when `units` whole units remain at the first. */
  function MaxArms(units: nat): nat {
    (units + 0xFFFE) / 0xFFFF
  }

  /** How often the handler arms the timeout again when nothing is received: `left` clock
      units remain when it is armed, and `late[k]` is how late expiry `k` is served. */
  function Rearms(left: nat, late: seq<nat>): nat
    decreases |late|
  {
    if late == [] || Armed(left) == 0 then 0
    else
      var left' := left - Armed(left) * UNIT - late[0];
      if left' < 2 * UNIT then 0 else 1 + Rearms(left', late[1..])
  }

  /** The receive window in the device. */
  class Receiver {
    var absTimeout: bool
    var absEnd: nat
    var fwto: nat
    var rxOn: bool

    constructor ()
      ensures !absTimeout && fwto == 0 && !rxOn
    {
      absTimeout, absEnd, fwto, rxOn := false, 0, 0, false;
    }

    /** `dw3000_set_rx_window`, and the delayed start at `start`. */
    method Open(start: int, end: int)
      requires 0 <= end - start < HALF
      modifies this
      ensures absTimeout && absEnd == Clock(end) && rxOn && fwto == Armed(end - start)
    {
      absTimeout, absEnd := true, Clock(end);
      fwto := CalcTimeout(Clock(start), Clock(end));
      rxOn := true;
      TimeoutValue(start, end);
    }

    /** `update_rx_window_timeout`, after a frame received or sent at `time`. */
    method Update(time: int, ghost end: int)
      requires absTimeout && absEnd == Clock(end) && -HALF <= end - time < HALF
      modifies this`fwto
      ensures fwto == if end < time then 1 else Armed(end - time)
    {
      fwto := CalcTimeout(Clock(time), absEnd);
      TimeoutValue(time, end);
    }

    /** The handler's timeout branch, at `now`: armed again exactly when two whole units
        are left, closed otherwise. */
    method Expired(now: int, ghost end: int)
      requires absTimeout && absEnd == Clock(end) && -HALF <= end - now < HALF
      modifies this
      ensures absEnd == old(absEnd) && absTimeout == (now + 2 * UNIT <= end) && rxOn == absTimeout
      ensures absTimeout ==> fwto == Armed(end - now)
    {
      TimeoutValue(now, end);
      var t := CalcTimeout(Clock(now), absEnd);
      if t > 1 {
        rxOn := true;
        fwto := t;
      } else {
        absTimeout := false;
      }
      if !absTimeout {
        rxOn := false;
      }
    }
  }

  /** A window in which nothing is received: a timeout that is not switched off expires no
      earlier than it was programmed for, and `late[k]` later, within half a period, the
      handler runs. The window closes after at most 129 arms, and less than two units
      early, unless it is shorter than a unit: then no timeout is armed at all. */
  method RunOut(r: Receiver, start: int, end: int, late: seq<nat>) returns (arms: nat, now: int)
    requires 0 <= end - start < HALF && forall k :: 0 <= k < |late| ==> late[k] < HALF
    modifies r
    ensures arms == 1 + Rearms(end - start, late) && arms <= 129 && arms <= 1 + |late|
    ensures !r.absTimeout ==> end < now + 2 * UNIT && !r.rxOn
    ensures r.absTimeout && UNIT <= end - start ==> arms == 1 + |late| && now + r.fwto * UNIT <= end
    ensures |late| >= 129 ==> (r.absTimeout <==> end - start < UNIT)
  {
    r.Open(start, end);
    now, arms := start, 1;
    FirstArm(end - start);
    var k := 0;
    assert late[0..] == late;
    while k < |late| && r.absTimeout && r.fwto != 0
      invariant k <= |late| && arms <= 1 + k && (r.absTimeout ==> arms == 1 + k)
      invariant r.absTimeout ==> r.absEnd == Clock(end) && 0 <= end - now < HALF && r.fwto == Armed(end - now)
      invariant r.absTimeout ==> arms + MaxArms((end - now) / UNIT) <= 130
      invariant k == 0 ==> r.absTimeout && now == start
      invariant k > 0 ==> UNIT <= end - start && (r.absTimeout ==> now + 2 * UNIT <= end)
      invariant !r.absTimeout ==> end < now + 2 * UNIT && arms <= 129 && !r.rxOn
      invariant 1 + Rearms(end - start, late) == arms + if r.absTimeout then Rearms(end - now, late[k..]) else 0
    {
      ghost var left := end - now;
      NextExpiry(left, late, k);
      now := now + r.fwto * UNIT + late[k];
      assert end - now == left - Armed(left) * UNIT - late[k];
      r.Expired(now, end);
      assert Rearms(left, late[k..]) == if r.absTimeout then 1 + Rearms(end - now, late[k + 1..]) else 0;
      k := k + 1;
      if r.absTimeout {
        LongestArm(left, end - now);
        arms := arms + 1;
      }
    }
    if r.absTimeout {
      AnotherArm(end - now, arms);
    }
  }

  lemma NextExpiry(left: nat, late: seq<nat>, k: nat)
    requires k < |late| && Armed(left) != 0
    ensures
      var left' := left - Armed(left) * UNIT - late[k];
      Rearms(left, late[k..]) == if left' < 2 * UNIT then 0 else 1 + Rearms(left', late[k + 1..])
  {
    assert late[k..][0] == late[k] && late[k..][1..] == late[k + 1..];
  }

  lemma FirstArm(left: nat)
    requires left < HALF
    ensures MaxArms(left / UNIT) <= 129
  {
  }

  lemma AnotherArm(left: int, arms: nat)
    requires left >= 0 && arms + MaxArms(left / UNIT) <= 130 && (arms > 1 ==> left >= 2 * UNIT)
    ensures arms <= 129
  {
  }

  /** Two units left after an expiry mean that the longest timeout was armed, which took
      one of the arms there were. */
  lemma LongestArm(before: nat, left: nat)
    requires left <= before - Armed(before) * UNIT && 2 * UNIT <= left
    ensures MaxArms(left / UNIT) <= MaxArms(before / UNIT) - 1
  {
  }

  lemma {:induction false} NeverLate(k: nat, late: seq<nat>)
    requires k <= 128 <= k + |late| && forall i :: 0 <= i < |late| ==> late[i] == 0
    ensures Rearms(HALF - 1 - k * (0xFFFF * UNIT), late) == 128 - k
    decreases 128 - k
  {
    if k < 128 {
      NeverLate(k + 1, late[1..]);
    }
  }

  /** 129 is reached: the longest window, with the handler never late. */
  method LongestWindow() returns (r: Receiver, arms: nat)
    ensures arms == 129 && !r.absTimeout && fresh(r)
  {
    r := new Receiver();
    var late := seq(129, i => 0);
    NeverLate(0, late);
    var now;
    arms, now := RunOut(r, 0, HALF - 1, late);
  }

  // ------------------------------------------------- windows with frames

  /** What happens in an open window. The driver computes a timeout for one moment and the
      hardware counts from another, when the receiver was switched on (`on`): after a frame
      from its timestamp, after an expiry from the time read when it is served, in both
      cases before RXENAB; after an error from a time read after RXENAB. */
  datatype Event = Frame(at: int, on: int) | Expiry(served: int, on: int) | Error(on: int, read: int)

  /** An open or closed window: the moment the timeout was computed for, the one it counts
      from, and its value. */
  datatype Window = Window(open: bool, armed: int, from: int, fwto: nat)

  /** Frames and errors come until the timeout expires, if it is not switched off; if it
      is, it does not. */
  predicate Happens(w: Window, e: Event) {
    match e
    case Frame(at, on) => w.from <= at <= on && (w.fwto == 0 || at <= w.from + w.fwto * UNIT)
    case Expiry(served, on) => w.fwto != 0 && w.from + w.fwto * UNIT <= served <= on
    case Error(on, read) => w.from <= on <= read && (w.fwto == 0 || on <= w.from + w.fwto * UNIT)
  }

  function Rearmed(end: int, time: int): nat {
    if end < time then 1 else Armed(end - time)
  }

  /** What the driver makes of an event that happens. */
  function Serve(end: int): (Window, Event) -> Window {
    (w: Window, e: Event) =>
      if !w.open || !Happens(w, e) then w
      else
        match e
        case Frame(at, on) => Window(true, at, on, Rearmed(end, at))
        case Error(on, read) => Window(true, read, on, Rearmed(end, read))
        case Expiry(served, on) =>
          if served + 2 * UNIT <= end then Window(true, served, on, Rearmed(end, served)) else w.(open := false)
  }

  predicate InRange(end: int, e: Event) {
    match e
    case Frame(at, on) => -HALF <= end - at < HALF
    case Expiry(served, on) => -HALF <= end - served < HALF
    case Error(on, read) => -HALF <= end - read < HALF
  }

  function Opened(start: int, end: int): Window
    requires start <= end
  {
    Window(true, start, start, Armed(end - start))
  }

  /** A window with frames, errors and expiries in any order. */
  method ServeAll(r: Receiver, start: int, end: int, events: seq<Event>) returns (w: Window)
    requires 0 <= end - start < HALF && forall k :: 0 <= k < |events| ==> InRange(end, events[k])
    modifies r
    ensures w == Reached(Serve(end), Opened(start, end), events, |events|)
    ensures r.absTimeout == r.rxOn == w.open && (w.open ==> r.fwto == w.fwto)
  {
    r.Open(start, end);
    w := Window(true, start, start, r.fwto);
    for k := 0 to |events|
      invariant w == Reached(Serve(end), Opened(start, end), events, k)
      invariant r.absTimeout == r.rxOn == w.open && (w.open ==> r.fwto == w.fwto && r.absEnd == Clock(end))
    {
      if w.open && Happens(w, events[k]) {
        match events[k]
        case Frame(at, on) =>
          r.Update(at, end);
          w := Window(true, at, on, r.fwto);
        case Error(on, read) =>
          r.Update(read, end);
          w := Window(true, read, on, r.fwto);
        case Expiry(served, on) =>
          r.Expired(served, end);
          w := if r.absTimeout then Window(true, served, on, r.fwto) else w.(open := false);
      }
    }
  }

  /** The timeout is switched off exactly when it was last computed for a moment within the
      last unit before the end. Otherwise, if that moment is not past the end, it expires by
      the end, or later by no more than the receiver was switched on later. */
  lemma {:induction false} OffInLastUnit(start: int, end: int, events: seq<Event>, k: nat)
    requires start <= end && k <= |events|
    ensures var w := Reached(Serve(end), Opened(start, end), events, k);
            && (w.fwto == 0 <==> 0 <= end - w.armed < UNIT)
            && (w.armed <= end ==> w.from + w.fwto * UNIT <= end + (w.from - w.armed))
  {
    if k > 0 {
      OffInLastUnit(start, end, events, k - 1);
    }
  }

  /** The moment the driver computes a timeout for after the event. */
  function ComputedFor(e: Event): int {
    match e
    case Frame(at, on) => at
    case Expiry(served, on) => served
    case Error(on, read) => read
  }

  /** Event `j` happened while the window was open. */
  predicate HappenedAt(start: int, end: int, events: seq<Event>, j: nat)
    requires start <= end && j < |events|
  {
    var w := Reached(Serve(end), Opened(start, end), events, j);
    w.open && Happens(w, events[j])
  }

  /** Of the first `k` events, `j` is the last that happened. */
  ghost predicate LastToHappen(start: int, end: int, events: seq<Event>, j: nat, k: nat)
    requires start <= end && k <= |events|
  {
    j < k && HappenedAt(start, end, events, j) && forall m :: j < m < k ==> !HappenedAt(start, end, events, m)
  }

  ghost predicate NoneHappened(start: int, end: int, events: seq<Event>, k: nat)
    requires start <= end && k <= |events|
  {
    forall m :: 0 <= m < k ==> !HappenedAt(start, end, events, m)
  }

  /** The timeout is the one for that moment: the whole units to the end, at most 0xFFFF, and
      one unit past the end. It counts from `on`, and so ends by the end, or later by no
      more than the receiver was switched on later. */
  predicate TimeoutFor(end: int, w: Window, time: int, on: int) {
    && w.armed == time && w.from == on
    && (end < time ==> w.fwto == 1)
    && (time <= end ==> w.fwto <= 0xFFFF && on + w.fwto * UNIT <= end + (on - time)
                        && (w.fwto == 0xFFFF || end < time + (w.fwto + 1) * UNIT))
  }

  lemma ServedTimeout(end: int, w: Window, e: Event)
    requires w.open && Happens(w, e) && Serve(end)(w, e).open
    ensures TimeoutFor(end, Serve(end)(w, e), ComputedFor(e), e.on)
    ensures e.Expiry? ==> e.served + 2 * UNIT <= end
  {
  }

  lemma NothingServed(end: int, w: Window, e: Event)
    requires !(w.open && Happens(w, e))
    ensures Serve(end)(w, e) == w
  {
  }

  /** While the window is open its timeout is the one of the last event that happened ... */
  lemma {:induction false} TimeoutOfLastEvent(start: int, end: int, events: seq<Event>, j: nat, k: nat)
    requires start <= end && k <= |events| && LastToHappen(start, end, events, j, k)
    requires Reached(Serve(end), Opened(start, end), events, k).open
    ensures TimeoutFor(end, Reached(Serve(end), Opened(start, end), events, k), ComputedFor(events[j]), events[j].on)
    ensures events[j].Expiry? ==> events[j].served + 2 * UNIT <= end
    decreases k
  {
    var w := Reached(Serve(end), Opened(start, end), events, k - 1);
    if j == k - 1 {
      ServedTimeout(end, w, events[j]);
    } else {
      assert !HappenedAt(start, end, events, k - 1);
      NothingServed(end, w, events[k - 1]);
      TimeoutOfLastEvent(start, end, events, j, k - 1);
    }
  }

  /** ... and the one of its opening if nothing has happened. */
  lemma {:induction false} TimeoutOfOpening(start: int, end: int, events: seq<Event>, k: nat)
    requires start <= end && k <= |events| && NoneHappened(start, end, events, k)
    ensures Reached(Serve(end), Opened(start, end), events, k).open
    ensures TimeoutFor(end, Reached(Serve(end), Opened(start, end), events, k), start, start)
  {
    if k > 0 {
      assert !HappenedAt(start, end, events, k - 1);
      NothingServed(end, Reached(Serve(end), Opened(start, end), events, k - 1), events[k - 1]);
      TimeoutOfOpening(start, end, events, k - 1);
    }
  }

  /** From then on only another frame or error can change anything: no expiry ever closes
      the window. */
  lemma {:induction false} StaysOpen(w: Window, end: int, events: seq<Event>, k: nat)
    requires k <= |events| && w.open && w.fwto == 0 && forall j :: 0 <= j < |events| ==> events[j].Expiry?
    ensures Reached(Serve(end), w, events, k) == w
  {
    if k > 0 {
      StaysOpen(w, end, events, k - 1);
    }
  }

  /** A window is closed only by an expiry served when less than two units are left. */
  lemma {:induction false} ClosedOnlyLate(start: int, end: int, events: seq<Event>, k: nat) returns (j: nat)
    requires start <= end && k <= |events|
    requires !Reached(Serve(end), Opened(start, end), events, k).open
    ensures j < k && events[j].Expiry? && end < events[j].served + 2 * UNIT
    ensures Happens(Reached(Serve(end), Opened(start, end), events, j), events[j])
  {
    if Reached(Serve(end), Opened(start, end), events, k - 1).open {
      j := k - 1;
    } else {
      j := ClosedOnlyLate(start, end, events, k - 1);
    }
  }
}
