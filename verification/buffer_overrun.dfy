/** What becomes of the deliveries after the error branch has wiped an overrun. */
module BufferOverrun {
  import opened Common
  import opened DoubleBuffer
  import Runs

  /** Steps of chip and driver, none of which does harm itself. */
  function Next(size: nat): (State, Label) -> Option<State> {
    (s: State, l: Label) => if Enabled(s, l) && !Harms(size, s, l) then Some(Apply(size, s, l)) else None
  }

  ghost predicate Leads(size: nat, s: State, t: State) {
    exists steps :: Runs.RunOf(Next(size), s, steps) == Some(t)
  }

  lemma Stays(size: nat, s: State)
    ensures Leads(size, s, s)
  {
    assert Runs.RunOf(Next(size), s, []) == Some(s);
  }

  lemma Steps(size: nat, s: State, l: Label)
    requires Enabled(s, l) && !Harms(size, s, l)
    ensures Leads(size, s, Apply(size, s, l))
  {
    Runs.OneStep(Next(size), s, l, Apply(size, s, l));
  }

  lemma Chained(size: nat, s: State, t: State, u: State)
    requires Leads(size, s, t) && Leads(size, t, u)
    ensures Leads(size, s, u)
  {
    var a :| Runs.RunOf(Next(size), s, a) == Some(t);
    var b :| Runs.RunOf(Next(size), t, b) == Some(u);
    Runs.Then(Next(size), s, a, t, b, u);
  }

  /** One more step of the handler on the way to `t`. */
  lemma HandlerLeads(size: nat, s: State, over: bool, t: State)
    requires !(s.h.ErrClear? && WipeHarms(size, s)) && Leads(size, HandlerStep(size, s, over, false), t)
    ensures Leads(size, s, t)
  {
    Steps(size, s, Handler(over, false));
    Chained(size, s, HandlerStep(size, s, over, false), t);
  }

  lemma {:induction false} RunKeepsInv(size: nat, s: State, steps: seq<Label>)
    requires Inv(size, s) && Runs.RunOf(Next(size), s, steps).Some?
    ensures Inv(size, Runs.RunOf(Next(size), s, steps).value)
    decreases |steps|
  {
    if steps != [] {
      StepInvIff(size, s, steps[0]);
      RunKeepsInv(size, Apply(size, s, steps[0]), steps[1..]);
    }
  }

  lemma LeadsKeepsInv(size: nat, s: State, t: State)
    requires Inv(size, s) && Leads(size, s, t)
    ensures Inv(size, t)
  {
    var steps :| Runs.RunOf(Next(size), s, steps) == Some(t);
    RunKeepsInv(size, s, steps);
  }

  // ------------------------------------------------- one frame is delivered

  /** Between two handler runs, the receiver on and no error on record. */
  predicate Quiet(s: State) {
    s.h.Idle? && s.chip.rxOn && !s.chip.scribbling && !s.chip.ovrr && !s.chip.err
  }

  function Mine(s: State): Slot {
    At(s.chip, s.chip.host)
  }

  function Other(s: State): Slot {
    At(s.chip, !s.chip.host)
  }

  /** What delivering the host's frame reports. */
  function Report(size: nat, k: Slot): Delivery {
    Delivery(k.id, |k.data|, k.data[..Min(|k.data|, size)])
  }

  /** A handler run that meets a good frame and nothing else. */
  function Served(size: nat, s: State): State {
    var k := Mine(s);
    State(Toggled(s.chip).(rxto := false), Idle,
          Local(Snapshot(true, false, false, s.chip.rxto), false, |k.data|, k.data[..Min(|k.data|, size)], k.id),
          s.past.(floor := k.id + 1, clean := s.past.clean + [Report(size, k)]))
  }

  /** The frame is taken up and `n` of its bytes are read. */
  function Reading(s: State, n: nat): State
    requires n <= |Mine(s).data|
  {
    var k := Mine(s);
    s.(h := ReadBytes, local := Local(Snapshot(true, false, false, s.chip.rxto), false, |k.data|, k.data[..n], k.id))
  }

  lemma {:induction false} ReadsOn(size: nat, s: State, n: nat)
    requires Quiet(s) && Mine(s).unread && n <= Min(|Mine(s).data|, size)
    ensures Leads(size, Reading(s, n), Served(size, s))
    decreases |Mine(s).data| - n
  {
    var k := Mine(s).data;
    if n < Min(|k|, size) {
      ReadsOn(size, s, n + 1);
      assert k[..n] + [k[n]] == k[..n + 1];
      HandlerLeads(size, Reading(s, n), false, Served(size, s));
    } else {
      HandsOver(size, s);
      HandlerLeads(size, Reading(s, n), false, Served(size, s));
    }
  }

  lemma HandsOver(size: nat, s: State)
    requires Quiet(s) && Mine(s).unread
    ensures Leads(size, Reading(s, Min(|Mine(s).data|, size)).(h := AtCheck), Served(size, s))
  {
    var t := Served(size, s);
    var checked := Reading(s, Min(|Mine(s).data|, size)).(h := AtToggle);
    var left := checked.(chip := Toggled(s.chip), past := s.past.(floor := Mine(s).id + 1), h := AtDeliver);
    Stays(size, t);
    HandlerLeads(size, left.(past := t.past, h := AtTimeout), false, t);
    HandlerLeads(size, left, false, t);
    HandlerLeads(size, checked, false, t);
    HandlerLeads(size, checked.(h := AtCheck), false, t);
  }

  lemma Serves(size: nat, s: State)
    requires Quiet(s) && Mine(s).unread
    ensures Leads(size, s, Served(size, s))
  {
    var t := Served(size, s);
    var snap := Snapshot(true, false, false, s.chip.rxto);
    var seen := s.(local := s.local.(snap := snap, overrun := false), h := AtFrame);
    ReadsOn(size, s, 0);
    assert Mine(s).data[..0] == [];
    HandlerLeads(size, seen.(h := ReadLen), false, t);
    HandlerLeads(size, seen, false, t);
    HandlerLeads(size, s, false, t);
  }

  // ---------------------------------------------- buffers out of step spoil

  ghost predicate CanSpoil(size: nat, s: State) {
    exists end :: Leads(size, s, end) && !InOrder(size, end.past)
  }

  lemma SpoilsLater(size: nat, s: State, t: State)
    requires Leads(size, s, t) && CanSpoil(size, t)
    ensures CanSpoil(size, s)
  {
    var end :| Leads(size, t, end) && !InOrder(size, end.past);
    Chained(size, s, t, end);
  }

  /** A frame delivered out of place, or not as it was received, stays that. */
  lemma SpoiltAt(size: nat, past: Past, i: nat)
    requires i + 1 < |past.clean| && past.clean[i].id >= past.clean[i + 1].id
    ensures !InOrder(size, past)
  {
  }

  /** What a delivery of the host's frame shows about it. */
  lemma ServedInOrder(size: nat, s: State)
    requires s.past.floor == NextId(s.past.clean) && InOrder(size, Served(size, s).past)
    ensures Holds(size, Mine(s), s.past)
  {
    var ds, k := Served(size, s).past.clean, Mine(s);
    var n := |ds| - 1;
    assert ds[n] == Report(size, k) && Intact(size, s.past, ds[n]);
    if n > 0 {
      assert ds[n - 1] == s.past.clean[n - 1] && ds[n - 1].id < ds[n].id;
    }
  }

  const FRAME := Good([], true)

  /** With both buffers free and the pointers apart the next two frames come in the wrong
      order. */
  lemma ApartSpoils(size: nat, s: State)
    requires Quiet(s) && s.chip.ic != s.chip.host && Unread(s.chip) == 0
    ensures CanSpoil(size, s)
  {
    var n := |s.past.arrived|;
    var one := Apply(size, s, FRAME);
    var two := Apply(size, one, FRAME);
    Steps(size, s, FRAME);
    Steps(size, one, FRAME);
    Chained(size, s, one, two);
    assert Mine(two) == Slot([], true, n + 1) && Other(two) == Slot([], true, n);
    var three := Served(size, two);
    Serves(size, two);
    Chained(size, s, two, three);
    assert Mine(three) == Slot([], true, n);
    var four := Served(size, three);
    Serves(size, three);
    Chained(size, s, three, four);
    SpoiltAt(size, four.past, |s.past.clean|);
  }

  lemma EqualSpoils(size: nat, s: State)
    requires Quiet(s) && s.chip.ic == s.chip.host && Mine(s).unread && !Other(s).unread
    ensures CanSpoil(size, s)
  {
    Serves(size, s);
    ApartSpoils(size, Served(size, s));
    SpoilsLater(size, s, Served(size, s));
  }

  lemma CrossedSpoils(size: nat, s: State)
    requires Quiet(s) && s.chip.ic != s.chip.host && Unread(s.chip) == 2
    ensures CanSpoil(size, s)
  {
    Serves(size, s);
    EqualSpoils(size, Served(size, s));
    SpoilsLater(size, s, Served(size, s));
  }

  /** The host's frame alone is not what it should be. */
  lemma WrongFrameSpoils(size: nat, s: State)
    requires Quiet(s) && Mine(s).unread && s.past.floor == NextId(s.past.clean) && !Holds(size, Mine(s), s.past)
    ensures CanSpoil(size, s)
  {
    Serves(size, s);
    if InOrder(size, Served(size, s).past) {
      ServedInOrder(size, s);
    }
  }

  lemma BothSpoil(size: nat, s: State)
    requires Quiet(s) && Unread(s.chip) == 2 && s.past.floor == NextId(s.past.clean) && Holds(size, Mine(s), s.past)
    requires !Holds(size, Other(s), s.past) || Mine(s).id >= Other(s).id
    ensures CanSpoil(size, s)
  {
    var one := Served(size, s);
    Serves(size, s);
    assert Mine(one) == Other(s);
    WrongFrameSpoils(size, one);
    SpoilsLater(size, s, one);
  }

  lemma OutOfStepSpoils(size: nat, s: State)
    requires Quiet(s) && Mine(s).unread && s.past.gap && s.past.floor == NextId(s.past.clean)
    requires !Aligned(size, s.chip, s.past)
    ensures CanSpoil(size, s)
  {
    if !Holds(size, Mine(s), s.past) {
      WrongFrameSpoils(size, s);
    } else if s.chip.ic == s.chip.host {
      if Other(s).unread {
        BothSpoil(size, s);
      } else {
        EqualSpoils(size, s);
      }
    } else if Other(s).unread {
      CrossedSpoils(size, s);
    }
  }

  // ------------------------------------------------------ after the wipe

  lemma RestartLeads(size: nat, s: State)
    requires s.h.ErrStop? && !s.local.overrun
    ensures Leads(size, s, s.(chip := s.chip.(rxOn := true, scribbling := false), h := Idle))
  {
    var t := s.(chip := s.chip.(rxOn := true, scribbling := false), h := Idle);
    Stays(size, t);
    HandlerLeads(size, t.(chip := t.chip.(rxOn := false), h := ErrEnable), false, t);
    HandlerLeads(size, s, false, t);
  }

  lemma RestartSpoils(size: nat, s: State)
    requires s.h.ErrStop? && !s.local.overrun && !s.chip.ovrr && !s.chip.err
    requires Mine(s).unread && s.past.gap && s.past.floor == NextId(s.past.clean)
    requires !Aligned(size, s.chip.(scribbling := false), s.past)
    ensures CanSpoil(size, s)
  {
    var t := s.(chip := s.chip.(rxOn := true, scribbling := false), h := Idle);
    RestartLeads(size, s);
    OutOfStepSpoils(size, t);
    SpoilsLater(size, s, t);
  }

  /** The chip may still be writing: into the host's buffer, or its pointer is about to
      move to the host's side. */
  lemma ScribbledSpoils(size: nat, s: State)
    requires s.h.ErrStop? && !s.local.overrun && !s.chip.ovrr && !s.chip.err && s.chip.scribbling
    requires Mine(s).unread && s.past.gap && s.past.floor == NextId(s.past.clean)
    ensures CanSpoil(size, s)
  {
    var k := Mine(s);
    var l :=
      if s.chip.ic != s.chip.host then ScribbleEnds(false, true)
      else if k.id < |s.past.arrived| && s.past.arrived[k.id] == [] then Scribble([0])
      else Scribble([]);
    if s.chip.ic != s.chip.host && Other(s).unread {
      RestartSpoils(size, s);
    } else {
      Steps(size, s, l);
      RestartSpoils(size, Apply(size, s, l));
      SpoilsLater(size, s, Apply(size, s, l));
    }
  }

  /** With the overrun on record the branch empties only the host's buffer when the chip
      is at the other one. */
  lemma RealignSpoils(size: nat, s: State)
    requires s.h.ErrStop? && s.local.overrun && !s.chip.ovrr && !s.chip.err
    requires Unread(s.chip) == 2 && s.chip.ic != s.chip.host
    ensures CanSpoil(size, s)
  {
    var off := s.(chip := Toggled(s.chip.(rxOn := false, scribbling := false)), h := ErrEnable);
    var t := off.(chip := off.chip.(rxOn := true), h := Idle);
    Stays(size, t);
    HandlerLeads(size, off, false, t);
    HandlerLeads(size, off.(h := ErrSync), false, t);
    HandlerLeads(size, s.(chip := s.chip.(rxOn := false, scribbling := false), h := ErrToggle), false, t);
    HandlerLeads(size, s, false, t);
    EqualSpoils(size, t);
    SpoilsLater(size, s, t);
  }

  lemma HarmSpoils(size: nat, s: State, over: bool, hi: bool)
    requires Inv(size, s) && s.h.ErrClear? && WipeHarms(size, s)
    ensures CanSpoil(size, HandlerStep(size, s, over, hi))
  {
    var t := HandlerStep(size, s, over, hi);
    HarmIsRisky(size, s);
    if !s.local.overrun {
      if s.chip.scribbling {
        ScribbledSpoils(size, t);
      } else {
        RestartSpoils(size, t);
      }
    } else if s.chip.ic != s.chip.host {
      RealignSpoils(size, t);
    } else {
      var u := Apply(size, t, ScribbleEnds(true, true));
      Steps(size, t, ScribbleEnds(true, true));
      RealignSpoils(size, u);
      SpoilsLater(size, t, u);
    }
  }

  /** The condition is exact: after a wipe that harms some continuation, without any
      further one, delivers unmarked frames out of order or not as they were received;
      after any other wipe none does. */
  lemma WipeSpoilsIff(size: nat, s: State, over: bool, hi: bool)
    requires Inv(size, s) && s.h.ErrClear?
    ensures (exists end :: Leads(size, HandlerStep(size, s, over, hi), end) && !InOrder(size, end.past))
            <==> WipeHarms(size, s)
  {
    if WipeHarms(size, s) {
      HarmSpoils(size, s, over, hi);
    } else {
      StepInvIff(size, s, Handler(over, hi));
      forall end | Leads(size, HandlerStep(size, s, over, hi), end)
        ensures InOrder(size, end.past)
      {
        LeadsKeepsInv(size, HandlerStep(size, s, over, hi), end);
      }
    }
  }

  lemma FlagHarms(size: nat, s: State)
    requires s.h.ErrClear? && Enabled(s, Flag) && (s.local.overrun ==> Unread(s.chip) == 2)
    ensures WipeHarms(size, Apply(size, s, Flag))
  {
  }

  lemma FrameThenFlag(size: nat, s: State)
    requires s.h.ErrClear? && !s.local.overrun && Enabled(s, FRAME) && Mine(s).unread && s.chip.rxOn
    ensures Enabled(Apply(size, s, FRAME), Flag) && Apply(size, s, FRAME).h.ErrClear?
    ensures !Apply(size, s, FRAME).local.overrun
  {
  }

  /** The same for starts of reception. */
  lemma StartSpoilsIff(size: nat, s: State, trxoff: bool)
    requires Inv(size, s) && s.h.Idle?
    ensures (exists end :: Leads(size, Apply(size, s, StartRx(trxoff)), end) && !InOrder(size, end.past))
            <==> !trxoff && StartHarms(s)
  {
    var t := Apply(size, s, StartRx(trxoff));
    if !trxoff && StartHarms(s) {
      StartedSpoils(size, t);
    } else {
      StepInvIff(size, s, StartRx(trxoff));
      forall end | Leads(size, t, end)
        ensures InOrder(size, end.past)
      {
        LeadsKeepsInv(size, t, end);
      }
    }
  }

  /** The chip goes on to the other buffer after all; the next handler run repairs that,
      but two frames come in before it has switched the receiver off. */
  lemma StartedSpoils(size: nat, s: State)
    requires s.h.Idle? && s.chip.rxOn && s.chip.scribbling && s.chip.ovrr
    requires s.chip.ic == s.chip.host && Unread(s.chip) == 0
    ensures CanSpoil(size, s)
  {
    var t := Apply(size, s, ScribbleEnds(false, true));
    Steps(size, s, ScribbleEnds(false, true));
    ApartUnderOverrun(size, t);
    SpoilsLater(size, s, t);
  }

  lemma ApartUnderOverrun(size: nat, s: State)
    requires s.h.Idle? && s.chip.rxOn && !s.chip.scribbling && s.chip.ovrr
    requires s.chip.ic != s.chip.host && Unread(s.chip) == 0
    ensures CanSpoil(size, s)
  {
    var seen := HandlerStep(size, s, false, false);
    Steps(size, s, Handler(false, false));
    var due := HandlerStep(size, seen, false, false);
    Steps(size, seen, Handler(false, false));
    Chained(size, s, seen, due);
    var wiped := HandlerStep(size, due, false, false);
    Steps(size, due, Handler(false, false));
    Chained(size, s, due, wiped);
    TwoMoreSpoil(size, wiped);
    SpoilsLater(size, s, wiped);
  }

  lemma TwoMoreSpoil(size: nat, s: State)
    requires s.h.ErrStop? && s.local.overrun && s.chip.rxOn && !s.chip.scribbling && !s.chip.ovrr && !s.chip.err
    requires s.chip.ic != s.chip.host && Unread(s.chip) == 0
    ensures CanSpoil(size, s)
  {
    var one := Apply(size, s, FRAME);
    Steps(size, s, FRAME);
    var two := Apply(size, one, FRAME);
    Steps(size, one, FRAME);
    Chained(size, s, one, two);
    RealignSpoils(size, two);
    SpoilsLater(size, s, two);
  }

  /** The check is not overcautious: while the receiver is on, the chip alone can turn a
      risky clear into one that harms. */
  lemma RiskyCanHarm(size: nat, s: State)
    requires Inv(size, s) && s.h.ErrClear? && Risky(s.chip, s.local.overrun) && s.chip.rxOn
    ensures exists steps, t :: Runs.RunOf(Next(size), s, steps) == Some(t) && ByChip(steps) && WipeHarms(size, t)
  {
    if WipeHarms(size, s) {
      assert Runs.RunOf(Next(size), s, []) == Some(s) && ByChip([]);
    } else if At(s.chip, s.chip.ic).unread {
      FlagHarms(size, s);
      Runs.OneStep(Next(size), s, Flag, Apply(size, s, Flag));
      assert ByChip([Flag]);
    } else {
      var t := Apply(size, s, FRAME);
      FrameThenFlag(size, s);
      FlagHarms(size, t);
      Runs.TwoSteps(Next(size), s, FRAME, t, Flag, Apply(size, t, Flag));
      assert ByChip([FRAME, Flag]);
    }
  }

  predicate ByChip(steps: seq<Label>) {
    forall l :: l in steps ==> !l.Handler?
  }

  // ------------------------------------------------------------- witness

  /** The first frame is read; `hi`: from a snapshot that also reports a receive error. */
  lemma TakenUp(size: nat, s: State, hi: bool) returns (t: State)
    requires JustStarted(s)
    ensures Leads(size, s, t) && t.h.AtCheck? && t.local.snap == Snapshot(true, false, hi, false)
    ensures t.chip.rxOn && !t.chip.scribbling && !t.chip.ovrr && t.chip.ic != t.chip.host
    ensures Mine(t).unread && !Other(t).unread && !t.local.overrun
  {
    var one := Apply(size, s, FRAME);
    Steps(size, s, FRAME);
    var seen := HandlerStep(size, one, false, hi);
    Steps(size, one, Handler(false, hi));
    Chained(size, s, one, seen);
    var empty := Local(Snapshot(true, false, hi, false), false, 0, [], 0);
    t := seen.(h := AtCheck, local := empty);
    Stays(size, t);
    HandlerLeads(size, t.(h := ReadBytes), false, t);
    HandlerLeads(size, seen.(h := ReadLen), false, t);
    HandlerLeads(size, seen, false, t);
    Chained(size, s, seen, t);
  }

  /** The receiver runs over just after the driver has looked for that. */
  lemma LateOverrun(size: nat, s: State) returns (t: State)
    requires s.h.AtCheck? && s.local.snap == Snapshot(true, false, true, false)
    requires s.chip.rxOn && !s.chip.scribbling && !s.chip.ovrr && s.chip.ic != s.chip.host
    requires Mine(s).unread && !Other(s).unread
    ensures Leads(size, s, t) && t.h.ErrClear? && !t.local.overrun && WipeHarms(size, t)
  {
    var full := Apply(size, s, FRAME);
    Steps(size, s, FRAME);
    var checked := full.(h := AtToggle, local := full.local.(overrun := false));
    Steps(size, full, Handler(false, false));
    Chained(size, s, full, checked);
    var over := RunsOver(size, checked);
    Chained(size, s, checked, over);
    t := LeavesTheRest(size, over);
    Chained(size, s, over, t);
  }

  lemma RunsOver(size: nat, s: State) returns (t: State)
    requires s.h.AtToggle? && s.chip.rxOn && !s.chip.scribbling && s.chip.ic == s.chip.host && Unread(s.chip) == 2
    ensures Leads(size, s, t) && t.h == s.h && t.local == s.local
    ensures Unread(t.chip) == 2 && t.chip.ic != t.chip.host
  {
    var flagged := Apply(size, s, Flag);
    Steps(size, s, Flag);
    t := Apply(size, flagged, ScribbleEnds(true, true));
    Steps(size, flagged, ScribbleEnds(true, true));
    Chained(size, s, flagged, t);
  }

  lemma LeavesTheRest(size: nat, s: State) returns (t: State)
    requires s.h.AtToggle? && s.local.snap == Snapshot(true, false, true, false) && !s.local.overrun
    requires Unread(s.chip) == 2 && s.chip.ic != s.chip.host
    ensures Leads(size, s, t) && t.h.ErrClear? && !t.local.overrun && WipeHarms(size, t)
  {
    var left := HandlerStep(size, s, false, false);
    var done := HandlerStep(size, left, false, false);
    t := done.(h := ErrClear);
    Stays(size, t);
    HandlerLeads(size, done, false, t);
    HandlerLeads(size, left, false, t);
    HandlerLeads(size, s, false, t);
  }

  /** The driver recovers from an overrun; before it is done the chip runs over again. */
  lemma SecondOverrun(size: nat, s: State) returns (t: State)
    requires s.h.AtCheck? && s.local.snap == Snapshot(true, false, true, false)
    requires s.chip.rxOn && !s.chip.scribbling && !s.chip.ovrr && s.chip.ic != s.chip.host
    requires Mine(s).unread && !Other(s).unread
    ensures Leads(size, s, t) && t.h.ErrClear? && t.local.overrun && WipeHarms(size, t)
  {
    var full := Apply(size, s, FRAME);
    Steps(size, s, FRAME);
    var flagged := Apply(size, full, Flag);
    Steps(size, full, Flag);
    Chained(size, s, full, flagged);
    var again := Recovered(size, flagged);
    Chained(size, s, flagged, again);
    t := RunsOverAgain(size, again);
    Chained(size, s, again, t);
  }

  lemma RunsOverAgain(size: nat, s: State) returns (t: State)
    requires s.h.AtDeliver? && s.local.snap == Snapshot(true, false, true, false) && s.local.overrun
    requires s.chip.rxOn && !s.chip.scribbling && s.chip.ic == s.chip.host && Unread(s.chip) == 0
    ensures Leads(size, s, t) && t.h.ErrClear? && t.local.overrun && WipeHarms(size, t)
  {
    var one := Apply(size, s, FRAME);
    Steps(size, s, FRAME);
    var two := Apply(size, one, FRAME);
    Steps(size, one, FRAME);
    Chained(size, s, one, two);
    var three := Apply(size, two, Flag);
    Steps(size, two, Flag);
    Chained(size, s, two, three);
    t := MarksTheFrame(size, three);
    Chained(size, s, three, t);
  }

  lemma MarksTheFrame(size: nat, s: State) returns (t: State)
    requires s.h.AtDeliver? && s.local.snap == Snapshot(true, false, true, false) && s.local.overrun
    ensures Leads(size, s, t) && t.h.ErrClear? && t.local == s.local && t.chip == s.chip
  {
    var done := HandlerStep(size, s, false, false);
    t := done.(h := ErrClear);
    Stays(size, t);
    HandlerLeads(size, done, false, t);
    HandlerLeads(size, s, false, t);
  }

  lemma Recovered(size: nat, s: State) returns (t: State)
    requires s.h.AtCheck? && s.chip.ovrr
    ensures Leads(size, s, t) && t.h.AtDeliver? && t.local == s.local.(overrun := true)
    ensures t.chip.rxOn && !t.chip.scribbling && !t.chip.ovrr && t.chip.ic == t.chip.host && Unread(t.chip) == 0
  {
    var stop := s.(chip := s.chip.(ovrr := false), local := s.local.(overrun := true), h := RecStop(false));
    var clear := stop.(chip := stop.chip.(rxOn := false, scribbling := false), h := RecClear(false));
    t := Restarted(size, clear);
    HandlerLeads(size, stop, false, t);
    HandlerLeads(size, s, false, t);
  }

  lemma Restarted(size: nat, s: State) returns (t: State)
    requires s.h == RecClear(false) && !s.chip.scribbling
    ensures Leads(size, s, t) && t.h.AtDeliver? && t.local == s.local
    ensures t.chip.rxOn && !t.chip.scribbling && !t.chip.ovrr && t.chip.ic == t.chip.host && Unread(t.chip) == 0
  {
    var c := s.chip.(ovrr := false, err := false, rxto := false,
                     slot0 := s.chip.slot0.(unread := false), slot1 := s.chip.slot1.(unread := false));
    var enable := s.(chip := Synced(c), h := RecEnable(false));
    t := s.(chip := Synced(c).(rxOn := true), h := AtDeliver);
    Stays(size, t);
    HandlerLeads(size, enable, false, t);
    HandlerLeads(size, s.(chip := c, h := RecSync(false)), false, t);
    HandlerLeads(size, s, false, t);
  }

  /** Wipes that harm do occur, whether or not the overrun is on record, and the
      deliveries after them go wrong. */
  lemma OverrunReorders(size: nat, s: State, onRecord: bool)
    requires JustStarted(s)
    ensures exists t, end ::
      && Leads(size, s, t) && t.h.ErrClear? && t.local.overrun == onRecord
      && Leads(size, HandlerStep(size, t, false, false), end) && !InOrder(size, end.past)
  {
    var u := TakenUp(size, s, true);
    var t;
    if onRecord {
      t := SecondOverrun(size, u);
    } else {
      t := LateOverrun(size, u);
    }
    Chained(size, s, u, t);
    StartInv(size, s);
    LeadsKeepsInv(size, s, t);
    WipeSpoilsIff(size, t, false, false);
  }

  /** The chip runs over between the driver's look and its leaving the buffer. */
  lemma LeftUnderOverrun(size: nat, s: State) returns (t: State)
    requires s.h.AtCheck? && s.local.snap == Snapshot(true, false, false, false)
    requires s.chip.rxOn && !s.chip.scribbling && !s.chip.ovrr && s.chip.ic != s.chip.host
    requires Mine(s).unread && !Other(s).unread
    ensures Leads(size, s, t) && t.h.Idle? && StartHarms(t)
  {
    var full := Apply(size, s, FRAME);
    Steps(size, s, FRAME);
    var checked := full.(h := AtToggle, local := full.local.(overrun := false));
    Steps(size, full, Handler(false, false));
    Chained(size, s, full, checked);
    var flagged := Apply(size, checked, Flag);
    Steps(size, checked, Flag);
    Chained(size, s, checked, flagged);
    t := LeavesQuietly(size, flagged);
    Chained(size, s, flagged, t);
  }

  lemma LeavesQuietly(size: nat, s: State) returns (t: State)
    requires s.h.AtToggle? && s.local.snap == Snapshot(true, false, false, false) && !s.local.overrun
    requires s.chip.scribbling && s.chip.ic == s.chip.host && Unread(s.chip) == 2
    ensures Leads(size, s, t) && t.h.Idle? && StartHarms(t)
  {
    var left := HandlerStep(size, s, false, false);
    var done := HandlerStep(size, left, false, false);
    t := done.(h := Idle);
    Stays(size, t);
    HandlerLeads(size, done, false, t);
    HandlerLeads(size, left, false, t);
    HandlerLeads(size, s, false, t);
  }

  /** Starts of reception that harm occur as well. */
  lemma StartReorders(size: nat, s: State)
    requires JustStarted(s)
    ensures exists t, end ::
      && Leads(size, s, t) && t.h.Idle?
      && Leads(size, Apply(size, t, StartRx(false)), end) && !InOrder(size, end.past)
  {
    var u := TakenUp(size, s, false);
    var t := LeftUnderOverrun(size, u);
    Chained(size, s, u, t);
    StartInv(size, s);
    LeadsKeepsInv(size, s, t);
    StartSpoilsIff(size, t, false);
  }
}
