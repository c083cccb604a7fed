/** Every read that a task has begun is either still in its hands or has been answered,
    once, by that task. */
module BusResults {
  import opened Codec
  import opened Common
  import opened SpiBus

  /** How many results carry a ticket. */
  function Answers(results: seq<Result>, ticket: nat): nat {
    if results == [] then 0
    else
      var n := |results| - 1;
      Answers(results[..n], ticket) + (if results[n].ticket == ticket then 1 else 0)
  }

  /** Task `t` has begun an access and not yet returned from it. */
  predicate Engaged(s: State, t: nat) {
    t < |s.tasks| && s.tasks[t].pc != Start && s.tasks[t].prog != [] && s.tasks[t].prog[0].Do?
  }

  /** The access with this ticket is the one its task is engaged in. */
  predicate Pending(s: State, ticket: nat)
    requires ticket < |s.log|
  {
    Engaged(s, s.log[ticket].t) && s.tasks[s.log[ticket].t].ticket == ticket
  }

  predicate TicketsOk(s: State) {
    forall t :: 0 <= t < |s.tasks| && Engaged(s, t) ==>
      s.tasks[t].ticket < |s.log| && s.log[s.tasks[t].ticket] == Entry(t, s.tasks[t].prog[0].a)
  }

  predicate RecordedOk(s: State) {
    forall i :: 0 <= i < |s.results| ==>
      s.results[i].ticket < |s.log| && s.log[s.results[i].ticket].t == s.results[i].t
  }

  /** A read begun is pending and unanswered, or answered exactly once. */
  predicate Answered(s: State, ticket: nat)
    requires ticket < |s.log|
  {
    !s.log[ticket].a.h.write ==> Answers(s.results, ticket) == if Pending(s, ticket) then 0 else 1
  }

  ghost function Accounted(): iset<State> {
    iset s: State |
      TicketsOk(s) && RecordedOk(s) && forall ticket :: 0 <= ticket < |s.log| ==> Answered(s, ticket)
  }

  lemma AnswersAppend(results: seq<Result>, r: Result, ticket: nat)
    ensures Answers(results + [r], ticket) == Answers(results, ticket) + (if r.ticket == ticket then 1 else 0)
  {
    assert (results + [r])[..|results|] == results;
  }

  lemma {:induction false} NoneAnswered(results: seq<Result>, ticket: nat)
    requires forall i :: 0 <= i < |results| ==> results[i].ticket != ticket
    ensures Answers(results, ticket) == 0
  {
    if results != [] {
      NoneAnswered(results[..|results| - 1], ticket);
    }
  }

  // ---------------------------------------------------------------- steps

  /** Nothing that matters here has changed. */
  predicate SameAccounts(s: State, s': State) {
    && s'.log == s.log && s'.results == s.results && |s'.tasks| == |s.tasks|
    && forall t :: 0 <= t < |s.tasks| ==>
         Engaged(s', t) == Engaged(s, t)
         && (Engaged(s, t) ==> s'.tasks[t].ticket == s.tasks[t].ticket && s'.tasks[t].prog[0] == s.tasks[t].prog[0])
  }

  lemma Unchanged(s: State, s': State)
    requires s in Accounted() && SameAccounts(s, s')
    ensures s' in Accounted()
  {
    forall ticket | 0 <= ticket < |s'.log|
      ensures Answered(s', ticket)
    {
      assert Answered(s, ticket);
    }
  }

  /** Steps in the middle of an access. */
  lemma MiddleStep(c: Config, s: State, t: nat)
    requires Sized(c, s) && CanAdvance(c, s, t)
    requires s.tasks[t].pc in {SetCb, SelectLow, Fill, TakeNb, ClearTx, WaitNb}
    ensures SameAccounts(s, Advance(c, s, t))
  {
  }

  lemma LaterStep(c: Config, s: State, t: nat)
    requires Sized(c, s) && CanAdvance(c, s, t)
    requires s.tasks[t].pc in {GiveNb, WaitBlk, SelectHigh, CopyOut, Reacquire}
    ensures SameAccounts(s, Advance(c, s, t))
  {
  }

  /** A write whose last transfer is handed over returns at once, without an answer. */
  lemma LaunchWrite(s: State, t: nat)
    requires s in Accounted() && Engaged(s, t) && s.tasks[t].prog[0].a.h.write
    ensures SetTask(s, t, s.tasks[t].(prog := s.tasks[t].prog[1..], pc := Start)) in Accounted()
  {
    var s' := SetTask(s, t, s.tasks[t].(prog := s.tasks[t].prog[1..], pc := Start));
    forall ticket | 0 <= ticket < |s'.log|
      ensures Answered(s', ticket)
    {
      assert Answered(s, ticket);
    }
  }

  lemma LaunchGoesOn(c: Config, s: State, t: nat)
    requires Sized(c, s) && CanAdvance(c, s, t) && s.tasks[t].pc == Launch
    requires !(XferMode(c, Cur(s, t), s.tasks[t].done) == Final && Cur(s, t).h.write)
    ensures SameAccounts(s, Advance(c, s, t))
  {
  }

  lemma LaunchStep(c: Config, s: State, t: nat)
    requires s in Accounted() && Sized(c, s) && CanAdvance(c, s, t) && s.tasks[t].pc == Launch
    ensures Advance(c, s, t) in Accounted()
  {
    var k := s.tasks[t];
    if XferMode(c, k.prog[0].a, k.done) == Final && k.prog[0].a.h.write {
      LaunchWrite(s, t);
      Unchanged(SetTask(s, t, k.(prog := k.prog[1..], pc := Start)), Advance(c, s, t));
    } else {
      LaunchGoesOn(c, s, t);
      Unchanged(s, Advance(c, s, t));
    }
  }

  lemma BeginStep(c: Config, s: State, t: nat)
    requires s in Accounted() && Running(s, t) && s.spiSem > 0 && s.tasks[t].pc == Start
    ensures Begin(c, s, t) in Accounted()
  {
    var s' := Begin(c, s, t);
    if s.tasks[t].prog[0].Do? {
      NoneAnswered(s.results, |s.log|);
      forall ticket | 0 <= ticket < |s'.log|
        ensures Answered(s', ticket)
      {
        if ticket < |s.log| {
          assert Answered(s, ticket);
        }
      }
    } else {
      Unchanged(s, s');
    }
  }

  lemma ReturnStep(s: State, t: nat)
    requires s in Accounted() && Running(s, t) && s.tasks[t].pc != Start
    ensures Return(s, t) in Accounted()
  {
    var s', k := Return(s, t), s.tasks[t];
    assert k.prog[0].Do? && k.prog[0].a.h.write ==> s'.results == s.results;
    if k.prog[0].Do? {
      assert Engaged(s, t);
      forall ticket | 0 <= ticket < |s'.log|
        ensures Answered(s', ticket)
      {
        assert Answered(s, ticket);
        AnswersAppend(s.results, Result(t, k.ticket, k.buf), ticket);
      }
    } else {
      Unchanged(s, s');
    }
  }

  lemma AdvanceStep(c: Config, s: State, t: nat)
    requires s in Accounted() && Sized(c, s) && CanAdvance(c, s, t)
    ensures Advance(c, s, t) in Accounted()
  {
    if s.tasks[t].pc == Start {
      BeginStep(c, s, t);
    } else if s.tasks[t].pc == Launch {
      LaunchStep(c, s, t);
    } else if s.tasks[t].pc == Test && s.spiSem == 0 {
      Unchanged(s, Advance(c, s, t));
    } else if s.tasks[t].pc in {Test, PassOn, Release} {
      ReturnStep(s, t);
      Unchanged(Return(s, t), Advance(c, s, t));
    } else {
      if s.tasks[t].pc in {GiveNb, WaitBlk, SelectHigh, CopyOut, Reacquire} {
        LaterStep(c, s, t);
      } else {
        MiddleStep(c, s, t);
      }
      Unchanged(s, Advance(c, s, t));
    }
  }

  lemma StepAccounted(c: Config, s: State, l: Label)
    requires s in Accounted() && Sized(c, s) && Enabled(c, s, l)
    ensures Apply(c, s, l) in Accounted()
  {
    match l
    case TaskStep(t) => AdvanceStep(c, s, t);
    case ClockStep(miso) => Unchanged(s, Clock(c, s, miso));
    case CallbackStep => Unchanged(s, Callback(c, s));
  }

  /** In every state of every run each read begun is pending and unanswered, or answered
      exactly once, and every answer was recorded by the task whose read it is. */
  lemma {:induction false} EveryReadAnswered(c: Config, programs: seq<seq<Op>>, run: seq<State>, i: nat)
    requires IsRun(c, programs, run) && i < |run|
    ensures run[i] in Accounted()
  {
    if i > 0 {
      EveryReadAnswered(c, programs, run, i - 1);
      assert Follows(c, run[i - 1], run[i]);
      var l :| Enabled(c, run[i - 1], l) && run[i] == Apply(c, run[i - 1], l);
      StepAccounted(c, run[i - 1], l);
    }
  }
}
