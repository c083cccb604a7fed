/** When the transmit semaphore's count stays at most one, and when it cannot be kept. */
module TxCount {
  import opened Common
  import opened TxSemaphore
  import Runs

  /** Steps that do not crowd the semaphore. */
  function Calm(dbl: bool): (State, Label) -> Option<State> {
    (s: State, l: Label) => if Enabled(s, l) && !Crowds(s, l) then Some(Apply(dbl, s, l)) else None
  }

  ghost predicate Leads(dbl: bool, s: State, t: State) {
    exists steps :: Runs.RunOf(Calm(dbl), s, steps) == Some(t)
  }

  lemma Stays(dbl: bool, s: State)
    ensures Leads(dbl, s, s)
  {
    assert Runs.RunOf(Calm(dbl), s, []) == Some(s);
  }

  lemma Steps(dbl: bool, s: State, l: Label)
    requires Enabled(s, l) && !Crowds(s, l)
    ensures Leads(dbl, s, Apply(dbl, s, l))
  {
    Runs.OneStep(Calm(dbl), s, l, Apply(dbl, s, l));
  }

  lemma Chained(dbl: bool, s: State, t: State, u: State)
    requires Leads(dbl, s, t) && Leads(dbl, t, u)
    ensures Leads(dbl, s, u)
  {
    var a :| Runs.RunOf(Calm(dbl), s, a) == Some(t);
    var b :| Runs.RunOf(Calm(dbl), t, b) == Some(u);
    Runs.Then(Calm(dbl), s, a, t, b, u);
  }

  lemma {:induction false} CalmKeepsTokens(dbl: bool, s: State, steps: seq<Label>)
    requires Tokens(s) <= 1 && Runs.RunOf(Calm(dbl), s, steps).Some?
    ensures Tokens(Runs.RunOf(Calm(dbl), s, steps).value) <= 1
    decreases |steps|
  {
    if steps != [] {
      StepTokens(dbl, s, steps[0]);
      CalmKeepsTokens(dbl, Apply(dbl, s, steps[0]), steps[1..]);
    }
  }

  // -------------------------------------------- tokens come back as releases

  lemma {:induction false} SomeGiver(off: seq<OffPc>) returns (t: nat)
    requires Givers(off) > 0
    ensures t < |off| && off[t] == Giving
  {
    var n := |off| - 1;
    if off[n] == Giving {
      t := n;
    } else {
      t := SomeGiver(off[..n]);
    }
  }

  /** One of those who are to release does. */
  lemma Releases(dbl: bool, s: State) returns (l: Label)
    requires Tokens(s) > s.count + s.starting
    ensures Enabled(s, l) && !Crowds(s, l)
    ensures var s' := Apply(dbl, s, l);
            Tokens(s') == Tokens(s) && s'.count == s.count + 1 && s'.starting == s.starting
  {
    if s.waiting > 0 {
      l := WaitPost;
    } else if s.waking > 0 {
      l := WakeGive;
    } else if s.owing > 0 {
      l := StartGive;
    } else if Givers(s.off) > 0 {
      var t := SomeGiver(s.off);
      l := ForceOff(t);
    } else {
      l := HandlerRuns(false);
    }
    StepTokens(dbl, s, l);
  }

  /** A start that is under way may be called off. */
  lemma CalledOff(dbl: bool, s: State)
    requires s.starting > 0
    ensures Leads(dbl, s, Apply(dbl, s, StartTx(true, false, false)))
    ensures var s' := Apply(dbl, s, StartTx(true, false, false));
            Tokens(s') == Tokens(s) && s'.count == s.count && s'.starting == s.starting - 1
  {
    Steps(dbl, s, StartTx(true, false, false));
    StepTokens(dbl, s, StartTx(true, false, false));
  }

  lemma {:induction false} AllReleased(dbl: bool, s: State) returns (t: State)
    ensures Leads(dbl, s, t) && t.count == Tokens(s)
    decreases Tokens(s) - s.count + s.starting
  {
    if Tokens(s) == s.count {
      Stays(dbl, s);
      t := s;
    } else if s.starting > 0 {
      CalledOff(dbl, s);
      var s' := Apply(dbl, s, StartTx(true, false, false));
      t := AllReleased(dbl, s');
      Chained(dbl, s, s', t);
    } else {
      var l := Releases(dbl, s);
      Steps(dbl, s, l);
      t := AllReleased(dbl, Apply(dbl, s, l));
      Chained(dbl, s, Apply(dbl, s, l), t);
    }
  }

  // ------------------------------------------------------------- theorems

  /** The cause is exact: after a step that crowds the semaphore the releases and starts
      that are outstanding bring the count to two on some way on, without any further such
      step; after any other step none does. */
  lemma CountExceedsIff(dbl: bool, s: State, l: Label)
    requires Tokens(s) <= 1 && Enabled(s, l)
    ensures (exists end :: Leads(dbl, Apply(dbl, s, l), end) && end.count > 1) <==> Crowds(s, l)
  {
    var s' := Apply(dbl, s, l);
    StepTokens(dbl, s, l);
    if Crowds(s, l) {
      var end := AllReleased(dbl, s');
    } else {
      forall end | Leads(dbl, s', end)
        ensures end.count <= 1
      {
        var steps :| Runs.RunOf(Calm(dbl), s', steps) == Some(end);
        CalmKeepsTokens(dbl, s', steps);
      }
    }
  }

  /** `run[i]` is the state after the first `i` of `steps`, from an idle start. */
  predicate IsRunFrom(dbl: bool, tasks: nat, run: seq<State>, steps: seq<Label>) {
    && |run| == |steps| + 1 && run[0] == Init(tasks)
    && forall i :: 0 <= i < |steps| ==> Enabled(run[i], steps[i]) && run[i + 1] == Apply(dbl, run[i], steps[i])
  }

  lemma {:induction false} NoGivers(off: seq<OffPc>)
    requires forall t :: 0 <= t < |off| ==> off[t] == Outside
    ensures Givers(off) == 0
  {
    if off != [] {
      NoGivers(off[..|off| - 1]);
    }
  }

  lemma InitTokens(tasks: nat)
    ensures Tokens(Init(tasks)) == 1
  {
    NoGivers(Init(tasks).off);
  }

  /** Over every run in which no step crowds it the semaphore stays binary. */
  lemma {:induction false} CountStaysBinary(dbl: bool, tasks: nat, run: seq<State>, steps: seq<Label>, i: nat)
    requires IsRunFrom(dbl, tasks, run, steps) && i < |run|
    requires forall j :: 0 <= j < i ==> !Crowds(run[j], steps[j])
    ensures run[i].count <= 1 && Tokens(run[i]) <= 1
  {
    if i == 0 {
      InitTokens(tasks);
    } else {
      CountStaysBinary(dbl, tasks, run, steps, i - 1);
      StepTokens(dbl, run[i - 1], steps[i - 1]);
    }
  }

  /** Nobody is inside `dw3000_start_tx` or `dw3000_tx_wait` with the semaphore taken. */
  predicate NoCallUnderWay(s: State) {
    s.starting == 0 && s.owing == 0 && s.waiting == 0
  }

  /** Nobody has read the count as zero and not yet released. */
  predicate NoneTested(s: State) {
    s.waking == 0 && Givers(s.off) == 0 && !HandlerGives(s)
  }

  lemma CrowdedByTests(s: State, l: Label)
    requires ReadsZero(s, l) && NoCallUnderWay(s)
    ensures Crowds(s, l) <==> !NoneTested(s)
  {
  }

  /** With `dw3000_start_tx` and `dw3000_tx_wait` atomic against the release tests, a test
      that reads zero lets the count exceed one exactly when another has read the same
      zero. */
  lemma TestExceedsIff(dbl: bool, s: State, l: Label)
    requires Tokens(s) <= 1 && Enabled(s, l) && ReadsZero(s, l) && NoCallUnderWay(s)
    ensures (exists end :: Leads(dbl, Apply(dbl, s, l), end) && end.count > 1) <==> !NoneTested(s)
  {
    CountExceedsIff(dbl, s, l);
    CrowdedByTests(s, l);
  }

  /** So with those calls atomic, none called off before sleep and every test atomic with
      its release, the semaphore stays binary over every run. */
  lemma BinaryIfAtomic(dbl: bool, tasks: nat, run: seq<State>, steps: seq<Label>, i: nat)
    requires IsRunFrom(dbl, tasks, run, steps) && i < |run|
    requires forall j :: 0 <= j < i && ReadsZero(run[j], steps[j]) ==> NoCallUnderWay(run[j]) && NoneTested(run[j])
    requires forall j :: 0 <= j < i && steps[j].StartTx? ==> !(steps[j].late && steps[j].sleep)
    ensures run[i].count <= 1
  {
    forall j | 0 <= j < i
      ensures !Crowds(run[j], steps[j])
    {
      if ReadsZero(run[j], steps[j]) {
        CrowdedByTests(run[j], steps[j]);
      }
    }
    CountStaysBinary(dbl, tasks, run, steps, i);
  }
}
