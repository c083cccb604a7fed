/** Runs as sequences of labels, and what holds along them whatever the steps are. */
module Runs {
  import opened Common

  /** Where a sequence of labels leads, if each is possible when its turn comes. */
  function RunOf<S, L>(next: (S, L) -> Option<S>, s: S, steps: seq<L>): Option<S>
    decreases |steps|
  {
    if steps == [] then Some(s)
    else
      match next(s, steps[0])
      case None => None
      case Some(s') => RunOf(next, s', steps[1..])
  }

  lemma {:induction false} RunOfAppend<S, L>(next: (S, L) -> Option<S>, s: S, a: seq<L>, b: seq<L>)
    requires RunOf(next, s, a).Some?
    ensures RunOf(next, s, a + b) == RunOf(next, RunOf(next, s, a).value, b)
    decreases |a|
  {
    if a == [] {
      assert a + b == b;
    } else {
      RunOfAppend(next, next(s, a[0]).value, a[1..], b);
      assert (a + b)[1..] == a[1..] + b;
    }
  }

  /** Two runs, one after the other. */
  lemma Then<S, L>(next: (S, L) -> Option<S>, s: S, a: seq<L>, t: S, b: seq<L>, u: S)
    requires RunOf(next, s, a) == Some(t) && RunOf(next, t, b) == Some(u)
    ensures RunOf(next, s, a + b) == Some(u)
  {
    RunOfAppend(next, s, a, b);
  }

  lemma OneStep<S, L>(next: (S, L) -> Option<S>, s: S, l: L, t: S)
    requires next(s, l) == Some(t)
    ensures RunOf(next, s, [l]) == Some(t)
  {
    assert [l][1..] == [];
    assert RunOf(next, t, [l][1..]) == Some(t);
  }

  lemma TwoSteps<S, L>(next: (S, L) -> Option<S>, s: S, l: L, t: S, l': L, u: S)
    requires next(s, l) == Some(t) && next(t, l') == Some(u)
    ensures RunOf(next, s, [l, l']) == Some(u)
  {
    OneStep(next, s, l, t);
    OneStep(next, t, l', u);
    Then(next, s, [l], t, [l'], u);
    assert [l] + [l'] == [l, l'];
  }

  /** Where there is only one way on, a run has one end. */
  lemma {:induction false} OneEnd<S>(next: (S, ()) -> Option<S>, s: S, a: seq<()>, b: seq<()>)
    requires var t, u := RunOf(next, s, a), RunOf(next, s, b);
             t.Some? && u.Some? && next(t.value, ()) == None && next(u.value, ()) == None
    ensures RunOf(next, s, a) == RunOf(next, s, b)
    decreases |a|
  {
    assert a != [] ==> a[0] == ();
    assert b != [] ==> b[0] == ();
    if a != [] && b != [] {
      OneEnd(next, next(s, ()).value, a[1..], b[1..]);
    }
  }

  // -------------------------------------------------- deterministic runs

  /** The state after the first `k` labels. */
  function Reached<S, L>(next: (S, L) -> S, s: S, steps: seq<L>, k: nat): S
    requires k <= |steps|
  {
    if k == 0 then s else next(Reached(next, s, steps, k - 1), steps[k - 1])
  }

  /** At which steps of a run `p` holds, of the state before the step and its label. */
  function Marks<S, L>(next: (S, L) -> S, s: S, steps: seq<L>, p: (S, L) -> bool): (marks: seq<bool>)
    ensures |marks| == |steps|
  {
    seq(|steps|, k requires 0 <= k < |steps| => p(Reached(next, s, steps, k), steps[k]))
  }

  /** A part of the state that follows rules of its own. */
  lemma {:induction false} PartReached<S(!new), T, L(!new)>(
      next: (S, L) -> S, s: S, steps: seq<L>, k: nat, part: S -> T, nextPart: (T, L) -> T)
    requires k <= |steps| && forall s, l :: part(next(s, l)) == nextPart(part(s), l)
    ensures part(Reached(next, s, steps, k)) == Reached(nextPart, part(s), steps, k)
  {
    if k > 0 {
      PartReached(next, s, steps, k - 1, part, nextPart);
    }
  }

  /** Set at some step and not cleared since, or set from the beginning and never cleared. */
  predicate Latched(start: bool, sets: seq<bool>, clear: seq<bool>)
    requires |sets| == |clear|
  {
    || (start && forall j :: 0 <= j < |clear| ==> !clear[j])
    || exists k :: 0 <= k < |sets| && SetSince(sets, clear, k)
  }

  predicate SetSince(sets: seq<bool>, clear: seq<bool>, k: int)
    requires |sets| == |clear|
  {
    0 <= k < |sets| && sets[k] && forall j :: k <= j < |clear| ==> !clear[j]
  }

  lemma LatchedStep(start: bool, sets: seq<bool>, clear: seq<bool>, s: bool, c: bool)
    requires |sets| == |clear|
    ensures Latched(start, sets + [s], clear + [c]) == (!c && (Latched(start, sets, clear) || s))
  {
    var set', clear' := sets + [s], clear + [c];
    assert clear'[|clear|] == c && forall j :: 0 <= j < |clear| ==> clear'[j] == clear[j];
    if Latched(start, set', clear') && !s {
      if k :| SetSince(set', clear', k) {
        assert SetSince(sets, clear, k);
      }
    }
    if !c && Latched(start, sets, clear) {
      if k :| SetSince(sets, clear, k) {
        assert SetSince(set', clear', k);
      }
    }
    if !c && s {
      assert SetSince(set', clear', |sets|);
    }
  }

  /** A flag that each step clears, sets or leaves is latched at the end of a run. */
  lemma {:induction false} LatchIff<S(!new), L(!new)>(
      next: (S, L) -> S, s: S, steps: seq<L>, k: nat,
      flag: S -> bool, sets: (S, L) -> bool, clears: (S, L) -> bool)
    requires k <= |steps| && forall s, l :: flag(next(s, l)) == (!clears(s, l) && (flag(s) || sets(s, l)))
    ensures flag(Reached(next, s, steps, k))
            <==> Latched(flag(s), Marks(next, s, steps, sets)[..k], Marks(next, s, steps, clears)[..k])
  {
    if k > 0 {
      var on, off := Marks(next, s, steps, sets), Marks(next, s, steps, clears);
      LatchIff(next, s, steps, k - 1, flag, sets, clears);
      LatchedStep(flag(s), on[..k - 1], off[..k - 1], on[k - 1], off[k - 1]);
      assert on[..k - 1] + [on[k - 1]] == on[..k] && off[..k - 1] + [off[k - 1]] == off[..k];
    }
  }

  /** What `inv` says of the state and a flag of the run's history, set and cleared by
      certain steps, holds all along. */
  lemma {:induction false} LatchKeeps<S(!new), L(!new)>(
      next: (S, L) -> S, s: S, steps: seq<L>, k: nat, start: bool,
      inv: (S, bool) -> bool, ok: (S, L) -> bool, sets: (S, L) -> bool, clears: (S, L) -> bool)
    requires k <= |steps| && inv(s, start) && forall j :: 0 <= j < |steps| ==> ok(Reached(next, s, steps, j), steps[j])
    requires forall s, l, w :: inv(s, w) && ok(s, l) ==> inv(next(s, l), !clears(s, l) && (w || sets(s, l)))
    ensures inv(Reached(next, s, steps, k),
                Latched(start, Marks(next, s, steps, sets)[..k], Marks(next, s, steps, clears)[..k]))
  {
    if k > 0 {
      var on, off := Marks(next, s, steps, sets), Marks(next, s, steps, clears);
      LatchKeeps(next, s, steps, k - 1, start, inv, ok, sets, clears);
      LatchedStep(start, on[..k - 1], off[..k - 1], on[k - 1], off[k - 1]);
      assert on[..k - 1] + [on[k - 1]] == on[..k] && off[..k - 1] + [off[k - 1]] == off[..k];
    }
  }

  /** A flag that was set at the beginning and is clear at the end has a last step that
      cleared it. */
  lemma {:induction false} LastCleared(start: bool, sets: seq<bool>, clear: seq<bool>) returns (k: nat)
    requires |sets| == |clear| && start && !Latched(start, sets, clear)
    ensures k < |clear| && clear[k] && forall j :: k < j < |clear| ==> !sets[j]
  {
    var n := |clear| - 1;
    LatchedStep(start, sets[..n], clear[..n], sets[n], clear[n]);
    assert sets[..n] + [sets[n]] == sets && clear[..n] + [clear[n]] == clear;
    if clear[n] {
      k := n;
    } else {
      k := LastCleared(start, sets[..n], clear[..n]);
    }
  }

  /** What every step turns over is told by the number of steps. */
  lemma {:induction false} Alternates<S(!new), L(!new)>(
      next: (S, L) -> S, s: S, steps: seq<L>, k: nat, start: bool, inv: (S, bool) -> bool, ok: L -> bool)
    requires k <= |steps| && inv(s, start) && forall j :: 0 <= j < |steps| ==> ok(steps[j])
    requires forall s, l, b :: inv(s, b) && ok(l) ==> inv(next(s, l), !b)
    ensures inv(Reached(next, s, steps, k), start == (k % 2 == 0))
  {
    if k > 0 {
      Alternates(next, s, steps, k - 1, start, inv, ok);
    }
  }
}
