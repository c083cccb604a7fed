/** The interrupt mask over whole runs of calls: whatever a call saves, zeroes and
    restores in between, only `dw3000_phy_interrupt_mask` changes the mask. */
module SysMask {
  import opened RegisterBits
  import opened MacDevice
  import opened DeviceRuns
  import opened Runs

  /** What the calls that mean to change the mask make of it, one after another. */
  function Folded(mask: Bits, calls: seq<Call>): Bits {
    Reached(Updated, mask, calls, |calls|)
  }

  function Updated(mask: Bits, call: Call): Bits {
    if call.InterruptMask? then (mask - call.bits) + If(call.enable, call.bits) else mask
  }

  predicate Names(call: Call, i: nat) {
    call.InterruptMask? && i in call.bits
  }

  /** `calls[k]` is the last update that names bit `i`. */
  predicate LastToName(calls: seq<Call>, k: nat, i: nat)
    requires k < |calls|
  {
    Names(calls[k], i) && forall j :: k < j < |calls| ==> !Names(calls[j], i)
  }

  predicate NeverNamed(calls: seq<Call>, i: nat) {
    forall j :: 0 <= j < |calls| ==> !Names(calls[j], i)
  }

  /** Every bit holds what the last update that names it says, whichever other bits the
      updates name ... */
  lemma EachBitLastUpdateWins(mask: Bits, calls: seq<Call>, i: nat, k: nat)
    requires k < |calls| && LastToName(calls, k, i)
    ensures i in Folded(mask, calls) <==> calls[k].enable
  {
    BitKept(mask, calls, i, k + 1, |calls|);
  }

  /** ... and its initial value if none does. */
  lemma UnnamedBitStays(mask: Bits, calls: seq<Call>, i: nat)
    requires NeverNamed(calls, i)
    ensures i in Folded(mask, calls) <==> i in mask
  {
    BitKept(mask, calls, i, 0, |calls|);
  }

  lemma {:induction false} BitKept(mask: Bits, calls: seq<Call>, i: nat, from: nat, n: nat)
    requires from <= n <= |calls| && forall j :: from <= j < n ==> !Names(calls[j], i)
    ensures i in Reached(Updated, mask, calls, n) <==> i in Reached(Updated, mask, calls, from)
  {
    if from < n {
      BitKept(mask, calls, i, from, n - 1);
    }
  }

  /** Any run of calls leaves the mask at the fold of its updates. */
  lemma MaskIsFolded(i: Image, calls: seq<Call>)
    ensures Reached(Outcome, i, calls, |calls|).mask == Folded(i.mask, calls)
  {
    forall i, call {
      MaskStep(i, call);
    }
    PartReached(Outcome, i, calls, |calls|, (i: Image) => i.mask, Updated);
  }

  lemma MaskStep(i: Image, call: Call)
    ensures Outcome(i, call).mask == Updated(i.mask, call)
  {
  }

  // ----------------------------------------------- the read before the lock

  /** `dw3000_phy_forcetrxoff` preempted after it read the mask and before it holds the
      mutex, while other tasks complete `calls`: it writes back what it read. */
  method ForceTrxOffPreempted(d: Device, calls: seq<Call>)
    modifies d
    ensures d.mask == old(d.mask)
    ensures d.dblbuff ==> d.hostPtr == d.icPtr
  {
    var saved := d.mask;
    ExecuteAll(d, calls);
    d.PhyForceTrxOff();
    d.mask := saved;
  }

  /** So the updates made meanwhile survive just when they left the mask as it was read,
      that is, when no bit's last update changed the bit. */
  lemma UpdatesSurviveIff(mask: Bits, calls: seq<Call>)
    ensures mask == Folded(mask, calls) <==>
            forall i, k: nat {:trigger LastToName(calls, k, i)} ::
              k < |calls| && LastToName(calls, k, i) ==> (calls[k].enable <==> i in mask)
  {
    forall i, k: nat | k < |calls| && LastToName(calls, k, i) {
      EachBitLastUpdateWins(mask, calls, i, k);
    }
    if forall i, k: nat {:trigger LastToName(calls, k, i)} ::
         k < |calls| && LastToName(calls, k, i) ==> (calls[k].enable <==> i in mask) {
      forall i: nat
        ensures i in mask <==> i in Folded(mask, calls)
      {
        NamedOrNot(calls, i);
        if NeverNamed(calls, i) {
          UnnamedBitStays(mask, calls, i);
        } else {
          var k: nat :| k < |calls| && LastToName(calls, k, i);
        }
      }
    }
  }

  lemma {:induction false} NamedOrNot(calls: seq<Call>, i: nat)
    ensures NeverNamed(calls, i) || exists k: nat :: k < |calls| && LastToName(calls, k, i)
  {
    if calls != [] {
      var front := calls[..|calls| - 1];
      NamedOrNot(front, i);
      if Names(calls[|calls| - 1], i) {
        assert LastToName(calls, |calls| - 1, i);
      } else if !NeverNamed(front, i) {
        var k: nat :| k < |front| && LastToName(front, k, i);
        assert front[k] == calls[k];
        assert LastToName(calls, k, i);
      }
    }
  }

  /** An interrupt enabled in that gap is lost. */
  method GapLosesAnUpdate() returns (d: Device)
    ensures fresh(d) && !Has(d.mask, RXFCG) && Has(Folded({}, [InterruptMask(RXFCG, true)]), RXFCG)
  {
    d := new Device(false, false);
    ForceTrxOffPreempted(d, [InterruptMask(RXFCG, true)]);
    assert 14 in RXFCG && 14 in Folded({}, [InterruptMask(RXFCG, true)]);
  }
}
