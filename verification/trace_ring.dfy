/** The backtrace ring: a 16-bit index, incremented before use, into a fixed array. */
module TraceRing {
  import Codec

  const INDEX_RANGE := 0x1_0000

  /** The array after adding `log` to a ring of `len` slots filled with `zero`. */
  function Slots<T>(log: seq<T>, len: nat, zero: T): (s: seq<T>)
    requires len > 0
    ensures |s| == len
  {
    if log == [] then seq(len, i => zero)
    else Slots(log[..|log| - 1], len, zero)[|log| % INDEX_RANGE % len := log[|log| - 1]]
  }

  /** What the walk over the ring visits. */
  function Walk<T>(log: seq<T>, len: nat, zero: T): (s: seq<T>)
    requires len > 0
    ensures |s| == len
  {
    var slots := Slots(log, len, zero);
    seq(len, i requires 0 <= i < len => slots[(|log| % INDEX_RANGE + i + 1) % len])
  }

  /** The newest `len` entries, oldest first, after as many zeros as are missing. */
  function Newest<T>(log: seq<T>, len: nat, zero: T): (s: seq<T>)
    ensures |s| == len
  {
    seq(len, i requires 0 <= i < len => if |log| + i < len then zero else log[|log| + i - len])
  }

  // ---------------------------------------------------------------- ring

  class Ring<T(0)> {
    const slots: array<T>
    const zero: T
    var idx: nat
    var lock: bool
    ghost var log: seq<T>

    constructor (len: nat, zero: T)
      requires len > 0
      ensures Valid() && log == [] && slots.Length == len && this.zero == zero && !lock && fresh(slots)
    {
      slots, this.zero := new T[len](i => zero), zero;
      idx, lock, log := 0, false, [];
    }

    ghost predicate Valid()
      reads this, slots
    {
      slots.Length > 0 && idx == |log| % INDEX_RANGE && slots[..] == Slots(log, slots.Length, zero)
    }

    method Add(x: T)
      requires Valid()
      modifies this`idx, this`log, slots
      ensures Valid() && log == if lock then old(log) else old(log) + [x]
    {
      if !lock {
        idx := (idx + 1) % INDEX_RANGE;
        slots[idx % slots.Length] := x;
        assert (log + [x])[..|log|] == log;
        log := log + [x];
      }
    }

    /** What the walk is to visit. */
    ghost function Walked(): (s: seq<T>)
      requires Valid()
      reads this, slots
      ensures |s| == slots.Length
    {
      Walk(log, slots.Length, zero)
    }

    /** The entry a walk reads in its step `i`; one step too many is still in range. */
    function Visited(i: nat): (x: T)
      requires Valid()
      reads this, slots
      ensures i < slots.Length ==> x == Walked()[i]
    {
      slots[(idx + i + 1) % slots.Length]
    }

    /** The command-line walk, under the lock. */
    method Visit() returns (out: seq<T>)
      requires Valid()
      modifies this`lock
      ensures Valid() && !lock && log == old(log)
      ensures out == Walked()
      ensures INDEX_RANGE % slots.Length == 0 ==> out == Newest(log, slots.Length, zero)
    {
      lock, out := true, [];
      var i := 0;
      while i < slots.Length
        invariant i <= slots.Length && out == Walked()[..i]
      {
        out := out + [Visited(i)];
        i := i + 1;
      }
      lock := false;
      if INDEX_RANGE % slots.Length == 0 {
        WalkIsNewest(log, slots.Length, zero);
      }
    }
  }

  // -------------------------------------------------------- refinement

  lemma Remainder(q: int, r: int, len: nat)
    requires 0 <= r < len
    ensures (q * len + r) % len == r
  {
    var x := q * len + r;
    var d := q - x / len;
    assert x == x / len * len + x % len;
    assert len * d == x % len - r;
    Codec.MulBound(len, d);
  }

  lemma Divisible(n: int, j: int, len: nat)
    requires 0 <= j < len
    ensures (n - j) % len == 0 <==> n % len == j
  {
    if (n - j) % len == 0 {
      assert n == (n - j) / len * len + j;
      Remainder((n - j) / len, j, len);
    } else if n % len == j {
      assert n - j == n / len * len + 0;
      Remainder(n / len, 0, len);
    }
  }

  lemma Predecessor(x: int, len: nat)
    requires len > 0 && x % len != 0
    ensures (x - 1) % len == x % len - 1
  {
    assert x - 1 == x / len * len + (x % len - 1);
    Remainder(x / len, x % len - 1, len);
  }

  /** How many entries before number `n` slot `j` was last written. */
  function Age(n: int, j: nat, len: nat): (age: nat)
    requires j < len
  {
    (n - j) % len
  }

  lemma AgeStep(n: int, j: nat, len: nat)
    requires j < len
    ensures Age(n, j, len) == if n % len == j then 0 else Age(n - 1, j, len) + 1
  {
    Divisible(n, j, len);
    if n % len != j {
      Predecessor(n - j, len);
    }
  }

  /** Entry number `m` of a log, counted from 1. */
  function Numbered<T>(log: seq<T>, zero: T, m: int): T
    requires m <= |log|
  {
    if m >= 1 then log[m - 1] else zero
  }

  /** While the index has not wrapped, or wraps evenly, slot `j` holds the newest entry
      whose number is `j` modulo the ring's length. */
  lemma {:induction false} SlotHolds<T>(log: seq<T>, len: nat, zero: T, j: nat)
    requires j < len && (|log| < INDEX_RANGE || INDEX_RANGE % len == 0)
    ensures Slots(log, len, zero)[j] == Numbered(log, zero, |log| - Age(|log|, j, len))
  {
    var n := |log|;
    if n > 0 {
      SlotStep(log, len, zero, j);
      if Age(n, j, len) != 0 {
        SlotHolds(log[..n - 1], len, zero, j);
        FrontNumbered(log, zero, n - Age(n, j, len));
      }
    }
  }

  /** The newest entry is in the slot it makes new; the other slots stay as they were. */
  lemma SlotStep<T>(log: seq<T>, len: nat, zero: T, j: nat)
    requires j < len && (|log| < INDEX_RANGE || INDEX_RANGE % len == 0) && log != []
    ensures Age(|log|, j, len) == 0 || Age(|log|, j, len) == Age(|log| - 1, j, len) + 1
    ensures Slots(log, len, zero)[j]
            == if Age(|log|, j, len) == 0 then log[|log| - 1] else Slots(log[..|log| - 1], len, zero)[j]
  {
    AgeStep(|log|, j, len);
    IndexInRing(|log|, len);
    Added(log, len, zero, j);
  }

  lemma FrontNumbered<T>(log: seq<T>, zero: T, m: int)
    requires log != [] && m < |log|
    ensures Numbered(log[..|log| - 1], zero, m) == Numbered(log, zero, m)
  {
  }

  lemma Added<T>(log: seq<T>, len: nat, zero: T, j: nat)
    requires j < len && log != []
    ensures Slots(log, len, zero)[j]
            == if j == |log| % INDEX_RANGE % len then log[|log| - 1] else Slots(log[..|log| - 1], len, zero)[j]
  {
  }

  lemma IndexInRing(n: nat, len: nat)
    requires len > 0 && (n < INDEX_RANGE || INDEX_RANGE % len == 0)
    ensures n % INDEX_RANGE % len == n % len
  {
    if n >= INDEX_RANGE {
      var a := WholeRounds(n, len);
      var r := n % INDEX_RANGE;
      assert r == r / len * len + r % len;
      Factor(a + 1, r / len, len);
      assert n == (a + r / len) * len + r % len;
      Remainder(a + r / len, r % len, len);
    }
  }

  /** With an evenly wrapping index the walk shows the newest entries, oldest first, after
      any number of additions. */
  lemma WalkIsNewest<T>(log: seq<T>, len: nat, zero: T)
    requires len > 0 && INDEX_RANGE % len == 0
    ensures Walk(log, len, zero) == Newest(log, len, zero)
  {
    var n := |log|;
    forall i | 0 <= i < len
      ensures Walk(log, len, zero)[i] == Newest(log, len, zero)[i]
    {
      var j := (n % INDEX_RANGE + i + 1) % len;
      VisitedSlot(n, i, len);
      SlotHolds(log, len, zero, j);
    }
  }

  lemma VisitedSlot(n: nat, i: nat, len: nat)
    requires i < len && INDEX_RANGE % len == 0
    ensures (n - (n % INDEX_RANGE + i + 1) % len) % len == len - 1 - i
  {
    var k := n % INDEX_RANGE + i + 1;
    var a := WholeRounds(n, len);
    var b := k / len;
    assert k == b * len + k % len;
    Factor(a, b, len);
    assert n - k % len == (a + b - 1) * len + (len - 1 - i);
    Remainder(a + b - 1, len - 1 - i, len);
  }

  /** What the wrapped index leaves out is a multiple of the ring's length. */
  lemma WholeRounds(n: nat, len: nat) returns (a: nat)
    requires len > 0 && INDEX_RANGE % len == 0
    ensures n - n % INDEX_RANGE == a * len
  {
    var p, q := INDEX_RANGE / len, n / INDEX_RANGE;
    a := q * p;
    assert INDEX_RANGE == p * len;
    assert q * (p * len) == (q * p) * len;
  }

  lemma Factor(a: int, b: int, len: nat)
    ensures a * len + b * len == (a + b - 1) * len + len
  {
  }

  /** 1, 2, 3, ... */
  function Numbers(n: nat): (s: seq<nat>)
    ensures |s| == n && forall i :: 0 <= i < n ==> s[i] == i + 1
  {
    if n == 0 then [] else Numbers(n - 1) + [n]
  }

  /** The provision is exact: with any other length 65536 additions are enough to show an
      entry out of place. */
  lemma WalkIsNewestIff(len: nat)
    requires len > 0
    ensures (forall log: seq<nat> :: Walk(log, len, 0) == Newest(log, len, 0)) <==> INDEX_RANGE % len == 0
  {
    if INDEX_RANGE % len == 0 {
      forall log: seq<nat> {
        WalkIsNewest(log, len, 0);
      }
    } else {
      WrapMisplaces(len, Numbers(INDEX_RANGE));
    }
  }

  lemma WrapMisplaces(len: nat, log: seq<nat>)
    requires len > 0 && INDEX_RANGE % len != 0 && |log| == INDEX_RANGE
    requires forall i :: 0 <= i < |log| ==> log[i] == i + 1
    ensures len > 1 && Walk(log, len, 0)[len - 2] != Newest(log, len, 0)[len - 2]
  {
    LastSlotAfterWrap(len, log[..INDEX_RANGE - 1]);
    Remainder(0, len - 1, len);
    Added(log, len, 0, len - 1);
    BeforeLast(log, len);
  }

  lemma BeforeLast(log: seq<nat>, len: nat)
    requires len > 1 && |log| == INDEX_RANGE && (len - 1) % len == len - 1
    ensures Walk(log, len, 0)[len - 2] == Slots(log, len, 0)[len - 1]
    ensures Newest(log, len, 0)[len - 2] == log[INDEX_RANGE - 2]
  {
  }

  lemma LastSlotAfterWrap(len: nat, front: seq<nat>)
    requires len > 1 && INDEX_RANGE % len != 0 && |front| == INDEX_RANGE - 1
    requires forall i :: 0 <= i < |front| ==> front[i] == i + 1
    ensures Slots(front, len, 0)[len - 1] != INDEX_RANGE - 1
  {
    var n := INDEX_RANGE;
    SlotHolds(front, len, 0, len - 1);
    assert n - len == (n / len - 1) * len + n % len;
    Remainder(n / len - 1, n % len, len);
  }
}
