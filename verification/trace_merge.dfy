/** The combined backtrace: SPI transfers and interrupts in one listing by time. */
module TraceMerge {
  import opened TraceRing

  datatype Entry = Entry(utime: nat, info: nat)

  /** A printed line. */
  datatype Line = Spi(e: Entry) | Irq(e: Entry)

  /** The listing of two walks: the SPI entry goes first only when it is strictly older. */
  function Merged(spi: seq<Entry>, irq: seq<Entry>): seq<Line>
    decreases |spi| + |irq|
  {
    if spi == [] && irq == [] then []
    else if irq == [] || (spi != [] && spi[0].utime < irq[0].utime) then [Spi(spi[0])] + Merged(spi[1..], irq)
    else [Irq(irq[0])] + Merged(spi, irq[1..])
  }

  /** The listing's next line when `i` and `j` entries are listed. */
  lemma NextLine(spi: seq<Entry>, irq: seq<Entry>, i: nat, j: nat)
    requires i <= |spi| && j <= |irq| && i + j < |spi| + |irq|
    ensures Merged(spi[i..], irq[j..])
            == if j == |irq| || (i < |spi| && spi[i].utime < irq[j].utime)
               then [Spi(spi[i])] + Merged(spi[i + 1..], irq[j..])
               else [Irq(irq[j])] + Merged(spi[i..], irq[j + 1..])
  {
    assert i < |spi| ==> spi[i..][1..] == spi[i + 1..];
    assert j < |irq| ==> irq[j..][1..] == irq[j + 1..];
  }

  lemma Listed(out: seq<Line>, spi: seq<Entry>, irq: seq<Entry>, i: nat, j: nat)
    requires i <= |spi| && j <= |irq| && i + j < |spi| + |irq|
    ensures out + Merged(spi[i..], irq[j..])
            == if j == |irq| || (i < |spi| && spi[i].utime < irq[j].utime)
               then (out + [Spi(spi[i])]) + Merged(spi[i + 1..], irq[j..])
               else (out + [Irq(irq[j])]) + Merged(spi[i..], irq[j + 1..])
  {
    NextLine(spi, irq, i, j);
  }

  /** The loop over both rings. A walk that is over still reads its ring, from the front
      again, before the index check discards what it read. */
  method MergeRings(spi: Ring<Entry>, irq: Ring<Entry>) returns (out: seq<Line>)
    requires spi.Valid() && irq.Valid()
    ensures out == Merged(spi.Walked(), irq.Walked())
  {
    ghost var s, q := spi.Walked(), irq.Walked();
    var i, j := 0, 0;
    out := [];
    while i < spi.slots.Length || j < irq.slots.Length
      invariant i <= |s| && j <= |q|
      invariant out + Merged(s[i..], q[j..]) == Merged(s, q)
      decreases |s| + |q| - i - j
    {
      var a, b := spi.Visited(i), irq.Visited(j);
      Listed(out, s, q, i, j);
      if (a.utime < b.utime && i < spi.slots.Length) || j >= irq.slots.Length {
        out := out + [Spi(a)];
        i := i + 1;
      } else {
        out := out + [Irq(b)];
        j := j + 1;
      }
    }
  }

  /** The combined listing, under both locks. */
  method Listing(spi: Ring<Entry>, irq: Ring<Entry>) returns (out: seq<Line>)
    requires spi.Valid() && irq.Valid() && spi != irq
    modifies spi`lock, irq`lock
    ensures spi.Valid() && irq.Valid() && !spi.lock && !irq.lock
    ensures out == Merged(spi.Walked(), irq.Walked())
  {
    spi.lock, irq.lock := true, true;
    out := MergeRings(spi, irq);
    spi.lock, irq.lock := false, false;
  }

  // ----------------------------------------------------------- properties

  function SpiOf(lines: seq<Line>): seq<Entry> {
    if lines == [] then []
    else (if lines[0].Spi? then [lines[0].e] else []) + SpiOf(lines[1..])
  }

  function IrqOf(lines: seq<Line>): seq<Entry> {
    if lines == [] then []
    else (if lines[0].Irq? then [lines[0].e] else []) + IrqOf(lines[1..])
  }

  /** Each ring's entries are listed exactly once, in their own order. */
  lemma {:induction false} ListsBoth(spi: seq<Entry>, irq: seq<Entry>)
    ensures SpiOf(Merged(spi, irq)) == spi && IrqOf(Merged(spi, irq)) == irq
    ensures |Merged(spi, irq)| == |spi| + |irq|
    decreases |spi| + |irq|
  {
    if spi == [] && irq == [] {
    } else if irq == [] || (spi != [] && spi[0].utime < irq[0].utime) {
      ListsBoth(spi[1..], irq);
      Whole(spi);
      Prepend(Spi(spi[0]), Merged(spi[1..], irq));
    } else {
      ListsBoth(spi, irq[1..]);
      Whole(irq);
      Prepend(Irq(irq[0]), Merged(spi, irq[1..]));
    }
  }

  lemma Prepend(line: Line, lines: seq<Line>)
    ensures SpiOf([line] + lines) == (if line.Spi? then [line.e] else []) + SpiOf(lines)
    ensures IrqOf([line] + lines) == (if line.Irq? then [line.e] else []) + IrqOf(lines)
  {
    assert ([line] + lines)[1..] == lines;
  }

  lemma Whole(s: seq<Entry>)
    requires s != []
    ensures [s[0]] + s[1..] == s
  {
  }

  predicate InOrder(s: seq<Entry>) {
    forall i, j :: 0 <= i < j < |s| ==> s[i].utime <= s[j].utime
  }

  predicate TimeSorted(lines: seq<Line>) {
    forall i, j :: 0 <= i < j < |lines| ==> lines[i].e.utime <= lines[j].e.utime
  }

  predicate NoneOlder(lines: seq<Line>, t: nat) {
    forall i :: 0 <= i < |lines| ==> t <= lines[i].e.utime
  }

  lemma {:induction false} MergedNoneOlder(spi: seq<Entry>, irq: seq<Entry>, t: nat)
    requires forall i :: 0 <= i < |spi| ==> t <= spi[i].utime
    requires forall i :: 0 <= i < |irq| ==> t <= irq[i].utime
    ensures NoneOlder(Merged(spi, irq), t)
    decreases |spi| + |irq|
  {
    if spi == [] && irq == [] {
    } else if irq == [] || (spi != [] && spi[0].utime < irq[0].utime) {
      MergedNoneOlder(spi[1..], irq, t);
    } else {
      MergedNoneOlder(spi, irq[1..], t);
    }
  }

  /** The listing is sorted by time exactly when both walks are. */
  lemma SortedIff(spi: seq<Entry>, irq: seq<Entry>)
    ensures TimeSorted(Merged(spi, irq)) <==> InOrder(spi) && InOrder(irq)
  {
    ListsBoth(spi, irq);
    if InOrder(spi) && InOrder(irq) {
      MergedSorted(spi, irq);
    }
    if TimeSorted(Merged(spi, irq)) {
      PartsSorted(Merged(spi, irq));
    }
  }

  lemma {:induction false} MergedSorted(spi: seq<Entry>, irq: seq<Entry>)
    requires InOrder(spi) && InOrder(irq)
    ensures TimeSorted(Merged(spi, irq))
    decreases |spi| + |irq|
  {
    if spi == [] && irq == [] {
    } else if irq == [] || (spi != [] && spi[0].utime < irq[0].utime) {
      MergedSorted(spi[1..], irq);
      MergedNoneOlder(spi[1..], irq, spi[0].utime);
      OldestFirst(Spi(spi[0]), Merged(spi[1..], irq));
    } else {
      MergedSorted(spi, irq[1..]);
      MergedNoneOlder(spi, irq[1..], irq[0].utime);
      OldestFirst(Irq(irq[0]), Merged(spi, irq[1..]));
    }
  }

  lemma OldestFirst(line: Line, lines: seq<Line>)
    requires TimeSorted(lines) && NoneOlder(lines, line.e.utime)
    ensures TimeSorted([line] + lines)
  {
  }

  lemma {:induction false} PartsNoneOlder(lines: seq<Line>, t: nat)
    requires NoneOlder(lines, t)
    ensures forall i :: 0 <= i < |SpiOf(lines)| ==> t <= SpiOf(lines)[i].utime
    ensures forall i :: 0 <= i < |IrqOf(lines)| ==> t <= IrqOf(lines)[i].utime
  {
    if lines != [] {
      PartsNoneOlder(lines[1..], t);
    }
  }

  lemma {:induction false} PartsSorted(lines: seq<Line>)
    requires TimeSorted(lines)
    ensures InOrder(SpiOf(lines)) && InOrder(IrqOf(lines))
  {
    if lines != [] {
      PartsSorted(lines[1..]);
      PartsNoneOlder(lines[1..], lines[0].e.utime);
    }
  }

  /** Among entries of the same time the interrupts come first. */
  lemma {:induction false} TiesInterruptFirst(spi: seq<Entry>, irq: seq<Entry>, k: nat, l: nat)
    requires InOrder(spi) && InOrder(irq) && k < l < |Merged(spi, irq)|
    requires Merged(spi, irq)[k].e.utime == Merged(spi, irq)[l].e.utime
    ensures Merged(spi, irq)[k].Spi? ==> Merged(spi, irq)[l].Spi?
    decreases |spi| + |irq|
  {
    var m := Merged(spi, irq);
    if irq == [] || (spi != [] && spi[0].utime < irq[0].utime) {
      if k > 0 {
        TiesInterruptFirst(spi[1..], irq, k - 1, l - 1);
      } else if m[l].Irq? {
        ListedInterrupt(spi, irq, l);
      }
    } else if k > 0 {
      TiesInterruptFirst(spi, irq[1..], k - 1, l - 1);
    }
  }

  /** An interrupt line is no older than the first interrupt. */
  lemma {:induction false} ListedInterrupt(spi: seq<Entry>, irq: seq<Entry>, l: nat)
    requires InOrder(irq) && l < |Merged(spi, irq)| && Merged(spi, irq)[l].Irq?
    ensures irq != [] && irq[0].utime <= Merged(spi, irq)[l].e.utime
    decreases |spi| + |irq|
  {
    if irq == [] || (spi != [] && spi[0].utime < irq[0].utime) {
      ListedInterrupt(spi[1..], irq, l - 1);
    } else if l > 0 {
      ListedInterrupt(spi, irq[1..], l - 1);
    }
  }
}
