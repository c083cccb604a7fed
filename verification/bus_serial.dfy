/** What a read returns, byte by byte, told from the accesses alone: the last write before it
    in bus order that covers the byte, whichever task made it. */
module BusSerial {
  import opened Codec
  import opened Common
  import opened SpiBus
  import opened BusInvariant
  import opened BusSteps
  import opened BusTheorems

  /** The access writes byte `off` of register file `reg` of device `d`. */
  predicate Covers(a: Access, d: nat, reg: nat, off: nat) {
    a.h.write && a.dev == d && a.h.reg == reg && a.h.sub <= off < a.h.sub + a.len
  }

  /** Entry `k` is the last that writes the byte. */
  predicate LastToCover(log: seq<Entry>, k: nat, d: nat, reg: nat, off: nat)
    requires k < |log|
  {
    Covers(log[k].a, d, reg, off) && forall j :: k < j < |log| ==> !Covers(log[j].a, d, reg, off)
  }

  predicate NeverCovered(log: seq<Entry>, d: nat, reg: nat, off: nat) {
    forall j :: 0 <= j < |log| ==> !Covers(log[j].a, d, reg, off)
  }

  lemma {:induction false} UntouchedByte(c: Config, log: seq<Entry>, d: nat, reg: nat, off: nat)
    requires d < |c.mems| && off < 0x8000 && NeverCovered(log, d, reg, off)
    ensures Get(Serial(c, log, d), Addr(reg, off)) == Get(c.mems[d], Addr(reg, off))
  {
    if log != [] {
      var front, a := log[..|log| - 1], log[|log| - 1].a;
      UntouchedByte(c, front, d, reg, off);
      StoreIntoFile(Serial(c, front, d), a.h.reg, a.h.sub, a.data, reg, off);
    }
  }

  /** The serial memory holds in each byte what the last write covering it put there. */
  lemma {:induction false} LastWriteStands(c: Config, log: seq<Entry>, d: nat, reg: nat, off: nat, k: nat)
    requires d < |c.mems| && off < 0x8000 && k < |log| && LastToCover(log, k, d, reg, off)
    ensures Get(Serial(c, log, d), Addr(reg, off)) == log[k].a.data[off - log[k].a.h.sub]
  {
    var n := |log| - 1;
    var front, a := log[..n], log[n].a;
    StoreIntoFile(Serial(c, front, d), a.h.reg, a.h.sub, a.data, reg, off);
    if k < n {
      assert LastToCover(front, k, d, reg, off);
      LastWriteStands(c, front, d, reg, off, k);
    }
  }

  /** In every state of every run, byte `m` of a result is what the last write before that
      read, in bus order, put into that byte of the register file, and the initial value if
      there is none. */
  lemma ReadsLastWritten(c: Config, programs: seq<seq<Op>>, run: seq<State>, i: nat, j: nat, m: nat)
    requires ValidConfig(c) && ProgramsOk(c, programs) && IsRun(c, programs, run) && i < |run|
    requires j < |run[i].results| && m < |run[i].results[j].buf|
    ensures var s, r := run[i], run[i].results[j];
            && r.ticket < |s.log| && s.log[r.ticket].t == r.t && !s.log[r.ticket].a.h.write
            && var a, before := s.log[r.ticket].a, s.log[..r.ticket];
               && |r.buf| == a.len && a.dev < |c.mems|
               && (NeverCovered(before, a.dev, a.h.reg, a.h.sub + m) ==>
                     r.buf[m] == Get(c.mems[a.dev], Addr(a.h.reg, a.h.sub + m)))
               && forall k: nat :: k < |before| && LastToCover(before, k, a.dev, a.h.reg, a.h.sub + m) ==>
                    r.buf[m] == before[k].a.data[a.h.sub + m - before[k].a.h.sub]
  {
    RegisterFileIsAtomic(c, programs, run, i);
    var s, r := run[i], run[i].results[j];
    assert ResultOk(c, s.log, r);
    var a, before := s.log[r.ticket].a, s.log[..r.ticket];
    ByteExpected(c, s.log, r.ticket, m);
    if NeverCovered(before, a.dev, a.h.reg, a.h.sub + m) {
      UntouchedByte(c, before, a.dev, a.h.reg, a.h.sub + m);
    }
    forall k: nat | k < |before| && LastToCover(before, k, a.dev, a.h.reg, a.h.sub + m)
      ensures r.buf[m] == before[k].a.data[a.h.sub + m - before[k].a.h.sub]
    {
      LastWriteStands(c, before, a.dev, a.h.reg, a.h.sub + m, k);
    }
  }

  lemma ByteExpected(c: Config, log: seq<Entry>, i: nat, m: nat)
    requires LogOk(c, log) && i < |log| && m < log[i].a.len
    ensures var a := log[i].a;
            Expected(c, log, i)[m] == Get(Serial(c, log[..i], a.dev), Addr(a.h.reg, a.h.sub + m))
  {
  }

  /** The memories a finished run leaves are told in the same way. */
  lemma LeavesLastWritten(c: Config, programs: seq<seq<Op>>, run: seq<State>, i: nat, d: nat, reg: nat, off: nat)
    requires ValidConfig(c) && ProgramsOk(c, programs) && IsRun(c, programs, run) && i < |run|
    requires run[i].spiSem > 0 && d < |c.mems| && off < 0x8000
    ensures var s := run[i];
            && Sized(c, s)
            && (NeverCovered(s.log, d, reg, off) ==>
                  Get(s.chips[d].mem, Addr(reg, off)) == Get(c.mems[d], Addr(reg, off)))
            && forall k: nat :: k < |s.log| && LastToCover(s.log, k, d, reg, off) ==>
                 Get(s.chips[d].mem, Addr(reg, off)) == s.log[k].a.data[off - s.log[k].a.h.sub]
  {
    RegisterFileIsAtomic(c, programs, run, i);
    var s := run[i];
    if NeverCovered(s.log, d, reg, off) {
      UntouchedByte(c, s.log, d, reg, off);
    }
    forall k: nat | k < |s.log| && LastToCover(s.log, k, d, reg, off)
      ensures Get(s.chips[d].mem, Addr(reg, off)) == s.log[k].a.data[off - s.log[k].a.h.sub]
    {
      LastWriteStands(c, s.log, d, reg, off, k);
    }
  }
}
