/** The HAL's four transfer routines and the register access on top of them, executed by
    one task on one device: the blocking loops, the chunked non-blocking ones with their
    semaphore hand-over, and the dispatch between them. */
module HalTransfer {
  import opened Codec
  import opened Common
  import opened SpiBus
  import opened BusInvariant

  // ------------------------------------------------------------- chunks

  /** Lengths of the pieces a long payload is cut into. */
  function Chunks(n: nat, step: nat): seq<nat>
    requires step > 0
  {
    if n == 0 then [] else [Min(n, step)] + Chunks(n - Min(n, step), step)
  }

  /** Piece `k` covers [k * step, (k + 1) * step), the last one what is left: together
      the pieces cover [0, n) without gap or overlap, and none is empty. */
  lemma {:induction false} ChunksPartition(n: nat, step: nat, k: nat)
    requires step > 0
    ensures k < |Chunks(n, step)| <==> k * step < n
    ensures k < |Chunks(n, step)| ==> Chunks(n, step)[k] == Min(step, n - k * step) > 0
  {
    OneLess(k, step);
    if n > step {
      assert Chunks(n, step) == [step] + Chunks(n - step, step);
      if k > 0 {
        ChunksPartition(n - step, step, k - 1);
      }
    } else if n > 0 {
      assert Chunks(n, step) == [n] + Chunks(0, step) == [n];
    }
  }

  lemma OneLess(k: nat, step: nat)
    ensures k * step >= 0 && (k == 0 ==> k * step == 0)
    ensures k > 0 ==> k * step == (k - 1) * step + step >= step
  {
    if k > 0 {
      assert (k - 1) * step >= 0;
    }
  }

  /** Apart from a header on its own every transfer takes at most a step, and every one but
      the last exactly that. */
  lemma Bounded(sizes: seq<nat>, header: nat, n: nat, step: nat)
    requires step > 0 && header <= 3 && (sizes == [header] + Chunks(n, step) || (|sizes| == 1 && sizes[0] <= step))
    ensures forall i :: 0 <= i < |sizes| ==> sizes[i] <= step || (i == 0 && sizes[0] <= 3)
    ensures forall i :: 0 < i < |sizes| - 1 ==> sizes[i] == step
  {
    forall i | 0 < i < |sizes|
      ensures sizes[i] <= step && (i < |sizes| - 1 ==> sizes[i] == step)
    {
      ChunksPartition(n, step, i - 1);
      if i < |sizes| - 1 {
        ChunksPartition(n, step, i);
        assert i * step == (i - 1) * step + step;
      }
    }
  }

  /** The access one HAL call makes. */
  function AccessOf(h: Header, noblock: bool, data: seq<byte>, len: nat): Access
    requires ValidHeader(h) && h.sub + len <= 0x7FFF && |data| == (if h.write then len else 0) && (noblock ==> len > 0)
  {
    RawAccess(0, h, noblock, len, data)
  }

  /** The front `n` bytes of a buffer are `data`'s, the others still `rest`'s. */
  ghost predicate Filled(buffer: seq<byte>, data: seq<byte>, rest: seq<byte>, n: nat)
    requires n <= |data| <= |rest| == |buffer|
  {
    forall i :: 0 <= i < |buffer| ==> buffer[i] == if i < n then data[i] else rest[i]
  }

  lemma FrontGrows(was: seq<byte>, data: seq<byte>, rest: seq<byte>, at: nat, n: nat, now: seq<byte>)
    requires at + n <= |data| <= |rest| == |was| && Filled(was, data, rest, at)
    requires now == was[..at] + data[at..at + n] + was[at + n..]
    ensures |now| == |rest| && Filled(now, data, rest, at + n)
  {
  }

  lemma AllFilled(buffer: seq<byte>, data: seq<byte>, rest: seq<byte>)
    requires |data| <= |rest| == |buffer| && Filled(buffer, data, rest, |data|)
    ensures buffer == data + rest[|data|..]
  {
  }

  lemma NextChunk(sizes: seq<nat>, done: seq<nat>, left: nat, step: nat, n: nat, all: seq<nat>)
    requires step > 0 && left > 0 && n == Min(left, step)
    requires sizes + Chunks(left, step) == done + all
    ensures sizes + [n] + Chunks(left - n, step) == done + all
  {
  }

  /** Chips that started the access with memory `m0` and have taken `n` bytes of it. */
  ghost function MidFrame(a: Access, m0: Mem, n: nat): iset<Chip> {
    iset c: Chip | ChipMid(a, m0, c) && |c.clocked| == n <= FrameLen(a)
  }

  lemma NothingClocked(a: Access, m0: Mem)
    ensures Chip(m0, []) in MidFrame(a, m0, 0)
  {
  }

  lemma FrameDone(a: Access, m0: Mem, c: Chip)
    requires c in MidFrame(a, m0, FrameLen(a))
    ensures c.mem == if a.h.write then WriteBytes(m0, DataAddr(a), a.data) else m0
  {
    if a.h.write {
      assert a.data[..a.len] == a.data;
    }
  }

  // ---------------------------------------------------------------- HAL

  /** What comes in behind the header. */
  lemma PayloadOf(rx: seq<byte>, skip: nat, m: Mem, addr: nat, length: nat)
    requires |rx| == skip + length
    requires forall i :: skip <= i < |rx| ==> rx[i] == Get(m, addr + i - skip)
    ensures rx[skip..] == ReadBytes(m, addr, length)
  {
  }

  /** `sizes`: lengths of the transfers since the select line last fell. */
  class Hal {
    var chip: Chip
    var high: bool
    var spiSem: nat
    var nbSem: nat
    const txbuf: array<byte>
    const maxCnt: nat
    const blocking: bool
    var sizes: seq<nat>

    constructor (mem: Mem, txbufSize: nat, maxCnt: nat, blocking: bool)
      requires txbufSize > 3 && maxCnt > 0
      ensures Idle() && chip.mem == mem && fresh(txbuf) && txbuf.Length == txbufSize
      ensures this.maxCnt == maxCnt && this.blocking == blocking
    {
      chip, high, spiSem, nbSem, sizes := Chip(mem, []), true, 1, 1, [];
      txbuf := new byte[txbufSize](i => 0);
      this.maxCnt, this.blocking := maxCnt, blocking;
    }

    ghost predicate Sound() {
      txbuf.Length > 3 && maxCnt > 0
    }

    /** Between two calls. */
    ghost predicate Idle()
      reads this
    {
      Sound() && high && spiSem == nbSem == 1 && chip.clocked == []
    }

    /** The smaller of scratch buffer and DMA limit. */
    function Step(): (n: nat)
      ensures n <= txbuf.Length && n <= maxCnt && (n == txbuf.Length || n == maxCnt)
    {
      if txbuf.Length > maxCnt then maxCnt else txbuf.Length
    }

    /** In the middle of an access: selected, with `n` bytes of its frame clocked. */
    ghost predicate Within(a: Access, m0: Mem, n: nat)
      reads this
    {
      Sound() && !high && chip in MidFrame(a, m0, n)
    }

    method SelectLow()
      modifies this`chip, this`high, this`sizes
      ensures !high && chip == Chip(old(chip.mem), []) && sizes == []
    {
      high, chip, sizes := false, Chip(chip.mem, []), [];
    }

    method SelectHigh()
      modifies this`chip, this`high
      ensures high && chip == Chip(old(chip.mem), [])
    {
      high, chip := true, Chip(chip.mem, []);
    }

    /** The completion callback. */
    method Completed()
      modifies this`chip, this`high, this`nbSem, this`spiSem
      ensures old(nbSem) == 0 ==> nbSem == 1 && chip == old(chip) && high == old(high) && spiSem == old(spiSem)
      ensures old(nbSem) > 0 ==>
                nbSem == old(nbSem) && high && chip == Chip(old(chip.mem), []) && spiSem == old(spiSem) + 1
    {
      if nbSem == 0 {
        nbSem := nbSem + 1;
      } else {
        SelectHigh();
        spiSem := spiSem + 1;
      }
    }

    /** One SPI transfer: the chip takes `mosi` and what it drives comes back. */
    method Transfer(mosi: seq<byte>, ghost a: Access, ghost m0: Mem, ghost n: nat) returns (miso: seq<byte>)
      requires Within(a, m0, n) && n + |mosi| <= FrameLen(a)
      requires forall i :: 0 <= i < |mosi| && (n + i < HLen(a) || a.h.write) ==> mosi[i] == Frame(a)[n + i]
      modifies this`chip, this`sizes
      ensures Within(a, m0, n + |mosi|) && |miso| == |mosi|
      ensures sizes == old(sizes) + [|mosi|]
      ensures !a.h.write ==> forall i :: 0 <= i < |mosi| && HLen(a) <= n + i ==>
                miso[i] == Get(m0, DataAddr(a) + n + i - HLen(a))
    {
      miso := [];
      for k := 0 to |mosi|
        invariant Within(a, m0, n + k) && |miso| == k && sizes == old(sizes)
        invariant !a.h.write ==> forall i :: 0 <= i < k && HLen(a) <= n + i ==>
                    miso[i] == Get(m0, DataAddr(a) + n + i - HLen(a))
      {
        var b: byte := *;
        match Driven(chip) {
          case Some(driven) => b := driven;
          case None =>
        }
        if !a.h.write && HLen(a) <= n + k {
          DrivenByte(a, m0, chip);
        }
        FeedKeeps(a, m0, chip, mosi[k]);
        chip := Feed(chip, mosi[k]);
        miso := miso + [b];
      }
      sizes := sizes + [|mosi|];
    }

    /** The command on its own, from the start of an access. */
    method SendHeader(ghost a: Access, ghost m0: Mem, header: seq<byte>)
      requires Within(a, m0, 0) && header == Encode(a.h)
      modifies this`chip, this`sizes
      ensures Within(a, m0, HLen(a)) && sizes == old(sizes) + [|header|]
    {
      var rx := Transfer(header, a, m0, 0);
    }

    /** Part of a write's payload. */
    method SendData(ghost a: Access, ghost m0: Mem, ghost offset: nat, data: seq<byte>) returns (rx: seq<byte>)
      requires Within(a, m0, HLen(a) + offset) && a.h.write && offset + |data| <= a.len
      requires data == a.data[offset..offset + |data|]
      modifies this`chip, this`sizes
      ensures Within(a, m0, HLen(a) + offset + |data|) && sizes == old(sizes) + [|data|] && |rx| == |data|
    {
      rx := Transfer(data, a, m0, HLen(a) + offset);
    }

    /** Copy `bytes` into an array, from `offset` on. */
    static method Store(into: array<byte>, offset: nat, bytes: seq<byte>)
      requires offset + |bytes| <= into.Length
      modifies into
      ensures into[..] == old(into[..offset]) + bytes + old(into[offset + |bytes|..])
    {
      forall i | 0 <= i < |bytes| {
        into[offset + i] := bytes[i];
      }
    }

    /** One transfer of `n` read bytes into the buffer. `data` is what the whole read is
        to deliver, `rest` the buffer's old content. */
    method Fetch(buffer: array<byte>, offset: nat, n: nat, ghost a: Access, ghost m0: Mem,
                 ghost data: seq<byte>, ghost rest: seq<byte>)
      requires Within(a, m0, HLen(a) + offset) && offset + n <= a.len <= buffer.Length && n <= txbuf.Length
      requires !a.h.write && buffer != txbuf && |rest| == buffer.Length
      requires data == ReadBytes(m0, DataAddr(a), a.len) && Filled(buffer[..], data, rest, offset)
      modifies this`chip, this`sizes, buffer
      ensures Within(a, m0, HLen(a) + offset + n) && sizes == old(sizes) + [n]
      ensures Filled(buffer[..], data, rest, offset + n)
    {
      ghost var was := buffer[..];
      var rx := Transfer(txbuf[..n], a, m0, HLen(a) + offset);
      assert rx == data[offset..offset + n];
      Store(buffer, offset, rx);
      FrontGrows(was, data, rest, offset, n, buffer[..]);
    }

    /** The blocking loop over the pieces. */
    method FetchAll(buffer: array<byte>, length: nat, ghost a: Access, ghost m0: Mem)
      requires Within(a, m0, HLen(a)) && !a.h.write && a.len == length <= buffer.Length && buffer != txbuf
      modifies this`chip, this`sizes, buffer
      ensures Within(a, m0, FrameLen(a))
      ensures buffer[..] == ReadBytes(m0, DataAddr(a), length) + old(buffer[..])[length..]
      ensures sizes == old(sizes) + Chunks(length, Step())
    {
      ghost var rest, done, data := buffer[..], sizes, ReadBytes(m0, DataAddr(a), length);
      var step, left, offset := Step(), length, 0;
      ghost var got := 0;
      while offset < length
        invariant left == length - got && got <= offset && (got < length ==> offset == got)
        invariant Within(a, m0, HLen(a) + got)
        invariant Filled(buffer[..], data, rest, got)
        invariant sizes + Chunks(left, step) == done + Chunks(length, step)
      {
        var n := if left > step then step else left;
        NextChunk(sizes, done, left, step, n, Chunks(length, step));
        left := left - n;
        Fetch(buffer, offset, n, a, m0, data, rest);
        offset, got := offset + step, got + n;
      }
      AllFilled(buffer[..], data, rest);
    }

    /** `hal_dw3000_read`. */
    method Read(h: Header, buffer: array<byte>, length: nat)
      requires Idle() && ValidHeader(h) && !h.write && h.sub + length <= 0x7FFF
      requires length <= buffer.Length && buffer != txbuf
      modifies this, buffer
      ensures Idle() && chip.mem == old(chip.mem)
      ensures buffer[..] == ReadBytes(old(chip.mem), Addr(h.reg, h.sub), length) + old(buffer[..])[length..]
      ensures sizes == [|Encode(h)|] + Chunks(length, Step())
    {
      ghost var a, m0 := AccessOf(h, false, [], length), chip.mem;
      spiSem := spiSem - 1;
      SelectLow();
      NothingClocked(a, m0);
      SendHeader(a, m0, Encode(h));
      FetchAll(buffer, length, a, m0);
      FrameDone(a, m0, chip);
      SelectHigh();
      spiSem := spiSem + 1;
    }

    /** Wait for a wake-up that is there, and put it back. */
    method AwaitWakeUp()
      requires nbSem == 1
      modifies this`nbSem
      ensures nbSem == 1
    {
      nbSem := nbSem - 1;
      nbSem := nbSem + 1;
    }

    /** A transfer whose completion only wakes the task. */
    method SyncedTransfer(mosi: seq<byte>, ghost a: Access, ghost m0: Mem, ghost n: nat) returns (miso: seq<byte>)
      requires Within(a, m0, n) && n + |mosi| <= FrameLen(a) && nbSem == 1
      requires forall i :: 0 <= i < |mosi| && (n + i < HLen(a) || a.h.write) ==> mosi[i] == Frame(a)[n + i]
      modifies this`chip, this`sizes, this`nbSem, this`high, this`spiSem
      ensures Within(a, m0, n + |mosi|) && |miso| == |mosi| && nbSem == 1 && spiSem == old(spiSem)
      ensures sizes == old(sizes) + [|mosi|]
      ensures !a.h.write ==> forall i :: 0 <= i < |mosi| && HLen(a) <= n + i ==>
                miso[i] == Get(m0, DataAddr(a) + n + i - HLen(a))
    {
      nbSem := nbSem - 1;
      miso := Transfer(mosi, a, m0, n);
      Completed();
      AwaitWakeUp();
    }

    /** `hal_dw3000_read_noblock`. */
    method ReadNoblock(h: Header, buffer: array<byte>, length: nat)
      requires Idle() && ValidHeader(h) && !h.write && h.sub + length <= 0x7FFF && length > 0
      requires length <= buffer.Length && buffer != txbuf
      modifies this, buffer, txbuf
      ensures Idle() && chip.mem == old(chip.mem)
      ensures buffer[..] == ReadBytes(old(chip.mem), Addr(h.reg, h.sub), length) + old(buffer[..])[length..]
      ensures sizes == if Fits(|Encode(h)| + length) then [|Encode(h)| + length]
                       else [|Encode(h)|] + Chunks(length, Step())
    {
      spiSem := spiSem - 1;
      SelectLow();
      if |Encode(h)| + length < txbuf.Length && |Encode(h)| + length < maxCnt {
        ReadAtOnce(h, buffer, length);
      } else {
        ReadChunks(h, buffer, length);
        spiSem := spiSem - 1;
      }
      spiSem := spiSem + 1;
    }

    predicate Fits(n: nat)
    {
      n < txbuf.Length && n < maxCnt
    }

    /** Selected, nothing clocked yet, the bus held. */
    ghost predicate Begun()
      reads this
    {
      Sound() && !high && chip.clocked == [] && sizes == [] && spiSem == 0 && nbSem == 1
    }

    method ReadAtOnce(h: Header, buffer: array<byte>, length: nat)
      requires Begun() && ValidHeader(h) && !h.write && h.sub + length <= 0x7FFF && length > 0
      requires length <= buffer.Length && buffer != txbuf && Fits(|Encode(h)| + length)
      modifies this, buffer, txbuf
      ensures Sound() && high && chip == Chip(old(chip.mem), []) && spiSem == 0 && nbSem == 1
      ensures buffer[..] == ReadBytes(old(chip.mem), Addr(h.reg, h.sub), length) + old(buffer[..])[length..]
      ensures sizes == [|Encode(h)| + length]
    {
      ExchangeAtOnce(h, length);
      SelectHigh();
      Store(buffer, 0, txbuf[|Encode(h)|..|Encode(h)| + length]);
    }

    /** The header and zeros behind it. */
    method LoadFront(front: seq<byte>, n: nat)
      requires |front| <= n <= txbuf.Length
      modifies txbuf
      ensures forall i :: 0 <= i < |front| ==> txbuf[i] == front[i]
    {
      Store(txbuf, 0, Zeros(n));
      Store(txbuf, 0, front);
      assert forall i :: 0 <= i < |front| ==> txbuf[..][i] == front[i];
    }

    /** Header out and payload in with one transfer through the scratch buffer. */
    method ExchangeAtOnce(h: Header, length: nat)
      requires Begun() && ValidHeader(h) && !h.write && h.sub + length <= 0x7FFF && length > 0
      requires Fits(|Encode(h)| + length)
      modifies this`chip, this`sizes, this`nbSem, this`high, this`spiSem, txbuf
      ensures Within(AccessOf(h, true, [], length), old(chip.mem), |Encode(h)| + length) && spiSem == 0 && nbSem == 1
      ensures txbuf[|Encode(h)|..|Encode(h)| + length] == ReadBytes(old(chip.mem), Addr(h.reg, h.sub), length)
      ensures sizes == [|Encode(h)| + length]
    {
      ghost var a, m0 := AccessOf(h, true, [], length), chip.mem;
      var n := |Encode(h)| + length;
      LoadFront(Encode(h), n);
      var rx := SyncedTransfer(txbuf[..n], a, m0, 0);
      Store(txbuf, 0, rx);
      PayloadOf(rx, |Encode(h)|, m0, DataAddr(a), length);
      assert txbuf[|Encode(h)|..n] == rx[|Encode(h)|..];
    }

    /** A piece of a chunked read: the last one's completion closes the transaction. */
    method FetchNoblock(buffer: array<byte>, offset: nat, n: nat, more: bool, ghost a: Access, ghost m0: Mem,
                 ghost data: seq<byte>, ghost rest: seq<byte>)
      requires Within(a, m0, HLen(a) + offset) && offset + n <= a.len <= buffer.Length && n <= txbuf.Length
      requires !a.h.write && buffer != txbuf && |rest| == buffer.Length && nbSem == 1
      requires data == ReadBytes(m0, DataAddr(a), a.len) && Filled(buffer[..], data, rest, offset)
      modifies this, buffer
      ensures if more then Within(a, m0, HLen(a) + offset + n) && spiSem == old(spiSem)
              else high && chip == Chip(m0, []) && spiSem == old(spiSem) + 1
      ensures nbSem == 1 && sizes == old(sizes) + [n]
      ensures Filled(buffer[..], data, rest, offset + n)
    {
      if more {
        nbSem := nbSem - 1;
      }
      Fetch(buffer, offset, n, a, m0, data, rest);
      Completed();
      if more {
        AwaitWakeUp();
      }
    }

    /** The chunked loop; the last completion closes the transaction. */
    method FetchAllNoblock(buffer: array<byte>, length: nat, ghost a: Access, ghost m0: Mem)
      requires Within(a, m0, HLen(a)) && !a.h.write && 0 < a.len == length <= buffer.Length && buffer != txbuf
      requires nbSem == 1
      modifies this, buffer
      ensures high && chip == Chip(m0, []) && spiSem == old(spiSem) + 1 && nbSem == 1
      ensures buffer[..] == ReadBytes(m0, DataAddr(a), length) + old(buffer[..])[length..]
      ensures sizes == old(sizes) + Chunks(length, Step())
    {
      ghost var rest, done, data := buffer[..], sizes, ReadBytes(m0, DataAddr(a), length);
      var step, left, offset := Step(), length, 0;
      while offset < length
        invariant offset <= length && left == length - offset && nbSem == 1
        invariant if left > 0 then Within(a, m0, HLen(a) + offset) && spiSem == old(spiSem)
                  else high && chip == Chip(m0, []) && spiSem == old(spiSem) + 1
        invariant Filled(buffer[..], data, rest, offset)
        invariant sizes + Chunks(left, step) == done + Chunks(length, step)
      {
        var n := if left > step then step else left;
        NextChunk(sizes, done, left, step, n, Chunks(length, step));
        left := left - n;
        FetchNoblock(buffer, offset, n, left > 0, a, m0, data, rest);
        offset := offset + n;
      }
      AllFilled(buffer[..], data, rest);
    }

    method ReadChunks(h: Header, buffer: array<byte>, length: nat)
      requires Begun() && ValidHeader(h) && !h.write && h.sub + length <= 0x7FFF && length > 0
      requires length <= buffer.Length && buffer != txbuf
      modifies this, buffer, txbuf
      ensures high && chip == Chip(old(chip.mem), []) && spiSem == nbSem == 1
      ensures buffer[..] == ReadBytes(old(chip.mem), Addr(h.reg, h.sub), length) + old(buffer[..])[length..]
      ensures sizes == [|Encode(h)|] + Chunks(length, Step())
    {
      ghost var a, m0 := AccessOf(h, true, [], length), chip.mem;
      NothingClocked(a, m0);
      var rx := SyncedTransfer(Encode(h), a, m0, 0);
      Store(txbuf, 0, rx);
      Store(txbuf, 0, Zeros(Min(length, txbuf.Length)));
      FetchAllNoblock(buffer, length, a, m0);
    }

    /** `hal_dw3000_write`. */
    method Write(h: Header, data: seq<byte>)
      requires Idle() && ValidHeader(h) && h.write && h.sub + |data| <= 0x7FFF
      modifies this
      ensures Idle() && chip.mem == WriteBytes(old(chip.mem), Addr(h.reg, h.sub), data)
      ensures sizes == [|Encode(h)|] + (if data == [] then [] else [|data|])
    {
      ghost var a, m0 := AccessOf(h, false, data, |data|), chip.mem;
      spiSem := spiSem - 1;
      SelectLow();
      NothingClocked(a, m0);
      SendHeader(a, m0, Encode(h));
      if |data| > 0 {
        assert data == data[0..|data|];
        var rx := SendData(a, m0, 0, data);
      }
      FrameDone(a, m0, chip);
      SelectHigh();
      spiSem := spiSem + 1;
    }

    /** `hal_dw3000_write_noblock`, to the end of the transfer it leaves in flight. */
    method WriteNoblock(h: Header, data: seq<byte>)
      requires Idle() && ValidHeader(h) && h.write && h.sub + |data| <= 0x7FFF && |data| > 0
      modifies this, txbuf
      ensures Idle() && chip.mem == WriteBytes(old(chip.mem), Addr(h.reg, h.sub), data)
      ensures sizes == if Fits(|Encode(h)| + |data|) then [|Encode(h)| + |data|]
                       else [|Encode(h)|] + Chunks(|data|, Step())
    {
      spiSem := spiSem - 1;
      SelectLow();
      if |Encode(h)| + |data| < txbuf.Length && |Encode(h)| + |data| < maxCnt {
        WriteAtOnce(h, data);
      } else {
        WriteChunks(h, data);
      }
    }

    /** Header and payload one behind the other. */
    method LoadFrame(front: seq<byte>, data: seq<byte>)
      requires |front| + |data| <= txbuf.Length
      modifies txbuf
      ensures txbuf[..|front| + |data|] == front + data
    {
      Store(txbuf, 0, front);
      Store(txbuf, |front|, data);
    }

    method WriteAtOnce(h: Header, data: seq<byte>)
      requires Begun() && ValidHeader(h) && h.write && h.sub + |data| <= 0x7FFF && |data| > 0
      requires Fits(|Encode(h)| + |data|)
      modifies this, txbuf
      ensures Sound() && high && spiSem == nbSem == 1
      ensures chip == Chip(WriteBytes(old(chip.mem), Addr(h.reg, h.sub), data), [])
      ensures sizes == [|Encode(h)| + |data|]
    {
      ghost var a, m0 := AccessOf(h, true, data, |data|), chip.mem;
      var n := |Encode(h)| + |data|;
      LoadFrame(Encode(h), data);
      var rx := Transfer(txbuf[..n], a, m0, 0);
      Store(txbuf, 0, rx);
      FrameDone(a, m0, chip);
      Completed();
    }

    /** A piece of a chunked write. */
    method SendNoblock(data: seq<byte>, offset: nat, n: nat, more: bool, ghost a: Access, ghost m0: Mem)
      requires Within(a, m0, HLen(a) + offset) && offset + n <= a.len && n <= txbuf.Length
      requires a.h.write && a.data == data && nbSem == 1 && (!more ==> offset + n == a.len)
      modifies this, txbuf
      ensures if more then Within(a, m0, HLen(a) + offset + n) && spiSem == old(spiSem)
              else high && chip == Chip(WriteBytes(m0, DataAddr(a), data), []) && spiSem == old(spiSem) + 1
      ensures nbSem == 1 && sizes == old(sizes) + [n]
    {
      if more {
        nbSem := nbSem - 1;
      }
      var rx := SendData(a, m0, offset, data[offset..offset + n]);
      Store(txbuf, 0, rx);
      if !more {
        FrameDone(a, m0, chip);
      }
      Completed();
      if more {
        AwaitWakeUp();
      }
    }

    method WriteChunks(h: Header, data: seq<byte>)
      requires Begun() && ValidHeader(h) && h.write && h.sub + |data| <= 0x7FFF && |data| > 0
      modifies this, txbuf
      ensures Sound() && high && spiSem == nbSem == 1
      ensures chip == Chip(WriteBytes(old(chip.mem), Addr(h.reg, h.sub), data), [])
      ensures sizes == [|Encode(h)|] + Chunks(|data|, Step())
    {
      ghost var a, m0 := AccessOf(h, true, data, |data|), chip.mem;
      var rx := SyncedTransfer(Encode(h), a, m0, 0);
      Store(txbuf, 0, rx);
      var step, left, offset := Step(), |data|, 0;
      while offset < |data|
        invariant offset <= |data| && left == |data| - offset && nbSem == 1
        invariant if left > 0 then Within(a, m0, HLen(a) + offset) && spiSem == 0
                  else Sound() && high && chip == Chip(WriteBytes(m0, DataAddr(a), data), []) && spiSem == 1
        invariant sizes + Chunks(left, step) == [HLen(a)] + Chunks(|data|, step)
      {
        var n := if left > step then step else left;
        NextChunk(sizes, [HLen(a)], left, step, n, Chunks(|data|, step));
        left := left - n;
        SendNoblock(data, offset, n, left > 0, a, m0);
        offset := offset + n;
      }
    }

    // ---------------------------------------------------------- dispatch

    /** `dw3000_read`: the bytes are the same whichever routine carries them. */
    method ReadRegister(reg: nat, sub: nat, buffer: array<byte>, length: nat)
      requires Idle() && reg <= 0x3F && sub <= 0x7FFF && sub + length <= 0x7FFF
      requires length <= buffer.Length && buffer != txbuf
      modifies this, buffer, txbuf
      ensures Idle() && chip.mem == old(chip.mem)
      ensures buffer[..] == ReadBytes(old(chip.mem), Addr(reg, sub), length) + old(buffer[..])[length..]
      ensures NoneTooLong() && AllButLastFull()
    {
      var h := Header(false, reg, sub);
      if length < NOBLOCK_FROM || blocking {
        Read(h, buffer, length);
      } else {
        ReadNoblock(h, buffer, length);
      }
      Bounded(sizes, |Encode(h)|, length, Step());
    }

    /** Apart from a header on its own, no transfer is longer than the scratch buffer or
        the DMA engine allows. */
    ghost predicate NoneTooLong()
      reads this
    {
      forall i :: 0 <= i < |sizes| ==>
        (sizes[i] <= txbuf.Length && sizes[i] <= maxCnt) || (i == 0 && sizes[0] <= 3)
    }

    /** Nor is any piece but the last shorter than they do. */
    ghost predicate AllButLastFull()
      reads this
    {
      forall i :: 0 < i < |sizes| - 1 ==> sizes[i] == txbuf.Length || sizes[i] == maxCnt
    }

    /** `dw3000_write`. */
    method WriteRegister(reg: nat, sub: nat, data: seq<byte>)
      requires Idle() && reg <= 0x3F && sub <= 0x7FFF && sub + |data| <= 0x7FFF
      modifies this, txbuf
      ensures Idle() && chip.mem == WriteBytes(old(chip.mem), Addr(reg, sub), data)
      ensures !blocking && |Encode(Header(true, reg, sub))| + |data| >= NOBLOCK_FROM ==>
                NoneTooLong() && AllButLastFull()
    {
      var h := Header(true, reg, sub);
      if |Encode(h)| + |data| < NOBLOCK_FROM || blocking {
        Write(h, data);
      } else {
        WriteNoblock(h, data);
        Bounded(sizes, |Encode(h)|, |data|, Step());
      }
    }

    /** `dw3000_read_reg`. */
    method ReadReg(reg: nat, sub: nat, n: nat) returns (value: nat)
      requires Idle() && reg <= 0x3F && sub <= 0x7FFF && sub + n <= 0x7FFF && n <= 8
      modifies this, txbuf
      ensures Idle() && chip.mem == old(chip.mem)
      ensures value == FromBytes(ReadBytes(chip.mem, Addr(reg, sub), n))
    {
      var h := Header(false, reg, sub);
      var buffer := new byte[8](i => 0);
      if |Encode(h)| + n < NOBLOCK_FROM || blocking {
        Read(h, buffer, n);
      } else {
        ReadNoblock(h, buffer, n);
      }
      value := FromBytes(buffer[..]);
      ZeroTail(ReadBytes(chip.mem, Addr(reg, sub), n), buffer[..]);
    }

    /** `dw3000_write_reg`. */
    method WriteReg(reg: nat, sub: nat, value: nat, n: nat)
      requires Idle() && reg <= 0x3F && sub <= 0x7FFF && sub + n <= 0x7FFF && n <= 8
      modifies this, txbuf
      ensures Idle() && chip.mem == WriteBytes(old(chip.mem), Addr(reg, sub), ToBytes(value, n))
    {
      var h := Header(true, reg, sub);
      if |Encode(h)| + n < NOBLOCK_FROM || blocking {
        Write(h, ToBytes(value, n));
      } else {
        WriteNoblock(h, ToBytes(value, n));
      }
    }

    /** Reading back what was written gives it modulo 2^(8n), and no other byte of this or
        any other register file has changed. */
    method WriteThenRead(reg: nat, sub: nat, value: nat, n: nat) returns (back: nat)
      requires Idle() && reg <= 0x3F && sub <= 0x7FFF && sub + n <= 0x7FFF && n <= 8
      modifies this, txbuf
      ensures Idle() && back == value % Pow256(n)
      ensures forall x: nat :: !(Addr(reg, sub) <= x < Addr(reg, sub) + n) ==> Get(chip.mem, x) == Get(old(chip.mem), x)
      ensures forall q: nat, y: nat :: y < 0x8000 && (q != reg || !(sub <= y < sub + n)) ==>
                Get(chip.mem, Addr(q, y)) == Get(old(chip.mem), Addr(q, y))
    {
      StoredValue(chip.mem, Addr(reg, sub), value, n);
      OtherFilesKept(chip.mem, reg, sub, ToBytes(value, n));
      WriteReg(reg, sub, value, n);
      back := ReadReg(reg, sub, n);
    }
  }

  /** What a register write does to a plain byte memory. */
  lemma StoredValue(m: Mem, at: nat, value: nat, n: nat)
    ensures var m' := WriteBytes(m, at, ToBytes(value, n));
      && FromBytes(ReadBytes(m', at, n)) == value % Pow256(n)
      && forall x: nat :: !(at <= x < at + n) ==> Get(m', x) == Get(m, x)
  {
    ReadAfterWrite(m, at, ToBytes(value, n));
    FromToBytes(value, n);
    forall x: nat {
      WriteBytesAt(m, at, ToBytes(value, n), x);
    }
  }

  lemma OtherFilesKept(m: Mem, reg: nat, sub: nat, data: seq<byte>)
    requires sub + |data| <= 0x8000
    ensures forall q: nat, y: nat :: y < 0x8000 && (q != reg || !(sub <= y < sub + |data|)) ==>
              Get(WriteBytes(m, Addr(reg, sub), data), Addr(q, y)) == Get(m, Addr(q, y))
  {
    forall q: nat, y: nat | y < 0x8000 && (q != reg || !(sub <= y < sub + |data|))
      ensures Get(WriteBytes(m, Addr(reg, sub), data), Addr(q, y)) == Get(m, Addr(q, y))
    {
      StoreIntoFile(m, reg, sub, data, q, y);
    }
  }

  /** Shorter transfers always block. */
  const NOBLOCK_FROM := 9

  /** Zero bytes above it do not change a little-endian value. */
  lemma {:induction false} ZeroTail(front: seq<byte>, bytes: seq<byte>)
    requires front <= bytes && forall i :: |front| <= i < |bytes| ==> bytes[i] == 0
    ensures FromBytes(bytes) == FromBytes(front)
  {
    if bytes != [] {
      if front == [] {
        ZeroTail([], bytes[1..]);
      } else {
        ZeroTail(front[1..], bytes[1..]);
      }
    }
  }
}
