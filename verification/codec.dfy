/** The SPI transaction header, the little-endian register value and the byte
    memory behind a DW3000 register file. */
module Codec {
  import opened Common

  // ---------------------------------------------------------------- header

  /** What one SPI transaction addresses. */
  datatype Header = Header(write: bool, reg: nat, sub: nat)

  /** The range both asserts of every register access demand. */
  predicate ValidHeader(h: Header) {
    h.reg <= 0x3F && h.sub <= 0x7FFF
  }

  /** `x | 0x80` on one byte. */
  function SetBit7(x: byte): byte {
    if x < 0x80 then x + 0x80 else x
  }

  /** Header bytes as the driver builds them. The second byte keeps eight bits of
      the subaddress and ORs the extension flag over the topmost of them. */
  function Encode(h: Header): (bytes: seq<byte>)
    requires ValidHeader(h)
    ensures 1 <= |bytes| <= 3
  {
    var first: byte := (if h.write then 0x80 else 0) + (if h.sub != 0 then 0x40 else 0) + h.reg;
    var low: byte := h.sub % 256;
    if h.sub == 0 then [first]
    else if h.sub <= 0x7F then [first, low]
    else [first, SetBit7(low), h.sub / 128 % 256]
  }

  datatype Parse = Incomplete | Complete(h: Header, len: nat)

  /** The chip's side: what the bytes clocked in so far say. */
  function Decode(bytes: seq<byte>): Parse {
    if |bytes| < 1 then Incomplete
    else
      var write, reg := bytes[0] >= 0x80, bytes[0] % 64;
      if bytes[0] / 64 % 2 == 0 then Complete(Header(write, reg, 0), 1)
      else if |bytes| < 2 then Incomplete
      else if bytes[1] < 0x80 then Complete(Header(write, reg, bytes[1]), 2)
      else if |bytes| < 3 then Incomplete
      else Complete(Header(write, reg, bytes[1] as int % 128 + 128 * bytes[2] as int), 3)
  }

  /** `bytes` agrees with the header of `h` as far as both go. */
  predicate StartsAs(h: Header, bytes: seq<byte>)
    requires ValidHeader(h)
  {
    forall i :: 0 <= i < |bytes| && i < |Encode(h)| ==> bytes[i] == Encode(h)[i]
  }

  /** The decoder recovers exactly the encoded header as soon as its last byte is
      in, whatever follows, and nothing before that. */
  lemma DecodeEncode(h: Header, bytes: seq<byte>)
    requires ValidHeader(h) && StartsAs(h, bytes)
    ensures Decode(bytes) ==
            if |bytes| < |Encode(h)| then Incomplete else Complete(h, |Encode(h)|)
  {
    var e := Encode(h);
    if |bytes| >= 1 {
      assert bytes[0] == e[0];
      assert e[0] % 64 == h.reg && (e[0] / 64 % 2 == 1 <==> h.sub != 0) && (e[0] >= 0x80 <==> h.write);
    }
    if |bytes| >= 2 && |e| >= 2 {
      assert bytes[1] == e[1];
      if |e| == 3 {
        assert e[1] % 128 == h.sub % 128;
      }
    }
    if |bytes| >= 3 && |e| == 3 {
      assert bytes[2] == e[2] == h.sub / 128;
    }
  }

  /** No header is a prefix of another one. */
  lemma PrefixFree(h: Header, g: Header)
    requires ValidHeader(h) && ValidHeader(g)
    ensures Encode(h) <= Encode(g) <==> h == g
  {
    if Encode(h) <= Encode(g) {
      assert StartsAs(h, Encode(g));
      DecodeEncode(h, Encode(g));
      DecodeEncode(g, Encode(g));
    }
  }

  /** The driver's header is the shortest that the chip takes for it. */
  lemma NoShorterHeader(h: Header, bytes: seq<byte>)
    requires ValidHeader(h) && Decode(bytes).Complete? && Decode(bytes).h == h
    ensures |Encode(h)| <= Decode(bytes).len
  {
  }

  // ------------------------------------------------------- register values

  function Pow256(n: nat): (p: nat)
    ensures p > 0
  {
    if n == 0 then 1 else 256 * Pow256(n - 1)
  }

  /** The first `n` bytes of a little-endian value. */
  function ToBytes(v: nat, n: nat): (bytes: seq<byte>)
    ensures |bytes| == n
  {
    if n == 0 then [] else [v % 256] + ToBytes(v / 256, n - 1)
  }

  function FromBytes(bytes: seq<byte>): nat {
    if bytes == [] then 0 else bytes[0] + 256 * FromBytes(bytes[1..])
  }

  /** Reading back the bytes of a value gives it modulo 2^(8n). */
  lemma {:induction false} FromToBytes(v: nat, n: nat)
    ensures FromBytes(ToBytes(v, n)) == v % Pow256(n)
  {
    if n != 0 {
      FromToBytes(v / 256, n - 1);
      assert ToBytes(v, n)[1..] == ToBytes(v / 256, n - 1);
      ModSplit(v, Pow256(n - 1));
    }
  }

  lemma ModSplit(v: nat, p: nat)
    requires p > 0
    ensures v % 256 + 256 * (v / 256 % p) == v % (256 * p)
  {
    var q, r := v / 256 / p, v / 256 % p;
    assert v == 256 * (p * q + r) + v % 256;
    assert v == (256 * p) * q + (256 * r + v % 256) by {
      assert 256 * (p * q) == (256 * p) * q;
    }
    assert 256 * r + v % 256 < 256 * p;
    ModUnique(v, 256 * p, q, 256 * r + v % 256);
  }

  lemma ModUnique(v: nat, m: nat, q: nat, r: nat)
    requires m > 0 && v == m * q + r && r < m
    ensures v % m == r
  {
    var d := v / m - q;
    assert m * d == m * (v / m) - m * q;
    assert m * d == r - v % m;
    MulBound(m, d);
  }

  lemma MulBound(m: nat, d: int)
    ensures d >= 1 ==> m * d >= m
    ensures d <= -1 ==> m * d <= -(m as int)
  {
  }

  // --------------------------------------------------------- byte memory

  type Mem = map<nat, byte>

  /** Byte `off` of register file `reg`; files are 2^15 bytes apart. */
  function Addr(reg: nat, off: nat): nat {
    reg * 0x8000 + off
  }

  /** Different bytes of the register files have different addresses. */
  lemma AddrInjective(r: nat, x: nat, q: nat, y: nat)
    requires x < 0x8000 && y < 0x8000
    ensures Addr(r, x) == Addr(q, y) <==> r == q && x == y
  {
  }

  function Get(m: Mem, a: nat): byte {
    if a in m then m[a] else 0
  }

  /** Store `data` upwards from `a`, one byte after another. */
  function WriteBytes(m: Mem, a: nat, data: seq<byte>): Mem {
    if data == [] then m
    else WriteBytes(m, a, data[..|data| - 1])[a + |data| - 1 := data[|data| - 1]]
  }

  function ReadBytes(m: Mem, a: nat, n: nat): (bytes: seq<byte>)
    ensures |bytes| == n
  {
    seq<byte>(n, i requires 0 <= i < n => Get(m, a + i))
  }

  /** A store changes the bytes it covers, to what it stores, and no others. */
  lemma {:induction false} WriteBytesAt(m: Mem, a: nat, data: seq<byte>, x: nat)
    ensures Get(WriteBytes(m, a, data), x) ==
            if a <= x < a + |data| then data[x - a] else Get(m, x)
  {
    if data != [] {
      WriteBytesAt(m, a, data[..|data| - 1], x);
    }
  }

  lemma ReadAfterWrite(m: Mem, a: nat, data: seq<byte>)
    ensures ReadBytes(WriteBytes(m, a, data), a, |data|) == data
  {
    forall i | 0 <= i < |data|
      ensures Get(WriteBytes(m, a, data), a + i) == data[i]
    {
      WriteBytesAt(m, a, data, a + i);
    }
  }

  /** A store into one register file reaches the bytes it covers there, and no byte of any
      other file. */
  lemma StoreIntoFile(m: Mem, r: nat, sub: nat, data: seq<byte>, q: nat, y: nat)
    requires sub + |data| <= 0x8000 && y < 0x8000
    ensures Get(WriteBytes(m, Addr(r, sub), data), Addr(q, y)) ==
            if q == r && sub <= y < sub + |data| then data[y - sub] else Get(m, Addr(q, y))
  {
    WriteBytesAt(m, Addr(r, sub), data, Addr(q, y));
  }
}
