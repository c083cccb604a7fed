/** Frame durations in microseconds, in exact arithmetic: what the driver computes against
    the airtime that the standard defines. */
module Airtime {

  /** Durations of a preamble, a base-rate and a data-rate symbol. */
  datatype Symbols = Symbols(preamble: real, base: real, bit: real)

  /** The driver's decimals, and the symbol lengths in cycles of 499.2 MHz behind them. */
  const DRIVER := Symbols(1.0176282, 1.0256410, 0.1282051)
  const EXACT := Symbols(508.0 / 499.2, 512.0 / 499.2, 64.0 / 499.2)

  /** Numbers of preamble, start-of-frame and header symbols. */
  datatype Format = Format(nsync: nat, nsfd: nat, nphr: nat)

  predicate Plausible(f: Format) {
    f.nsync + f.nsfd <= 0xFFFF && f.nphr <= 0xFF
  }

  function Ceil(x: real): (k: int)
    ensures k as real - 1.0 < x <= k as real
  {
    -((-x).Floor)
  }

  /** Payload bits including the frame check sequence. */
  function Bits(nlen: nat): nat {
    8 * (nlen + 2)
  }

  function DriverBits(nlen: nat): nat {
    Bits(nlen) + 48 + Bits(nlen) / 330 * 48
  }

  /** 48 parity bits for every started block of 330, section 14.3.3.1 of IEEE 802.15.4-2011. */
  function TrueBits(nlen: nat): nat {
    8 * nlen + 16 + (8 * nlen + 16 + 329) / 330 * 48
  }

  function Preamble(t: Symbols, f: Format): real {
    t.preamble * (f.nsync + f.nsfd) as real
  }

  function Payload(t: Symbols, f: Format, bits: nat): real {
    t.base * f.nphr as real + t.bit * bits as real
  }

  /** The three duration functions, with their 16-bit results. */
  function ShrDuration(t: Symbols, f: Format): int {
    Ceil(Preamble(t, f)) % 0x1_0000
  }

  function DataDuration(t: Symbols, f: Format, nlen: nat): int {
    Ceil(Payload(t, f, DriverBits(nlen))) % 0x1_0000
  }

  function FrameDuration(t: Symbols, f: Format, nlen: nat): int {
    (ShrDuration(t, f) + DataDuration(t, f, nlen)) % 0x1_0000
  }

  /** The airtime, counted in cycles of 499.2 MHz: 508 for each symbol of preamble and start
      of frame, 512 for each of the header, 64 for each payload bit. */
  function TrueAirtime(f: Format, nlen: nat): real {
    (508 * f.nsync + 508 * f.nsfd + 512 * f.nphr + 64 * TrueBits(nlen)) as real / 499.2
  }

  lemma AirtimeInSymbols(f: Format, nlen: nat)
    ensures TrueAirtime(f, nlen) == Preamble(EXACT, f) + Payload(EXACT, f, TrueBits(nlen))
  {
  }

  lemma StartedBlocks(b: nat)
    ensures (b + 329) / 330 == b / 330 + if b % 330 == 0 then 0 else 1
  {
  }

  lemma Blocks(k: nat, x: nat)
    ensures (330 * k + x) % 330 == x % 330
  {
  }

  lemma FullIff(n: nat)
    ensures 8 * n % 330 == 0 <==> n % 165 == 0
  {
    var q, r := n / 165, n % 165;
    Blocks(4 * q, 8 * r);
    assert 8 * n == 330 * (4 * q) + 8 * r;
    SmallFull(r);
  }

  lemma SmallFull(r: nat)
    requires r < 165
    ensures 8 * r % 330 == 0 <==> r == 0
  {
  }

  /** The driver counts one block too many just when the payload fills its blocks. */
  lemma SurplusBlock(nlen: nat)
    ensures DriverBits(nlen) == TrueBits(nlen) + if (nlen + 2) % 165 == 0 then 48 else 0
  {
    FullIff(nlen + 2);
    StartedBlocks(Bits(nlen));
  }

  /** A value and a slightly smaller one round up to the same integer when the value is a
      multiple of 1/q and they differ by less than that. */
  lemma SameCeiling(p: int, q: nat, x: real, y: real)
    requires q > 0 && x * q as real == p as real
    requires x - 1.0 / q as real < y <= x
    ensures Ceil(y) == Ceil(x)
  {
    var k := Ceil(x) - 1;
    var u := 1.0 / q as real;
    assert u * q as real == 1.0;
    Scale(k as real, x, q as real);
    assert (k * q) as real == k as real * q as real;
    assert k * q + 1 <= p;
    assert (k as real + u) * q as real == k as real * q as real + u * q as real;
    Cancel(k as real + u, x, q as real);
  }

  lemma Scale(a: real, b: real, c: real)
    requires c > 0.0 && a < b
    ensures a * c < b * c
  {
  }

  lemma Cancel(a: real, b: real, c: real)
    requires c > 0.0 && a * c <= b * c
    ensures a <= b
  {
  }

  /** The decimals in the driver are as good as the exact symbol lengths. */
  lemma DecimalsSuffice(f: Format, bits: nat)
    requires Plausible(f) && bits <= 20000
    ensures Ceil(Preamble(DRIVER, f)) == Ceil(Preamble(EXACT, f))
    ensures Ceil(Payload(DRIVER, f, bits)) == Ceil(Payload(EXACT, f, bits))
  {
    var n := f.nsync + f.nsfd;
    SameCeiling(635 * n, 624, Preamble(EXACT, f), Preamble(DRIVER, f));
    var m := 8 * f.nphr + bits;
    SameCeiling(5 * m, 39, Payload(EXACT, f, bits), Payload(DRIVER, f, bits));
  }

  lemma BitsOrder(a: nat, b: nat)
    requires a <= b
    ensures DriverBits(a) <= DriverBits(b)
  {
    assert Bits(a) / 330 <= Bits(b) / 330;
  }

  lemma SumInRange(a: int, b: int)
    requires 0 <= a && 0 <= b && a + b < 0x1_0000
    ensures (a % 0x1_0000 + b % 0x1_0000) % 0x1_0000 == a + b
  {
  }

  /** Without wrap-around: both roundings are upward and the sum fits 16 bits. */
  lemma NoWrap(f: Format, nlen: nat)
    requires f.nsync + f.nsfd <= 60000 && f.nphr <= 0xFF && nlen <= 1021
    ensures FrameDuration(DRIVER, f, nlen)
            == Ceil(Preamble(EXACT, f)) + Ceil(Payload(EXACT, f, DriverBits(nlen)))
  {
    var bits := DriverBits(nlen);
    BitsOrder(nlen, 1021);
    DecimalsSuffice(f, bits);
    ShortEnough(f, bits);
    SumInRange(Ceil(Preamble(DRIVER, f)), Ceil(Payload(DRIVER, f, bits)));
  }

  /** The 16-bit result is the true sum exactly while that is below 65536. */
  lemma NoWrapIff(f: Format, nlen: nat)
    ensures
      var wide := Ceil(Preamble(DRIVER, f)) + Ceil(Payload(DRIVER, f, DriverBits(nlen)));
      FrameDuration(DRIVER, f, nlen) == wide <==> wide < 0x1_0000
  {
    var a, b := Ceil(Preamble(DRIVER, f)), Ceil(Payload(DRIVER, f, DriverBits(nlen)));
    assert Preamble(DRIVER, f) >= 0.0 && Payload(DRIVER, f, DriverBits(nlen)) >= 0.0;
    if a + b < 0x1_0000 {
      SumInRange(a, b);
    }
  }

  lemma SumModulo(a: int, b: int)
    ensures var d := (a % 0x1_0000 + b % 0x1_0000) % 0x1_0000; (a + b - d) % 0x1_0000 == 0
  {
    var q, r := a / 0x1_0000, b / 0x1_0000;
    var c := a % 0x1_0000 + b % 0x1_0000;
    assert a + b - c % 0x1_0000 == 0x1_0000 * (q + r + c / 0x1_0000);
  }

  /** Otherwise it is that sum less a multiple of 65536. */
  lemma WrapsAround(f: Format, nlen: nat)
    ensures
      var wide := Ceil(Preamble(DRIVER, f)) + Ceil(Payload(DRIVER, f, DriverBits(nlen)));
      0 <= FrameDuration(DRIVER, f, nlen) < 0x1_0000 && (wide - FrameDuration(DRIVER, f, nlen)) % 0x1_0000 == 0
  {
    SumModulo(Ceil(Preamble(DRIVER, f)), Ceil(Payload(DRIVER, f, DriverBits(nlen))));
  }

  lemma ShortEnough(f: Format, bits: nat)
    requires f.nsync + f.nsfd <= 60000 && f.nphr <= 0xFF && bits <= 9384
    ensures 0 <= Ceil(Preamble(EXACT, f)) <= 61100 && 0 <= Ceil(Payload(EXACT, f, bits)) <= 1500
  {
    assert 0.0 <= Preamble(EXACT, f) <= 61060.0;
    assert 0.0 <= Payload(EXACT, f, bits) <= 1470.0;
  }

  /** The frame duration is never below the true airtime, and exceeds it by less than two
      microseconds, plus the 48 bits of the surplus block where there is one. */
  lemma DurationBound(f: Format, nlen: nat)
    requires f.nsync + f.nsfd <= 60000 && f.nphr <= 0xFF && nlen <= 1021
    ensures
      var d := FrameDuration(DRIVER, f, nlen) as real;
      var surplus := if (nlen + 2) % 165 == 0 then EXACT.bit * 48.0 else 0.0;
      TrueAirtime(f, nlen) + surplus <= d < TrueAirtime(f, nlen) + surplus + 2.0
  {
    NoWrap(f, nlen);
    SurplusBlock(nlen);
    AirtimeInSymbols(f, nlen);
  }

  /** A longer frame never gets a shorter duration. */
  lemma DurationMonotone(f: Format, a: nat, b: nat)
    requires f.nsync + f.nsfd <= 60000 && f.nphr <= 0xFF && a <= b <= 1021
    ensures FrameDuration(DRIVER, f, a) <= FrameDuration(DRIVER, f, b)
  {
    NoWrap(f, a);
    NoWrap(f, b);
    BitsOrder(a, b);
  }
}
