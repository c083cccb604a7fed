/** SYS_CFG, which several setters update in place, each through its own read-modify-write:
    one byte of the register or the whole of it. */
module SysCfg {
  import opened RegisterBits

  const FFE := 0
  const FF_TYPES: Bits := {1, 2, 3, 4, 5, 6, 7, 8}
  const DIS_DRXB := 12
  const RXWTOE := 28
  const AUTOACK := 30

  /** The access mask, 0xF047FFFF. */
  const DEFINED: Bits :=
    {0, 1, 2, 3, 4, 5, 6, 7, 8, 9, 10, 11, 12, 13, 14, 15, 16, 17, 18, 22, 28, 29, 30, 31}

  const OURS: Bits := {0, 1, 2, 3, 4, 5, 6, 7, 8, 12, 28, 30}

  datatype Setter =
    | RxTimeout(units: nat)
    | FrameFilter(enable: Bits)
    | AutoAck(ack: bool)
    | DoubleBuffer(double: bool)

  /** The register read as independent fields. */
  datatype Fields = Fields(timeout: bool, filter: bool, types: Bits, ack: bool, double: bool)

  function FieldsOf(reg: Bits): Fields {
    Fields(RXWTOE in reg, FFE in reg, reg * FF_TYPES, AUTOACK in reg, DIS_DRXB !in reg)
  }

  /** What a setter means. Switching the filter off leaves the frame types selected. */
  function Meant(f: Fields, call: Setter): Fields {
    match call
    case RxTimeout(units) => f.(timeout := units > 0)
    case FrameFilter(enable) =>
      if enable == {} then f.(filter := false) else f.(filter := true, types := enable * FF_TYPES)
    case AutoAck(ack) => f.(ack := ack)
    case DoubleBuffer(double) => f.(double := double)
  }

  function MeantAll(f: Fields, calls: seq<Setter>): Fields {
    if calls == [] then f else Meant(MeantAll(f, calls[..|calls| - 1]), calls[|calls| - 1])
  }

  /** The bits a setter may change. */
  function Bit(i: nat): Bits {
    {i}
  }

  function Scope(call: Setter): Bits {
    match call
    case RxTimeout(units) => Bit(RXWTOE)
    case FrameFilter(enable) => Bit(FFE) + FF_TYPES
    case AutoAck(ack) => Bit(AUTOACK)
    case DoubleBuffer(double) => Bit(DIS_DRXB)
  }

  class Device {
    var reg: Bits
    var fwto: nat
    var icPtr: bool
    var hostPtr: bool

    constructor (reg: Bits)
      ensures this.reg == reg && fwto == 0 && icPtr == hostPtr == false
    {
      this.reg, fwto, icPtr, hostPtr := reg, 0, false, false;
    }

    /** A write of the one byte at offset `k`. */
    method WriteByte(k: nat, value: Bits)
      requires InByte(value, k) == value
      modifies this`reg
      ensures InByte(reg, k) == value && reg - InByte(reg, k) == old(reg - InByte(reg, k))
    {
      reg := (reg - InByte(reg, k)) + value;
      assert forall i :: i in value ==> i / 8 == k by {
        assert forall i :: i in value ==> i in InByte(value, k);
      }
    }

    /** The enable bit is the only bit that can change, reserved ones included. */
    method SetRxTimeout(units: nat)
      modifies this
      ensures reg == Written(old(reg), RxTimeout(units))
      ensures FieldsOf(reg) == Meant(old(FieldsOf(reg)), RxTimeout(units))
      ensures reg - Bit(RXWTOE) == old(reg) - Bit(RXWTOE)
      ensures fwto == if units > 0 then units else old(fwto)
    {
      var byte3 := InByte(reg, 3);
      var new3;
      if units > 0 {
        fwto := units;
        new3 := byte3 + {RXWTOE};
      } else {
        new3 := byte3 - {RXWTOE};
      }
      if byte3 != new3 {
        WriteByte(3, new3);
      }
      assert InByte(reg, 3) == new3 && reg - InByte(reg, 3) == old(reg - InByte(reg, 3));
      ByteThreeOnly(old(reg), reg, units > 0);
    }

    method SetFrameFilter(enable: Bits)
      modifies this`reg
      ensures reg == Written(old(reg), FrameFilter(enable))
      ensures FieldsOf(reg) == Meant(old(FieldsOf(reg)), FrameFilter(enable))
      ensures reg - Scope(FrameFilter(enable)) == (old(reg) - Scope(FrameFilter(enable))) * DEFINED
    {
      var r := reg * DEFINED;
      if enable != {} {
        r := r - FF_TYPES;
        r := r + enable * FF_TYPES + {FFE};
      } else {
        r := r - {FFE};
      }
      reg := r;
    }

    method SetAutoAck(ack: bool)
      modifies this`reg
      ensures reg == Written(old(reg), AutoAck(ack))
      ensures FieldsOf(reg) == Meant(old(FieldsOf(reg)), AutoAck(ack))
      ensures reg - Bit(AUTOACK) == (old(reg) - Bit(AUTOACK)) * DEFINED
    {
      var r := reg * DEFINED;
      if ack {
        r := r + {AUTOACK};
        reg := r;
      } else {
        r := r - {AUTOACK};
        reg := r;
      }
    }

    /** Also brings the buffer pointers together. */
    method SetDoubleBuffer(double: bool)
      modifies this`reg, this`hostPtr
      ensures hostPtr == icPtr
      ensures reg == Written(old(reg), DoubleBuffer(double))
      ensures FieldsOf(reg) == Meant(old(FieldsOf(reg)), DoubleBuffer(double))
      ensures reg - Bit(DIS_DRXB) == (old(reg) - Bit(DIS_DRXB)) * DEFINED
    {
      var r := reg * DEFINED;
      if double {
        r := r - {DIS_DRXB};
      } else {
        r := r + {DIS_DRXB};
      }
      reg := r;
      if icPtr != hostPtr {
        hostPtr := !hostPtr;
      }
    }

    method Execute(call: Setter)
      modifies this
      ensures reg == Written(old(reg), call)
      ensures FieldsOf(reg) == Meant(old(FieldsOf(reg)), call)
      ensures reg - OURS <= old(reg) - OURS && (reg - OURS) * DEFINED == (old(reg) - OURS) * DEFINED
    {
      ghost var was := reg;
      match call
      case RxTimeout(units) => SetRxTimeout(units); OutsideScope(was, reg, call);
      case FrameFilter(enable) => SetFrameFilter(enable); OutsideScope(was, reg, call);
      case AutoAck(ack) => SetAutoAck(ack); OutsideScope(was, reg, call);
      case DoubleBuffer(double) => SetDoubleBuffer(double); OutsideScope(was, reg, call);
    }

    /** Any sequence of setters leaves each field at what the record of fields says; every
        other defined bit is as it was, and no reserved bit that was clear gets set. */
    method ExecuteAll(calls: seq<Setter>)
      modifies this
      ensures FieldsOf(reg) == MeantAll(old(FieldsOf(reg)), calls)
      ensures reg - OURS <= old(reg) - OURS && (reg - OURS) * DEFINED == (old(reg) - OURS) * DEFINED
      ensures old(reg) <= DEFINED ==> reg <= DEFINED && reg - OURS == old(reg) - OURS
    {
      for k := 0 to |calls|
        invariant FieldsOf(reg) == MeantAll(old(FieldsOf(reg)), calls[..k])
        invariant reg - OURS <= old(reg) - OURS && (reg - OURS) * DEFINED == (old(reg) - OURS) * DEFINED
      {
        Execute(calls[k]);
        assert calls[..k + 1][..k] == calls[..k];
      }
      assert calls[..|calls|] == calls;
      DefinedOnly(old(reg), reg);
    }
  }

  lemma ByteThreeOnly(was: Bits, now: Bits, on: bool)
    requires InByte(now, 3) == if on then InByte(was, 3) + {RXWTOE} else InByte(was, 3) - {RXWTOE}
    requires now - InByte(now, 3) == was - InByte(was, 3)
    ensures now - Bit(RXWTOE) == was - Bit(RXWTOE) && (RXWTOE in now <==> on)
  {
    forall i: nat | i != RXWTOE
      ensures i in now <==> i in was
    {
      if i / 8 == 3 {
        assert i in InByte(now, 3) <==> i in InByte(was, 3);
      } else {
        assert i in now - InByte(now, 3) <==> i in was - InByte(was, 3);
      }
    }
    assert RXWTOE in InByte(now, 3) <==> on;
  }

  lemma OutsideScope(was: Bits, now: Bits, call: Setter)
    requires now - Scope(call) == (was - Scope(call)) * DEFINED || now - Scope(call) == was - Scope(call)
    ensures now - OURS <= was - OURS && (now - OURS) * DEFINED == (was - OURS) * DEFINED
  {
    assert Scope(call) <= OURS;
    forall i | i !in OURS
      ensures i in now ==> i in was
      ensures i in was && i in DEFINED ==> i in now
    {
      assert i in now <==> i in now - Scope(call);
      assert i in was && i in DEFINED ==> i in (was - Scope(call)) * DEFINED && i in was - Scope(call);
    }
  }

  lemma DefinedOnly(was: Bits, now: Bits)
    requires now - OURS <= was - OURS && (now - OURS) * DEFINED == (was - OURS) * DEFINED
    ensures was <= DEFINED ==> now <= DEFINED && now - OURS == was - OURS
  {
    if was <= DEFINED {
      assert (was - OURS) * DEFINED == was - OURS;
      assert OURS <= DEFINED;
      forall i | i in now
        ensures i in DEFINED
      {
        if i !in OURS {
          assert i in now - OURS && i in was - OURS;
        }
      }
      assert now - OURS <= DEFINED;
      assert (now - OURS) * DEFINED == now - OURS;
      assert now - OURS == was - OURS;
    }
  }

  // ------------------------------------------------------ independence

  datatype Field = Timeout | Filter | Types | Ack | Double

  predicate Sets(call: Setter, f: Field) {
    match f
    case Timeout => call.RxTimeout?
    case Filter => call.FrameFilter?
    case Types => call.FrameFilter? && call.enable != {}
    case Ack => call.AutoAck?
    case Double => call.DoubleBuffer?
  }

  /** `calls[k]` is the last call that sets the field. */
  predicate Last(calls: seq<Setter>, k: nat, f: Field)
    requires k < |calls|
  {
    Sets(calls[k], f) && forall j :: k < j < |calls| ==> !Sets(calls[j], f)
  }

  predicate Never(calls: seq<Setter>, f: Field) {
    forall j :: 0 <= j < |calls| ==> !Sets(calls[j], f)
  }

  /** Two readings of the register agree on the field. */
  predicate Agree(f: Field, a: Fields, b: Fields) {
    match f
    case Timeout => a.timeout == b.timeout
    case Filter => a.filter == b.filter
    case Types => a.types == b.types
    case Ack => a.ack == b.ack
    case Double => a.double == b.double
  }

  lemma OwnSetter(a: Fields, b: Fields, call: Setter, f: Field)
    ensures if Sets(call, f) then Agree(f, Meant(a, call), Meant(b, call)) else Agree(f, Meant(a, call), a)
  {
  }

  /** The field holds what the call asks for. */
  ghost predicate Obeys(f: Field, a: Fields, call: Setter)
    requires Sets(call, f)
  {
    match f
    case Timeout => a.timeout <==> call.units >= 1
    case Filter => a.filter <==> call.enable != {}
    case Types => forall i :: i in a.types <==> i in call.enable && 1 <= i <= 8
    case Ack => a.ack == call.ack
    case Double => a.double == call.double
  }

  lemma Obeyed(a: Fields, call: Setter, f: Field)
    requires Sets(call, f)
    ensures Obeys(f, Meant(a, call), call)
  {
  }

  /** Each field holds what its own last setter asks for, whatever other setters were
      called. */
  lemma {:induction false} LastSetterWins(start: Fields, calls: seq<Setter>, f: Field, k: nat)
    requires k < |calls| && Last(calls, k, f)
    ensures Obeys(f, MeantAll(start, calls), calls[k])
  {
    var n := |calls| - 1;
    OwnSetter(MeantAll(start, calls[..n]), start, calls[n], f);
    if k == n {
      Obeyed(MeantAll(start, calls[..n]), calls[n], f);
    } else {
      assert calls[..n][k] == calls[k] && Last(calls[..n], k, f);
      LastSetterWins(start, calls[..n], f, k);
    }
  }

  /** A field that is never set keeps its initial value. */
  lemma {:induction false} UnsetStays(start: Fields, calls: seq<Setter>, f: Field)
    requires Never(calls, f)
    ensures Agree(f, MeantAll(start, calls), start)
  {
    if calls != [] {
      var n := |calls| - 1;
      OwnSetter(MeantAll(start, calls[..n]), start, calls[n], f);
      assert Never(calls[..n], f);
      UnsetStays(start, calls[..n], f);
    }
  }

  /** The whole register after a setter. */
  function Written(reg: Bits, call: Setter): Bits {
    match call
    case RxTimeout(units) => (reg - {RXWTOE}) + If(units > 0, {RXWTOE})
    case FrameFilter(enable) =>
      if enable == {} then reg * DEFINED - {FFE} else (reg * DEFINED - FF_TYPES) + enable * FF_TYPES + {FFE}
    case AutoAck(ack) => (reg * DEFINED - {AUTOACK}) + If(ack, {AUTOACK})
    case DoubleBuffer(double) => (reg * DEFINED - {DIS_DRXB}) + If(!double, {DIS_DRXB})
  }

  /** The two calls give the same field different values. */
  predicate Clash(a: Setter, b: Setter) {
    match a
    case RxTimeout(units) => b.RxTimeout? && (units > 0) != (b.units > 0)
    case FrameFilter(enable) =>
      && b.FrameFilter?
      && ((enable == {}) != (b.enable == {}) || (enable != {} && enable * FF_TYPES != b.enable * FF_TYPES))
    case AutoAck(ack) => b.AutoAck? && ack != b.ack
    case DoubleBuffer(double) => b.DoubleBuffer? && double != b.double
  }

  predicate Commute(reg: Bits, a: Setter, b: Setter) {
    Written(Written(reg, a), b) == Written(Written(reg, b), a)
  }

  /** Two setters can be exchanged, whatever the register holds, reserved bits included,
      exactly when they do not give one field two values. */
  lemma CommuteIff(a: Setter, b: Setter)
    ensures (forall reg :: Commute(reg, a, b)) <==> !Clash(a, b)
  {
    if Clash(a, b) {
      ClashShows({}, a, b);
    } else {
      forall reg
        ensures Commute(reg, a, b)
      {
        Exchange(reg, a, b);
      }
    }
  }

  lemma ClashShows(reg: Bits, a: Setter, b: Setter)
    requires Clash(a, b)
    ensures !Commute(reg, a, b)
  {
    var ab, ba := Written(Written(reg, a), b), Written(Written(reg, b), a);
    match a
    case RxTimeout(units) => assert (RXWTOE in ab) != (RXWTOE in ba);
    case AutoAck(ack) => assert (AUTOACK in ab) != (AUTOACK in ba);
    case DoubleBuffer(double) => assert (DIS_DRXB in ab) != (DIS_DRXB in ba);
    case FrameFilter(enable) =>
      if (enable == {}) != (b.enable == {}) {
        assert (FFE in ab) != (FFE in ba);
      } else {
        assert ab * FF_TYPES == b.enable * FF_TYPES && ba * FF_TYPES == enable * FF_TYPES;
      }
  }

  lemma Exchange(reg: Bits, a: Setter, b: Setter)
    requires !Clash(a, b)
    ensures Commute(reg, a, b)
  {
    var ab, ba := Written(Written(reg, a), b), Written(Written(reg, b), a);
    assert ab <= ba && ba <= ab;
  }
}
