/** A 32-bit register as the set of positions of its one bits, with the event bits of
    SYS_STATUS and SYS_MASK, which share their layout. */
module RegisterBits {
  type Bits = set<nat>

  /** `value & bits` is not zero. */
  predicate Has(value: Bits, bits: Bits) {
    exists i :: i in bits && i in value
  }

  /** The part of a value that a one-byte access at offset `k` covers. */
  function InByte(value: Bits, k: nat): Bits {
    set i | i in value && i / 8 == k
  }

  function If(b: bool, bits: Bits): Bits {
    if b then bits else {}
  }

  const CPLOCK: Bits := {1}
  const AAT: Bits := {3}
  const TXFRB: Bits := {4}
  const TXFRS: Bits := {7}
  const RXPHD: Bits := {11}
  const RXDFR: Bits := {13}
  const RXFCG: Bits := {14}
  const LDEERR: Bits := {18}
  const RXOVRR: Bits := {20}
  const SLP2INIT: Bits := {23}
  const CLKPLL_LL: Bits := {25}
  const TXBERR: Bits := {28}

  /** RXPRD, RXSFDD, RXPHD, RXDFR, RXFCG. */
  const ALL_RX_GOOD: Bits := {8, 9, 11, 13, 14}
  /** AAT, TXFRB, TXPRS, TXPHS, TXFRS. */
  const ALL_TX: Bits := {3, 4, 5, 6, 7}
  /** RXPHE, RXFCE, RXRFSL, RXOVRR, RXSFDTO, AFFREJ. */
  const ALL_RX_ERR: Bits := {12, 15, 16, 20, 26, 29}
  /** RXRFTO, RXPTO. */
  const ALL_RX_TO: Bits := {17, 21}
  /** The flags of one received frame: LDEDONE, RXDFR, RXFCG, RXFCE. */
  const FRAME_BITS: Bits := {10, 13, 14, 15}
  /** CPLOCK, RXDFR, LDEERR, TXFRB, TXFRS, receive timeouts and errors, TXBERR. */
  const ENABLED: Bits := {1, 4, 7, 12, 13, 15, 16, 17, 18, 20, 21, 26, 28, 29}
}
