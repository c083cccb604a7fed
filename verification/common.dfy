/** What several modules share. */
module Common {
  type byte = b: nat | b < 256 witness 0

  datatype Option<T> = None | Some(value: T)

  function Min(a: nat, b: nat): nat {
    if a < b then a else b
  }
}
