/** Shared vocabulary: optional values, results, and the outcome of a
    computation that may panic (a Rust `panic!`, `unwrap` or `expect`
    failure, or a checked `u64` subtraction that goes below zero). */
module Common {

  /** The largest value of a Rust `u64`. */
  const U64_MAX: nat := 0xFFFF_FFFF_FFFF_FFFF

  datatype Option<+T> = None | Some(value: T)

  datatype Result<+T, +E> = Ok(value: T) | Err(error: E)

  /** What a Rust function call ends in: it returns a value, or it panics
      with a message (the process would unwind from there). */
  datatype Outcome<+T> = Return(value: T) | Panic(reason: string)

  /** Checked `u64` subtraction `a - b` (what a debug build does). */
  function CheckedSub(a: nat, b: nat): (r: Outcome<nat>)
    ensures r.Return? <==> b <= a
    ensures r.Return? ==> r.value + b == a
  {
    if b <= a then Return(a - b) else Panic("attempt to subtract with overflow")
  }

  function Max(a: nat, b: nat): (m: nat)
    ensures m >= a && m >= b && (m == a || m == b)
  {
    if a >= b then a else b
  }
}
