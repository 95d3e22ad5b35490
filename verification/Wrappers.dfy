// Shared value types: optional values, fallible results, and the
// fixed-width ranges the modelled code stores its counters in; and the
// associativity of concatenation, which the verifier applies only when told.
module Wrappers {
  datatype Option<+T> = None | Some(value: T)

  datatype Result<+T, +E> = Ok(value: T) | Err(error: E)

  const U32_SPAN: nat := 0x1_0000_0000
  const U64_SPAN: nat := 0x1_0000_0000_0000_0000

  const NANOS_PER_MILLI: nat := 1_000_000

  type byte = x: nat | x < 256
  type u32 = x: nat | x < U32_SPAN
  type u64 = x: nat | x < U64_SPAN

  lemma Regroup<T>(a: seq<T>, b: seq<T>, c: seq<T>)
    ensures a + (b + c) == (a + b) + c
  {
  }
}
