/** Values shared by every component of the model. */
module Wrappers {

  datatype Option<+T> = None | Some(value: T)

  datatype Result<+T, +E> = Ok(value: T) | Err(error: E)

  /** What the network does to one remote call: the callee runs it and the answer arrives,
      the request never reaches the callee, or the callee runs it and the answer is lost. */
  datatype Net = Delivered | RequestLost | ReplyLost

  const U64_MAX: nat := 0xffff_ffff_ffff_ffff

  /** Rust's saturating_add on u64 (and on usize, on the 64-bit targets the node runs on). */
  function SaturatingAdd(a: nat, b: nat): (r: nat)
    ensures r <= U64_MAX
    ensures a + b <= U64_MAX ==> r == a + b
    ensures a + b > U64_MAX ==> r == U64_MAX
  {
    if a + b <= U64_MAX then a + b else U64_MAX
  }

  function Max(a: nat, b: nat): nat {
    if a < b then b else a
  }

  function Min(a: nat, b: nat): nat {
    if a < b then a else b
  }
}
