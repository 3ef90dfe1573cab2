/** Small shared vocabulary: optional values, results with an error, and the
    confidence levels the analyzers attach to their recommendations. */
module Basics {

  /** Python's `None` or a present value. */
  datatype Option<+T> = None | Some(value: T) {
    function GetOr(default: T): T {
      match this
      case Some(v) => v
      case None => default
    }
  }

  /** The outcome of an operation that raises in the original program. */
  datatype Result<+T, +E> = Ok(value: T) | Err(error: E)

  /** Confidence labels: HIGH, MEDIUM, LOW and NEUTRAL. */
  datatype Confidence = High | Medium | Low | Neutral

  /** The mint-arbitrage recommendations "MINT & SELL", "HOLD VVV" and
      "MONITOR". */
  datatype MintAction = MintAndSell | HoldVvv | Monitor

  /** Python truthiness of an optional number: `None` and `0` are falsy. */
  predicate TruthyReal(x: Option<real>) {
    x.Some? && x.value != 0.0
  }

  /** Python truthiness of an optional string: `None` and `""` are falsy. */
  predicate TruthyString(x: Option<string>) {
    x.Some? && |x.value| > 0
  }

  /** Python's `a in b` on strings: `a` occurs as a contiguous substring of `b`. */
  predicate Contains(b: string, a: string) {
    exists i :: 0 <= i <= |b| - |a| && OccursAt(b, a, i)
  }

  /** `a` occurs in `b` starting at index `i`. */
  predicate OccursAt(b: string, a: string, i: int)
    requires 0 <= i <= |b| - |a|
  {
    b[i..i + |a|] == a
  }

  function Max(a: real, b: real): (r: real)
    ensures r >= a && r >= b
    ensures r == a || r == b
  {
    if a >= b then a else b
  }
}
