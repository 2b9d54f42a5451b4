/** Small shared vocabulary: optional values, results, and two facts about sequences. */
module Prelude {
  datatype Option<+T> = None | Some(value: T)

  datatype Result<+T, +E> = Ok(value: T) | Failed(error: E)

  function Min(a: int, b: int): int { if a < b then a else b }

  function Max(a: int, b: int): int { if a < b then b else a }

  predicate StartsWith(s: string, p: string) { |p| <= |s| && s[..|p|] == p }

  lemma Regroup<T>(x: seq<T>, y: seq<T>, z: seq<T>)
    ensures x + y + z == x + (y + z)
  {
  }

  /** The first `n` elements, or the whole sequence when it is shorter. */
  function Take<T>(s: seq<T>, n: nat): seq<T> { s[..Min(n, |s|)] }
}
