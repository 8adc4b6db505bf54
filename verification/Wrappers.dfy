/** The two failure-compatible datatypes the model uses, a maximum, and prefixes of sequences. */
module Wrappers {

  datatype Option<+T> = None | Some(value: T)

  datatype Result<+T, +E> = Success(value: T) | Failure(error: E)

  function Max(a: int, b: int): int { if a >= b then a else b }

  /** Growing a prefix by one element, for loops over a sequence. */
  lemma TakeOne<T>(s: seq<T>, i: nat)
    requires i < |s|
    ensures s[..i] + [s[i]] == s[..i + 1]
    ensures s[..i] + [s[i]] + s[i + 1..] == s
  {}

  lemma TakeAll<T>(s: seq<T>)
    ensures s[..|s|] == s
  {}
}
