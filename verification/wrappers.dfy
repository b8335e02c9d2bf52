/** Small outcome types shared by the ledger modules. */
module Wrappers {

  /** A value that may be absent (Java's `null` return). */
  datatype Option<+T> = None | Some(value: T)

  /** A computation that either succeeds or reports an error. */
  datatype Result<+T, +E> = Ok(value: T) | Err(error: E)

  /**
   * What a line decoder produces: a value, the `null` that the decoders
   * return when a line has too few fields, or the unchecked exception
   * (a bad number or date) that escapes the decoder.
   */
  datatype LineResult<+T> = Parsed(value: T) | Skipped | Malformed

  /** `f` applied to each element of `xs`, in order. */
  function MapSeq<A, B>(f: A -> B, xs: seq<A>): (ys: seq<B>)
    ensures |ys| == |xs| && forall k :: 0 <= k < |xs| ==> ys[k] == f(xs[k])
  {
    seq(|xs|, k requires 0 <= k < |xs| => f(xs[k]))
  }

  /** Mapping one more element of a prefix appends its image. */
  lemma MapSeqStep<A, B>(f: A -> B, xs: seq<A>, i: nat)
    requires i < |xs|
    ensures MapSeq(f, xs[..i + 1]) == MapSeq(f, xs[..i]) + [f(xs[i])]
  {
    var (longer, shorter) := (MapSeq(f, xs[..i + 1]), MapSeq(f, xs[..i]));
    assert forall k :: 0 <= k < i ==> longer[k] == shorter[k];
  }
}
