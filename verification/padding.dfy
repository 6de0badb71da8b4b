/**
  `has_size`: the normalisation that fits every metadata list of the
  container to the number of channels.
 */
module Padding {
  import opened Common

  /** `r` is `v` cut or padded with `token` to exactly `size` entries. */
  ghost predicate FittedTo<T>(r: seq<T>, v: seq<T>, size: nat, token: T) {
    && |r| == size
    && forall i :: 0 <= i < size ==> r[i] == (if i < |v| then v[i] else token)
  }

  /** Truncates `v` to `size` entries, or pads it at the end with `token`.
      Padding reads `v[0]` to check the token's type, so padding an empty
      list raises IndexError. */
  function HasSize<T>(v: seq<T>, size: nat, token: T): (r: Result<seq<T>>)
    ensures r.Failure? <==> |v| == 0 && size > 0
    ensures r.Failure? ==> r.error == IndexError
    ensures r.Success? ==> FittedTo(r.value, v, size, token)
  {
    var cut := if |v| > size then v[..size] else v;
    if |cut| < size then
      if |cut| == 0 then Failure(IndexError)
      else Success(cut + seq(size - |cut|, _ => token))
    else Success(cut)
  }

  /** A list of the right length passes through unchanged, so fitting is
      idempotent. */
  lemma HasSizeIdempotent<T>(v: seq<T>, size: nat, token: T)
    requires HasSize(v, size, token).Success?
    ensures HasSize(HasSize(v, size, token).value, size, token) == HasSize(v, size, token)
  {
    var r := HasSize(v, size, token).value;
    assert |r| == size;
  }
}
