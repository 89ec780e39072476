/** AdapterUtil.cs: the truthiness filter every adaptor result goes through. */
module AdapterUtil {

  import opened Host

  /** `NullIfEmpty`: null and falsy values become null; truthy values pass through as they are. */
  function NullIfEmpty(isTrue: Truthiness, v: Value): (r: Value)
    ensures r == Null || r == v
    ensures r != Null <==> v != Null && isTrue(v)
  {
    if v == Null then Null
    else if isTrue(v) then v
    else Null
  }

  /** Filtering twice is filtering once: the result is either null or the input itself. */
  lemma NullIfEmptyIdempotent(isTrue: Truthiness, v: Value)
    ensures NullIfEmpty(isTrue, NullIfEmpty(isTrue, v)) == NullIfEmpty(isTrue, v)
  {
  }
}
