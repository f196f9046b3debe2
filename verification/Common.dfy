/** Small vocabulary shared by every component of the model. */
module Common {

  datatype Option<+T> = None | Some(value: T)

  datatype Result<+T, +E> = Ok(value: T) | Err(error: E)

  /** Python's `needle in text` on strings. */
  predicate Contains(text: string, needle: string) {
    exists i :: 0 <= i <= |text| && needle <= text[i..]
  }

  /** ... which means that the text is the needle with something before and behind it. */
  lemma ContainsIff(text: string, needle: string)
    ensures Contains(text, needle) <==> exists left, right :: text == left + (needle + right)
  {
    if Contains(text, needle) {
      var i :| 0 <= i <= |text| && needle <= text[i..];
      assert text == text[..i] + (needle + text[i..][|needle|..]);
    }
    if exists left, right :: text == left + (needle + right) {
      var left, right :| text == left + (needle + right);
      assert text[|left|..] == needle + right;
    }
  }

  lemma SubsetSize<T>(a: set<T>, b: set<T>)
    requires a <= b
    ensures |a| <= |b|
  {
    assert |b| == |a| + |b - a| by { assert a + (b - a) == b; }
  }
}
