/** Python's `None` and raised exceptions, as values. */
module Wrappers {
  datatype Option<+T> = None | Some(value: T)

  /** The outcome of a call that may raise: the value, or the exception's `str()`. */
  datatype Result<+T> = Ok(value: T) | Err(error: string)

  /** The present values, in order: a loop that appends only what it managed to build. */
  function Somes<T>(s: seq<Option<T>>): (r: seq<T>)
    ensures |r| <= |s|
  {
    if s == [] then []
    else
      var n := |s| - 1;
      if s[n].Some? then Somes(s[..n]) + [s[n].value] else Somes(s[..n])
  }

  /** A value is kept exactly when it is present somewhere. */
  lemma {:induction false} SomesMembers<T>(s: seq<Option<T>>, x: T)
    ensures x in Somes(s) <==> Some(x) in s
  {
    if s != [] {
      var n := |s| - 1;
      SomesMembers(s[..n], x);
      assert s == s[..n] + [s[n]];
    }
  }
}
