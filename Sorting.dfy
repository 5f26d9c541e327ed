/**
 * Python's `sorted(xs, key=..., reverse=True)` as an insertion sort: an element
 * goes in front of the first one it is at least as large as. A `ge` that is total
 * and transitive yields a descending permutation of the input.
 */
module Sorting {

  ghost predicate Total<T(!new)>(ge: (T, T) -> bool) {
    forall a, b :: ge(a, b) || ge(b, a)
  }

  ghost predicate Transitive<T(!new)>(ge: (T, T) -> bool) {
    forall a, b, c :: ge(a, b) && ge(b, c) ==> ge(a, c)
  }

  /** Every element is at least as large as every later one. */
  ghost predicate Descending<T>(s: seq<T>, ge: (T, T) -> bool) {
    forall i, j :: 0 <= i < j < |s| ==> ge(s[i], s[j])
  }

  function Insert<T>(x: T, s: seq<T>, ge: (T, T) -> bool): (r: seq<T>)
    ensures multiset(r) == multiset(s) + multiset{x}
  {
    if s == [] then [x]
    else if ge(x, s[0]) then [x] + s
    else
      assert s == [s[0]] + s[1..];
      [s[0]] + Insert(x, s[1..], ge)
  }

  function Sort<T>(s: seq<T>, ge: (T, T) -> bool): (r: seq<T>)
    ensures multiset(r) == multiset(s)
  {
    if s == [] then []
    else
      assert s == [s[0]] + s[1..];
      Insert(s[0], Sort(s[1..], ge), ge)
  }

  lemma {:induction false} InsertDescending<T(!new)>(x: T, s: seq<T>, ge: (T, T) -> bool)
    requires Total(ge) && Transitive(ge) && Descending(s, ge)
    ensures Descending(Insert(x, s, ge), ge)
  {
    if s != [] && !ge(x, s[0]) {
      var rest := Insert(x, s[1..], ge);
      InsertDescending(x, s[1..], ge);
      assert ge(s[0], x);
      forall k | 0 <= k < |rest|
        ensures ge(s[0], rest[k])
      {
        assert rest[k] in multiset(rest);
        if rest[k] != x {
          assert rest[k] in multiset(s[1..]);
          var j :| 0 <= j < |s[1..]| && s[1..][j] == rest[k];
          assert s[j + 1] == rest[k];
        }
      }
    }
  }

  /** The output is ordered largest first. */
  lemma {:induction false} SortDescending<T(!new)>(s: seq<T>, ge: (T, T) -> bool)
    requires Total(ge) && Transitive(ge)
    ensures Descending(Sort(s, ge), ge)
  {
    if s != [] {
      SortDescending(s[1..], ge);
      InsertDescending(s[0], Sort(s[1..], ge), ge);
    }
  }
}
