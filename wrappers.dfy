/** Small generic helpers shared by the editor model. */
module Wrappers {

  /** A value that may be absent (`undefined` or `null` in the editor). */
  datatype Option<T> = None | Some(value: T) {
    function GetOr(default: T): T {
      if Some? then value else default
    }
  }

  /** `Array.prototype.filter`: the elements of `s` that satisfy `keep`, in their order. */
  function Filter<T(!new)>(s: seq<T>, keep: T -> bool): (r: seq<T>)
    ensures |r| <= |s|
    ensures forall x :: x in r <==> x in s && keep(x)
  {
    if s == [] then []
    else (if keep(s[0]) then [s[0]] else []) + Filter(s[1..], keep)
  }

  /** Filtering commutes with concatenation, so the kept elements stay in their relative order. */
  lemma {:induction false} FilterAppend<T(!new)>(a: seq<T>, b: seq<T>, keep: T -> bool)
    ensures Filter(a + b, keep) == Filter(a, keep) + Filter(b, keep)
  {
    if a == [] {
      assert a + b == b;
    } else {
      assert (a + b)[1..] == a[1..] + b;
      FilterAppend(a[1..], b, keep);
    }
  }

  /** A filter that rejects nothing returns its input unchanged. */
  lemma {:induction false} FilterKeepsAll<T(!new)>(s: seq<T>, keep: T -> bool)
    requires forall x :: x in s ==> keep(x)
    ensures Filter(s, keep) == s
  {
    if s != [] {
      FilterKeepsAll(s[1..], keep);
    }
  }

  /** One more element adds one to the count exactly when it satisfies `p`. */
  lemma CountSnoc<T(!new)>(s: seq<T>, x: T, p: T -> bool)
    ensures Count(s + [x], p) == Count(s, p) + (if p(x) then 1 else 0)
  {
    FilterAppend(s, [x], p);
    assert Filter([x], p) == (if p(x) then [x] else []) + Filter([x][1..], p);
  }

  /** The number of elements of `s` that satisfy `p`. */
  function Count<T(!new)>(s: seq<T>, p: T -> bool): nat
  {
    |Filter(s, p)|
  }
}
