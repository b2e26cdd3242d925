/** The array methods the helpers and the applications use on lists. */
module JsArray {
  /** `array.filter(keep)` */
  function Filter<T(!new)>(s: seq<T>, keep: T -> bool): (r: seq<T>)
    ensures |r| <= |s|
    ensures forall x :: x in r <==> x in s && keep(x)
  {
    if s == [] then [] else (if keep(s[0]) then [s[0]] else []) + Filter(s[1..], keep)
  }

  lemma {:induction false} FilterAppend<T(!new)>(a: seq<T>, b: seq<T>, keep: T -> bool)
    ensures Filter(a + b, keep) == Filter(a, keep) + Filter(b, keep)
  {
    if a != [] {
      assert (a + b)[1..] == a[1..] + b;
      FilterAppend(a[1..], b, keep);
    } else {
      assert a + b == b;
    }
  }

  lemma {:induction false} FilterIdempotent<T(!new)>(s: seq<T>, keep: T -> bool)
    ensures Filter(Filter(s, keep), keep) == Filter(s, keep)
  {
    if s != [] {
      FilterIdempotent(s[1..], keep);
      var f := Filter(s, keep);
      if keep(s[0]) {
        assert f == [s[0]] + Filter(s[1..], keep);
        assert f[0] == s[0] && f[1..] == Filter(s[1..], keep);
        assert Filter(f, keep) == [f[0]] + Filter(f[1..], keep);
      } else {
        assert f == Filter(s[1..], keep);
      }
    }
  }
}
