/**
  Plain JavaScript objects, as the stream helpers build them with
  `reduce` and object spread: the list of own properties in the order they
  were created. `{ ...acc, [k]: v }` keeps the position of an existing key
  `k` and replaces its value, or appends `k` at the end (`Put`).

  Creation order is not enumeration order: `Object.keys`, `for…in` and
  spreading list the keys that are array indices first, in ascending
  numeric order, then the other keys in creation order (ECMAScript 2022,
  section 10.1.11.1, OrdinaryOwnPropertyKeys). `OwnOrder` gives that order;
  every enumeration in the model goes through it.
 */
module JsObject {

  datatype Option<T> = None | Some(value: T)

  /** An object's own enumerable properties, in creation order. */
  type Obj<V> = seq<(string, V)>

  /** A JavaScript object never holds the same key twice. */
  ghost predicate WellFormed<V>(o: Obj<V>)
  {
    forall i, j :: 0 <= i < j < |o| ==> o[i].0 != o[j].0
  }

  predicate Has<V>(o: Obj<V>, k: string)
  {
    exists i :: 0 <= i < |o| && o[i].0 == k
  }

  /** `Object.keys(o)` */
  function Keys<V>(o: Obj<V>): (ks: seq<string>)
    ensures |ks| == |o|
    ensures forall i :: 0 <= i < |o| ==> ks[i] == o[i].0
  {
    if o == [] then [] else [o[0].0] + Keys(o[1..])
  }

  /** `o[k]` for an own property, `None` when `o` has no key `k`. */
  function Get<V>(o: Obj<V>, k: string): (r: Option<V>)
    ensures r.Some? <==> Has(o, k)
  {
    if o == [] then None
    else
      HasTail(o, k);
      if o[0].0 == k then Some(o[0].1) else Get(o[1..], k)
  }

  lemma {:induction false} HasTail<V>(o: Obj<V>, k: string)
    requires o != []
    ensures Has(o, k) <==> o[0].0 == k || Has(o[1..], k)
  {
    if Has(o, k) && o[0].0 != k {
      var i :| 0 <= i < |o| && o[i].0 == k;
      assert o[1..][i - 1].0 == k;
    }
    if Has(o[1..], k) {
      var i :| 0 <= i < |o[1..]| && o[1..][i].0 == k;
      assert o[i + 1].0 == k;
    }
  }

  /** In a well-formed object, `Get` finds the value stored beside the key. */
  lemma {:induction false} GetAt<V>(o: Obj<V>, i: nat)
    requires WellFormed(o) && i < |o|
    ensures Get(o, o[i].0) == Some(o[i].1)
  {
    if i > 0 {
      assert o[1..][i - 1] == o[i];
      GetAt(o[1..], i - 1);
    }
  }

  /** `{ ...o, [k]: v }` */
  function Put<V>(o: Obj<V>, k: string, v: V): (r: Obj<V>)
    ensures |r| == if Has(o, k) then |o| else |o| + 1
  {
    if o == [] then [(k, v)]
    else
      HasTail(o, k);
      if o[0].0 == k then [(k, v)] + o[1..] else [o[0]] + Put(o[1..], k, v)
  }

  lemma {:induction false} PutGet<V>(o: Obj<V>, k: string, v: V, j: string)
    ensures Get(Put(o, k, v), j) == if j == k then Some(v) else Get(o, j)
  {
    if o != [] && o[0].0 != k {
      PutGet(o[1..], k, v, j);
      assert Put(o, k, v)[1..] == Put(o[1..], k, v);
    } else if o != [] {
      assert Put(o, k, v)[1..] == o[1..];
    }
  }

  lemma PutHas<V>(o: Obj<V>, k: string, v: V, j: string)
    ensures Has(Put(o, k, v), j) <==> Has(o, j) || j == k
  {
    PutGet(o, k, v, j);
  }

  lemma {:induction false} PutKeys<V>(o: Obj<V>, k: string, v: V)
    ensures Keys(Put(o, k, v)) == if Has(o, k) then Keys(o) else Keys(o) + [k]
  {
    if o != [] {
      HasTail(o, k);
      if o[0].0 != k {
        PutKeys(o[1..], k, v);
        assert Put(o, k, v)[1..] == Put(o[1..], k, v);
      } else {
        assert Put(o, k, v)[1..] == o[1..];
      }
    }
  }

  lemma {:induction false} PutWellFormed<V>(o: Obj<V>, k: string, v: V)
    requires WellFormed(o)
    ensures WellFormed(Put(o, k, v))
  {
    var r := Put(o, k, v);
    PutKeys(o, k, v);
    var ks := Keys(r);
    forall i, j | 0 <= i < j < |r| ensures r[i].0 != r[j].0 {
      assert ks[i] == r[i].0 && ks[j] == r[j].0;
      if !Has(o, k) && j == |o| {
        assert ks[i] == Keys(o)[i] == o[i].0;
      } else {
        assert ks[i] == o[i].0 && ks[j] == o[j].0;
      }
    }
  }

  /** `{ ...a, ...b }`: the properties of `b` assigned, in order, onto a copy of `a`. */
  function Spread<V>(a: Obj<V>, b: Obj<V>): (r: Obj<V>)
    decreases |b|
  {
    if b == [] then a else Put(Spread(a, b[..|b| - 1]), b[|b| - 1].0, b[|b| - 1].1)
  }

  lemma {:induction false} HasLast<V>(o: Obj<V>, k: string)
    requires o != []
    ensures Has(o, k) <==> Has(o[..|o| - 1], k) || o[|o| - 1].0 == k
  {
    if Has(o, k) {
      var i :| 0 <= i < |o| && o[i].0 == k;
      if i < |o| - 1 { assert o[..|o| - 1][i].0 == k; }
    }
    if Has(o[..|o| - 1], k) {
      var i :| 0 <= i < |o| - 1 && o[..|o| - 1][i].0 == k;
      assert o[i].0 == k;
    }
  }

  /** The spread keeps every key of either side, and the value of `b` wins. */
  lemma {:induction false} SpreadGet<V>(a: Obj<V>, b: Obj<V>, k: string)
    requires WellFormed(b)
    ensures Get(Spread(a, b), k) == if Has(b, k) then Get(b, k) else Get(a, k)
    decreases |b|
  {
    if b != [] {
      var init, last := b[..|b| - 1], b[|b| - 1];
      assert WellFormed(init);
      SpreadGet(a, init, k);
      PutGet(Spread(a, init), last.0, last.1, k);
      HasLast(b, k);
      if k == last.0 {
        GetAt(b, |b| - 1);
      } else if Has(init, k) {
        var i :| 0 <= i < |init| && init[i].0 == k;
        GetAt(init, i);
        GetAt(b, i);
      }
    }
  }

  lemma {:induction false} SpreadWellFormed<V>(a: Obj<V>, b: Obj<V>)
    requires WellFormed(a)
    ensures WellFormed(Spread(a, b))
    decreases |b|
  {
    if b != [] {
      SpreadWellFormed(a, b[..|b| - 1]);
      PutWellFormed(Spread(a, b[..|b| - 1]), b[|b| - 1].0, b[|b| - 1].1);
    }
  }

  /** The spread has the keys of both sides. */
  lemma SpreadHas<V>(a: Obj<V>, b: Obj<V>, k: string)
    requires WellFormed(b)
    ensures Has(Spread(a, b), k) <==> Has(a, k) || Has(b, k)
  {
    SpreadGet(a, b, k);
  }

  /** Every character of `k` is a decimal digit. */
  predicate AllDigits(k: string)
  {
    k == [] || (AllDigits(k[..|k| - 1]) && '0' <= k[|k| - 1] <= '9')
  }

  /** The number a string of decimal digits spells. */
  function DecimalValue(k: string): nat
    requires AllDigits(k)
  {
    if k == [] then 0 else 10 * DecimalValue(k[..|k| - 1]) + (k[|k| - 1] as int - '0' as int)
  }

  function DigitChar(d: nat): char
    requires d < 10
  {
    "0123456789"[d]
  }

  /** `String(n)` for a natural number. */
  function DecimalString(n: nat): string
    decreases n
  {
    if n < 10 then [DigitChar(n)] else DecimalString(n / 10) + [DigitChar(n % 10)]
  }

  /**
    `String(n)` spells `n`: its digits read back as `n`, and it starts with
    `0` only for zero itself, so it is the canonical form.
   */
  lemma {:induction false} DecimalRoundTrip(n: nat)
    ensures DecimalString(n) != [] && AllDigits(DecimalString(n))
    ensures DecimalValue(DecimalString(n)) == n
    ensures DecimalString(n)[0] == '0' ==> n == 0
    decreases n
  {
    var s := DecimalString(n);
    if n >= 10 {
      DecimalRoundTrip(n / 10);
      var init := DecimalString(n / 10);
      assert s[..|s| - 1] == init;
      assert s[0] == init[0];
    }
  }

  /**
    An array index: the canonical decimal form of an integer below
    2^32 - 1, with no sign and no leading zero.
   */
  predicate IsArrayIndex(k: string)
  {
    && k != []
    && AllDigits(k)
    && (k[0] == '0' ==> |k| == 1)
    && DecimalValue(k) < 0xFFFF_FFFF
  }

  /** The numeric value enumeration sorts array-index keys by. */
  function IndexValue(k: string): nat
  {
    if IsArrayIndex(k) then DecimalValue(k) else 0
  }

  /** The entries whose keys are array indices, in creation order. */
  function IndexEntries<V(!new)>(o: Obj<V>): (r: Obj<V>)
    ensures forall x :: x in r <==> x in o && IsArrayIndex(x.0)
  {
    if o == [] then [] else (if IsArrayIndex(o[0].0) then [o[0]] else []) + IndexEntries(o[1..])
  }

  /** The other entries, in creation order. */
  function NamedEntries<V(!new)>(o: Obj<V>): (r: Obj<V>)
    ensures forall x :: x in r <==> x in o && !IsArrayIndex(x.0)
  {
    if o == [] then [] else (if IsArrayIndex(o[0].0) then [] else [o[0]]) + NamedEntries(o[1..])
  }

  /** Entries in ascending order of their index values. */
  ghost predicate IndexSorted<V(!new)>(s: Obj<V>)
  {
    forall i, j :: 0 <= i < j < |s| ==> IndexValue(s[i].0) <= IndexValue(s[j].0)
  }

  /** Inserts `e` before the first entry with a larger index value. */
  function InsertIndex<V(!new)>(e: (string, V), s: Obj<V>): (r: Obj<V>)
    ensures forall x :: x in r <==> x == e || x in s
  {
    if s == [] then [e]
    else if IndexValue(e.0) <= IndexValue(s[0].0) then [e] + s
    else [s[0]] + InsertIndex(e, s[1..])
  }

  /** Insertion sort on the index values. */
  function SortIndices<V(!new)>(s: Obj<V>): (r: Obj<V>)
  {
    if s == [] then [] else InsertIndex(s[0], SortIndices(s[1..]))
  }

  lemma {:induction false} InsertPermutes<V(!new)>(e: (string, V), s: Obj<V>)
    ensures multiset(InsertIndex(e, s)) == multiset(s) + multiset{e}
  {
    if s != [] && IndexValue(e.0) > IndexValue(s[0].0) {
      InsertPermutes(e, s[1..]);
      assert s == [s[0]] + s[1..];
    }
  }

  lemma {:induction false} InsertSorted<V(!new)>(e: (string, V), s: Obj<V>)
    requires IndexSorted(s)
    ensures IndexSorted(InsertIndex(e, s))
  {
    if s != [] && IndexValue(e.0) > IndexValue(s[0].0) {
      var t := s[1..];
      assert IndexSorted(t) by {
        forall i, j | 0 <= i < j < |t| ensures IndexValue(t[i].0) <= IndexValue(t[j].0) {
          assert t[i] == s[i + 1] && t[j] == s[j + 1];
        }
      }
      InsertSorted(e, t);
      forall x | x in InsertIndex(e, t) ensures IndexValue(s[0].0) <= IndexValue(x.0) {
        if x != e {
          var j :| 0 <= j < |t| && t[j] == x;
          assert s[j + 1] == x;
        }
      }
      ConsSorted(s[0], InsertIndex(e, t));
    } else if s != [] {
      forall x | x in s ensures IndexValue(e.0) <= IndexValue(x.0) {
        var j :| 0 <= j < |s| && s[j] == x;
        assert j == 0 || IndexValue(s[0].0) <= IndexValue(s[j].0);
      }
      ConsSorted(e, s);
    }
  }

  /** `[x] + u` is sorted when `u` is and nothing in `u` sorts before `x`. */
  lemma ConsSorted<V(!new)>(x: (string, V), u: Obj<V>)
    requires IndexSorted(u) && forall y :: y in u ==> IndexValue(x.0) <= IndexValue(y.0)
    ensures IndexSorted([x] + u)
  {
    var r := [x] + u;
    forall i, j | 0 <= i < j < |r| ensures IndexValue(r[i].0) <= IndexValue(r[j].0) {
      if i == 0 {
        assert r[j] == u[j - 1] && r[j] in u;
      } else {
        assert r[i] == u[i - 1] && r[j] == u[j - 1];
      }
    }
  }

  /** Sorting keeps the entries and orders them by index value. */
  lemma {:induction false} SortSpec<V(!new)>(s: Obj<V>)
    ensures multiset(SortIndices(s)) == multiset(s)
    ensures IndexSorted(SortIndices(s))
  {
    if s != [] {
      SortSpec(s[1..]);
      InsertPermutes(s[0], SortIndices(s[1..]));
      InsertSorted(s[0], SortIndices(s[1..]));
      assert s == [s[0]] + s[1..];
    }
  }

  /** The entries of `o` in the order `Object.keys(o)` lists them. */
  function OwnOrder<V(!new)>(o: Obj<V>): Obj<V>
  {
    SortIndices(IndexEntries(o)) + NamedEntries(o)
  }

  lemma {:induction false} SplitPermutes<V(!new)>(o: Obj<V>)
    ensures multiset(IndexEntries(o)) + multiset(NamedEntries(o)) == multiset(o)
  {
    if o != [] {
      SplitPermutes(o[1..]);
      assert o == [o[0]] + o[1..];
    }
  }

  /** Enumeration lists every entry exactly once: the result is a permutation. */
  lemma OwnOrderPermutes<V(!new)>(o: Obj<V>)
    ensures multiset(OwnOrder(o)) == multiset(o)
    ensures |OwnOrder(o)| == |o|
    ensures forall x :: x in OwnOrder(o) <==> x in o
  {
    SplitPermutes(o);
    SortSpec(IndexEntries(o));
    assert |OwnOrder(o)| == |multiset(OwnOrder(o))| == |multiset(o)| == |o|;
    forall x ensures x in OwnOrder(o) <==> x in o {
      assert x in OwnOrder(o) <==> x in multiset(OwnOrder(o));
    }
  }

  /** Where an entry of `o` is listed by the enumeration. */
  lemma EnumeratedAt<V(!new)>(o: Obj<V>, i: nat) returns (j: nat)
    requires i < |o|
    ensures j < |OwnOrder(o)| && OwnOrder(o)[j] == o[i]
  {
    OwnOrderPermutes(o);
    assert o[i] in OwnOrder(o);
    j :| 0 <= j < |OwnOrder(o)| && OwnOrder(o)[j] == o[i];
  }

  /** Where an enumerated entry sits in `o`. */
  lemma EnumeratedFrom<V(!new)>(o: Obj<V>, j: nat) returns (i: nat)
    requires j < |OwnOrder(o)|
    ensures i < |o| && o[i] == OwnOrder(o)[j]
  {
    OwnOrderPermutes(o);
    assert OwnOrder(o)[j] in o;
    i :| 0 <= i < |o| && o[i] == OwnOrder(o)[j];
  }

  /**
    Array-index keys come first, in ascending numeric order, and the other
    keys keep their creation order.
   */
  lemma OwnOrderSpec<V(!new)>(o: Obj<V>)
    ensures var r := OwnOrder(o);
      forall i, j :: 0 <= i < j < |r| && IsArrayIndex(r[j].0) ==>
        IsArrayIndex(r[i].0) && IndexValue(r[i].0) <= IndexValue(r[j].0)
    ensures NamedEntries(OwnOrder(o)) == NamedEntries(o)
  {
    var s, n := SortIndices(IndexEntries(o)), NamedEntries(o);
    var r := s + n;
    SortSpec(IndexEntries(o));
    assert forall x :: x in s ==> x in multiset(IndexEntries(o));
    forall i, j | 0 <= i < j < |r| && IsArrayIndex(r[j].0)
      ensures IsArrayIndex(r[i].0) && IndexValue(r[i].0) <= IndexValue(r[j].0)
    {
      assert r[j] !in n;
      assert r[j] == s[j] && r[i] == s[i];
      assert r[i] in s;
    }
    NamedAppend(s, n);
    NamedNone(s);
    NamedAll(n);
  }

  lemma {:induction false} NamedAppend<V(!new)>(a: Obj<V>, b: Obj<V>)
    ensures NamedEntries(a + b) == NamedEntries(a) + NamedEntries(b)
  {
    if a != [] {
      var head := if IsArrayIndex(a[0].0) then [] else [a[0]];
      assert (a + b)[0] == a[0] && (a + b)[1..] == a[1..] + b;
      NamedAppend(a[1..], b);
      assert NamedEntries(a + b) == head + NamedEntries(a[1..] + b);
      assert NamedEntries(a) == head + NamedEntries(a[1..]);
    } else {
      assert a + b == b;
    }
  }

  lemma {:induction false} NamedNone<V(!new)>(s: Obj<V>)
    requires forall x :: x in s ==> IsArrayIndex(x.0)
    ensures NamedEntries(s) == []
  {
    if s != [] {
      assert s[0] in s;
      assert forall x :: x in s[1..] ==> x in s;
      NamedNone(s[1..]);
    }
  }

  lemma {:induction false} NamedAll<V(!new)>(s: Obj<V>)
    requires forall x :: x in s ==> !IsArrayIndex(x.0)
    ensures NamedEntries(s) == s
  {
    if s != [] {
      assert s[0] in s;
      assert forall x :: x in s[1..] ==> x in s;
      NamedAll(s[1..]);
      assert s == [s[0]] + s[1..];
    }
  }

  /** Without array-index keys, enumeration order is creation order. */
  lemma OwnOrderNoIndex<V(!new)>(o: Obj<V>)
    requires forall i :: 0 <= i < |o| ==> !IsArrayIndex(o[i].0)
    ensures OwnOrder(o) == o
  {
    NamedAll(o);
  }

  /** `[e] + s` is well formed when `s` is and `e`'s key is not in `s`. */
  lemma ConsWellFormed<V(!new)>(e: (string, V), s: Obj<V>)
    requires WellFormed(s) && forall x :: x in s ==> x.0 != e.0
    ensures WellFormed([e] + s)
  {
    var r := [e] + s;
    forall i, j | 0 <= i < j < |r| ensures r[i].0 != r[j].0 {
      if i == 0 {
        assert r[j] == s[j - 1] && r[j] in s;
      } else {
        assert r[i] == s[i - 1] && r[j] == s[j - 1];
      }
    }
  }

  lemma {:induction false} SplitWellFormed<V(!new)>(o: Obj<V>)
    requires WellFormed(o)
    ensures WellFormed(IndexEntries(o)) && WellFormed(NamedEntries(o))
  {
    if o != [] {
      var t := o[1..];
      assert WellFormed(t) by {
        forall i, j | 0 <= i < j < |t| ensures t[i].0 != t[j].0 {
          assert t[i] == o[i + 1] && t[j] == o[j + 1];
        }
      }
      SplitWellFormed(t);
      forall x | x in t ensures x.0 != o[0].0 {
        var j :| 0 <= j < |t| && t[j] == x;
        assert o[j + 1] == x;
      }
      ConsWellFormed(o[0], IndexEntries(t));
      ConsWellFormed(o[0], NamedEntries(t));
    }
  }

  lemma {:induction false} InsertWellFormed<V(!new)>(e: (string, V), s: Obj<V>)
    requires WellFormed(s) && forall x :: x in s ==> x.0 != e.0
    ensures WellFormed(InsertIndex(e, s))
  {
    if s != [] && IndexValue(e.0) > IndexValue(s[0].0) {
      var t := s[1..];
      assert WellFormed(t) by {
        forall i, j | 0 <= i < j < |t| ensures t[i].0 != t[j].0 {
          assert t[i] == s[i + 1] && t[j] == s[j + 1];
        }
      }
      assert forall x :: x in t ==> x in s;
      InsertWellFormed(e, t);
      forall x | x in InsertIndex(e, t) ensures x.0 != s[0].0 {
        if x != e {
          var j :| 0 <= j < |t| && t[j] == x;
          assert s[j + 1] == x;
        } else {
          assert s[0] in s;
        }
      }
      ConsWellFormed(s[0], InsertIndex(e, t));
    } else if s == [] {
      ConsWellFormed(e, s);
    } else {
      ConsWellFormed(e, s);
    }
  }

  lemma {:induction false} SortWellFormed<V(!new)>(s: Obj<V>)
    requires WellFormed(s)
    ensures WellFormed(SortIndices(s))
  {
    if s != [] {
      var t := s[1..];
      assert WellFormed(t) by {
        forall i, j | 0 <= i < j < |t| ensures t[i].0 != t[j].0 {
          assert t[i] == s[i + 1] && t[j] == s[j + 1];
        }
      }
      SortWellFormed(t);
      SortSpec(t);
      forall x | x in SortIndices(t) ensures x.0 != s[0].0 {
        assert x in multiset(SortIndices(t));
        var j :| 0 <= j < |t| && t[j] == x;
        assert s[j + 1] == x;
      }
      InsertWellFormed(s[0], SortIndices(t));
    }
  }

  /** An index key created after a named one is still enumerated first. */
  lemma IndexKeyEnumeratedFirst<V(!new)>(x: V, y: V)
    ensures OwnOrder([("b", x), ("1", y)]) == [("1", y), ("b", x)]
  {
    var o := [("b", x), ("1", y)];
    assert AllDigits("1") && DecimalValue("1") == 1;
    assert IsArrayIndex("1") && !IsArrayIndex("b");
    assert o[1..] == [("1", y)] && o[1..][1..] == [];
    assert IndexEntries(o[1..]) == [("1", y)] + IndexEntries(o[1..][1..]);
    assert IndexEntries(o) == [] + IndexEntries(o[1..]);
    assert NamedEntries(o[1..]) == [] + NamedEntries(o[1..][1..]);
    assert NamedEntries(o) == [("b", x)] + NamedEntries(o[1..]);
    assert IndexEntries(o) == [("1", y)] && NamedEntries(o) == [("b", x)];
    var e := [("1", y)];
    assert e[1..] == [] && SortIndices(e) == InsertIndex(e[0], SortIndices([]));
    assert OwnOrder(o) == SortIndices(e) + [("b", x)];
  }

  /** Enumeration order keeps an object's keys distinct. */
  lemma OwnOrderWellFormed<V(!new)>(o: Obj<V>)
    requires WellFormed(o)
    ensures WellFormed(OwnOrder(o))
  {
    SplitWellFormed(o);
    SortWellFormed(IndexEntries(o));
    SortSpec(IndexEntries(o));
    var s, n := SortIndices(IndexEntries(o)), NamedEntries(o);
    var r := s + n;
    forall i, j | 0 <= i < j < |r| ensures r[i].0 != r[j].0 {
      if j < |s| {
        assert r[i] == s[i] && r[j] == s[j];
      } else if i >= |s| {
        assert r[i] == n[i - |s|] && r[j] == n[j - |s|];
      } else {
        assert r[i] == s[i] && r[i] in multiset(IndexEntries(o));
        assert r[j] == n[j - |s|] && r[j] in n;
      }
    }
  }

  /** In a well-formed object, `Get` finds exactly the stored pairs. */
  lemma GetMember<V(!new)>(o: Obj<V>, k: string, v: V)
    requires WellFormed(o)
    ensures Get(o, k) == Some(v) <==> (k, v) in o
  {
    if (k, v) in o {
      var i :| 0 <= i < |o| && o[i] == (k, v);
      GetAt(o, i);
    }
    if Get(o, k) == Some(v) {
      var i :| 0 <= i < |o| && o[i].0 == k;
      GetAt(o, i);
      assert o[i] == (k, v);
    }
  }

  /** Enumeration order does not change what a key reads. */
  lemma OwnOrderGet<V(!new)>(o: Obj<V>, k: string)
    requires WellFormed(o)
    ensures Get(OwnOrder(o), k) == Get(o, k)
  {
    OwnOrderPermutes(o);
    OwnOrderWellFormed(o);
    var r := OwnOrder(o);
    if Get(o, k).Some? {
      GetMember(o, k, Get(o, k).value);
      GetMember(r, k, Get(o, k).value);
    } else if Get(r, k).Some? {
      GetMember(r, k, Get(r, k).value);
      GetMember(o, k, Get(r, k).value);
    }
  }
}
