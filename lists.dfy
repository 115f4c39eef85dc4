/** `Array.prototype.filter` with a total predicate, and what it guarantees. */
module Lists {

  /** The elements of `s` that satisfy `keep`, in their original order. Every
      kept value occurs as often as in `s`; every other value does not occur. */
  function Filter<T(==,!new)>(s: seq<T>, keep: T -> bool): (r: seq<T>)
    ensures |r| <= |s|
    ensures forall x :: x in r ==> x in s && keep(x)
    ensures forall x :: x in s && keep(x) ==> x in r
    ensures forall x :: multiset(r)[x] == if keep(x) then multiset(s)[x] else 0
    decreases |s|
  {
    if s == [] then []
    else
      assert s == [s[0]] + s[1..];
      (if keep(s[0]) then [s[0]] else []) + Filter(s[1..], keep)
  }

  /** Filtering commutes with concatenation: relative order is preserved. */
  lemma {:induction false} FilterConcat<T(!new)>(a: seq<T>, b: seq<T>, keep: T -> bool)
    ensures Filter(a + b, keep) == Filter(a, keep) + Filter(b, keep)
    decreases |a|
  {
    if a == [] {
      assert a + b == b;
    } else {
      var s := a + b;
      assert s[0] == a[0];
      assert s[1..] == a[1..] + b;
      FilterConcat(a[1..], b, keep);
      FilterStep(s, keep);
      FilterStep(a, keep);
      PrependThenAppend(if keep(a[0]) then [a[0]] else [], Filter(s, keep), Filter(s[1..], keep),
                        Filter(a, keep), Filter(a[1..], keep), Filter(b, keep));
    }
  }

  /** One step of Filter: the first element, if kept, then the rest filtered. */
  lemma {:induction false} FilterStep<T(!new)>(s: seq<T>, keep: T -> bool)
    requires s != []
    ensures Filter(s, keep) == (if keep(s[0]) then [s[0]] else []) + Filter(s[1..], keep)
  {
  }

  /** Regrouping `p + (c + y)` as `(p + c) + y`, stated on names so that the
      solver does not look inside the pieces. */
  lemma {:induction false} PrependThenAppend<T>(p: seq<T>, whole: seq<T>, rest: seq<T>, part: seq<T>, c: seq<T>, y: seq<T>)
    requires whole == p + rest && rest == c + y && part == p + c
    ensures whole == part + y
  {
  }

  /** Filtering a list whose every element is kept gives the list back. */
  lemma {:induction false} FilterKeepsAll<T(!new)>(s: seq<T>, keep: T -> bool)
    requires forall x :: x in s ==> keep(x)
    ensures Filter(s, keep) == s
    decreases |s|
  {
    if s != [] {
      FilterKeepsAll(s[1..], keep);
    }
  }

  /** Filtering twice with the same predicate is filtering once. */
  lemma {:induction false} FilterIdempotent<T(!new)>(s: seq<T>, keep: T -> bool)
    ensures Filter(Filter(s, keep), keep) == Filter(s, keep)
  {
    FilterKeepsAll(Filter(s, keep), keep);
  }
}
