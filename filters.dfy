/** `Array.prototype.filter` over sequences, and the laws the core relies on. */
module Filters {

  /** The elements of `s` that satisfy `p`, in their original order. */
  function Filter<T(!new)>(p: T -> bool, s: seq<T>): (r: seq<T>)
    ensures |r| <= |s|
    ensures forall x :: x in r <==> x in s && p(x)
    decreases |s|
  {
    if s == [] then [] else (if p(s[0]) then [s[0]] else []) + Filter(p, s[1..])
  }

  /** Filtering distributes over concatenation: the relative order of kept elements is that of `s`. */
  lemma {:induction false} FilterConcat<T(!new)>(p: T -> bool, a: seq<T>, b: seq<T>)
    ensures Filter(p, a + b) == Filter(p, a) + Filter(p, b)
    decreases |a|
  {
    if a != [] {
      assert (a + b)[1..] == a[1..] + b;
      FilterConcat(p, a[1..], b);
    } else {
      assert a + b == b;
    }
  }

  /** When every element passes, filtering changes nothing. */
  lemma {:induction false} FilterAll<T(!new)>(p: T -> bool, s: seq<T>)
    requires forall x :: x in s ==> p(x)
    ensures Filter(p, s) == s
    decreases |s|
  {
    if s != [] {
      FilterAll(p, s[1..]);
    }
  }

  /** Filtering twice is filtering once by the conjunction. */
  lemma {:induction false} FilterFilter<T(!new)>(p: T -> bool, q: T -> bool, both: T -> bool, s: seq<T>)
    requires forall x :: both(x) == (q(x) && p(x))
    ensures Filter(p, Filter(q, s)) == Filter(both, s)
    decreases |s|
  {
    if s != [] {
      FilterFilter(p, q, both, s[1..]);
      var head := if q(s[0]) then [s[0]] else [];
      FilterConcat(p, head, Filter(q, s[1..]));
    }
  }

  /** Filtering is idempotent. */
  lemma FilterIdempotent<T(!new)>(p: T -> bool, s: seq<T>)
    ensures Filter(p, Filter(p, s)) == Filter(p, s)
  {
    FilterAll(p, Filter(p, s));
  }

  /** The number of elements of `s` that satisfy `p`. */
  function Count<T(!new)>(p: T -> bool, s: seq<T>): (n: nat)
    ensures n <= |s|
    ensures n == 0 <==> forall x :: x in s ==> !p(x)
    decreases |s|
  {
    if s == [] then 0 else (if p(s[0]) then 1 else 0) + Count(p, s[1..])
  }

  /** A filter keeps exactly the counted elements and drops the rest. */
  lemma {:induction false} FilterLength<T(!new)>(p: T -> bool, s: seq<T>)
    ensures |Filter(p, s)| == Count(p, s)
    decreases |s|
  {
    if s != [] {
      FilterLength(p, s[1..]);
    }
  }

  /** Counting `p` and counting its complement add up to the length. */
  lemma {:induction false} CountComplement<T(!new)>(p: T -> bool, q: T -> bool, s: seq<T>)
    requires forall x :: q(x) == !p(x)
    ensures Count(p, s) + Count(q, s) == |s|
    decreases |s|
  {
    if s != [] {
      CountComplement(p, q, s[1..]);
    }
  }

  /** Filtering never adds elements of any kind. */
  lemma {:induction false} CountFiltered<T(!new)>(q: T -> bool, p: T -> bool, s: seq<T>)
    ensures Count(q, Filter(p, s)) <= Count(q, s)
    decreases |s|
  {
    if s != [] {
      CountFiltered(q, p, s[1..]);
      var head := if p(s[0]) then [s[0]] else [];
      CountConcat(q, head, Filter(p, s[1..]));
    }
  }

  lemma {:induction false} CountConcat<T(!new)>(q: T -> bool, a: seq<T>, b: seq<T>)
    ensures Count(q, a + b) == Count(q, a) + Count(q, b)
    decreases |a|
  {
    if a != [] {
      assert (a + b)[1..] == a[1..] + b;
      CountConcat(q, a[1..], b);
    } else {
      assert a + b == b;
    }
  }
}
