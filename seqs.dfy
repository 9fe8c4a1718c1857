/** Generic sequence filtering, the shape of a list comprehension with an `if`
    or of a queryset `.filter` / `.exclude`. */
module Seqs {

  /** The elements of `s` that satisfy `f`, in their original order. */
  function Filter<T(!new)>(f: T -> bool, s: seq<T>): (r: seq<T>)
    ensures |r| <= |s|
    ensures forall x :: x in r <==> x in s && f(x)
  {
    if s == [] then [] else (if f(s[0]) then [s[0]] else []) + Filter(f, s[1..])
  }

  /** Filtering distributes over concatenation. */
  lemma {:induction false} FilterConcat<T(!new)>(f: T -> bool, a: seq<T>, b: seq<T>)
    ensures Filter(f, a + b) == Filter(f, a) + Filter(f, b)
  {
    if a == [] {
      assert a + b == b;
    } else {
      assert (a + b)[0] == a[0];
      assert (a + b)[1..] == a[1..] + b;
      FilterConcat(f, a[1..], b);
    }
  }

  /** Extending the scanned prefix by one element appends it iff it passes:
      the step of a `for x in s: if f(x): out.append(x)` loop. */
  lemma FilterPrefixStep<T(!new)>(f: T -> bool, s: seq<T>, i: nat)
    requires i < |s|
    ensures Filter(f, s[..i + 1]) == Filter(f, s[..i]) + (if f(s[i]) then [s[i]] else [])
  {
    assert s[..i + 1] == s[..i] + [s[i]];
    FilterConcat(f, s[..i], [s[i]]);
  }

  /** Two tests that agree on every element select the same elements. */
  lemma {:induction false} FilterAgree<T(!new)>(f: T -> bool, g: T -> bool, s: seq<T>)
    requires forall x :: x in s ==> f(x) == g(x)
    ensures Filter(f, s) == Filter(g, s)
  {
    if s != [] {
      FilterAgree(f, g, s[1..]);
    }
  }

  /** The multiset of a filter, one element at a time. */
  lemma FilterHead<T(!new)>(f: T -> bool, s: seq<T>)
    requires s != []
    ensures multiset(Filter(f, s)) == (if f(s[0]) then multiset{s[0]} else multiset{}) + multiset(Filter(f, s[1..]))
  {
    var head := if f(s[0]) then [s[0]] else [];
    assert Filter(f, s) == head + Filter(f, s[1..]);
  }

  /** Filtering by a test and by its negation splits the multiset in two. */
  lemma {:induction false} FilterSplit<T(!new)>(f: T -> bool, g: T -> bool, s: seq<T>)
    requires forall x :: x in s ==> g(x) == !f(x)
    ensures multiset(Filter(f, s)) + multiset(Filter(g, s)) == multiset(s)
  {
    if s != [] {
      var x, t := s[0], s[1..];
      var hf: multiset<T> := if f(x) then multiset{x} else multiset{};
      var hg: multiset<T> := if g(x) then multiset{x} else multiset{};
      var ft, gt := multiset(Filter(f, t)), multiset(Filter(g, t));
      assert ft + gt == multiset(t) by { FilterSplit(f, g, t); }
      assert multiset(Filter(f, s)) == hf + ft by { FilterHead(f, s); }
      assert multiset(Filter(g, s)) == hg + gt by { FilterHead(g, s); }
      assert hf + hg == multiset{x} by { assert x in s; }
      assert multiset(s) == multiset{x} + multiset(t) by { assert s == [x] + t; }
      Regroup(multiset(Filter(f, s)), multiset(Filter(g, s)), hf, hg, ft, gt);
    }
  }

  /** `(hf + ft) + (hg + gt)` regrouped as `(hf + hg) + (ft + gt)`. */
  lemma Regroup<T>(a: multiset<T>, b: multiset<T>, hf: multiset<T>, hg: multiset<T>, ft: multiset<T>, gt: multiset<T>)
    requires a == hf + ft && b == hg + gt
    ensures a + b == (hf + hg) + (ft + gt)
  {
  }

  /** Filtering twice by the same test is filtering once. */
  lemma {:induction false} FilterIdempotent<T(!new)>(f: T -> bool, s: seq<T>)
    ensures Filter(f, Filter(f, s)) == Filter(f, s)
  {
    if s != [] {
      FilterIdempotent(f, s[1..]);
      FilterConcat(f, if f(s[0]) then [s[0]] else [], Filter(f, s[1..]));
    }
  }

  /** A sequence all of whose elements pass is its own filter. */
  lemma {:induction false} FilterAll<T(!new)>(f: T -> bool, s: seq<T>)
    requires forall i :: 0 <= i < |s| ==> f(s[i])
    ensures Filter(f, s) == s
  {
    if s != [] {
      FilterAll(f, s[1..]);
      assert s == [s[0]] + s[1..];
    }
  }

  /** Nothing passes, so nothing is kept. */
  lemma {:induction false} FilterNone<T(!new)>(f: T -> bool, s: seq<T>)
    requires forall x :: x in s ==> !f(x)
    ensures Filter(f, s) == []
  {
    if s != [] {
      FilterNone(f, s[1..]);
    }
  }
}
