/** The two list combinators the game rules are written with: an element-wise
    map and an order-preserving filter, with the facts the rules need about them. */
module Seqs {

  /** Applies f to every element, keeping positions. */
  function Map<A, B>(f: A -> B, s: seq<A>): (r: seq<B>)
    ensures |r| == |s|
    ensures forall i :: 0 <= i < |s| ==> r[i] == f(s[i])
  {
    seq(|s|, i requires 0 <= i < |s| => f(s[i]))
  }

  /** The elements of s that satisfy p, in their original order. */
  function Filter<T(==)>(p: T -> bool, s: seq<T>): (r: seq<T>)
    ensures |r| <= |s|
    ensures forall i :: 0 <= i < |r| ==> r[i] in s && p(r[i])
    ensures forall i :: 0 <= i < |s| && p(s[i]) ==> s[i] in r
  {
    if s == [] then [] else (if p(s[0]) then [s[0]] else []) + Filter(p, s[1..])
  }

  /** Filtering a concatenation filters each part. */
  lemma {:induction false} FilterConcat<T>(p: T -> bool, a: seq<T>, b: seq<T>)
    ensures Filter(p, a + b) == Filter(p, a) + Filter(p, b)
  {
    if a == [] {
      assert a + b == b;
    } else {
      assert (a + b)[0] == a[0];
      assert (a + b)[1..] == a[1..] + b;
      FilterConcat(p, a[1..], b);
    }
  }

  /** When every element satisfies p, nothing is removed. */
  lemma {:induction false} FilterKeepsAll<T>(p: T -> bool, s: seq<T>)
    requires forall i :: 0 <= i < |s| ==> p(s[i])
    ensures Filter(p, s) == s
  {
    if s != [] {
      FilterKeepsAll(p, s[1..]);
    }
  }

  /** When no element satisfies p, everything is removed. */
  lemma {:induction false} FilterDropsAll<T>(p: T -> bool, s: seq<T>)
    requires forall i :: 0 <= i < |s| ==> !p(s[i])
    ensures Filter(p, s) == []
  {
    if s != [] {
      FilterDropsAll(p, s[1..]);
    }
  }

  /** Filter keeps every occurrence of an element that satisfies p and none
      of one that does not. */
  lemma {:induction false} FilterCount<T>(p: T -> bool, s: seq<T>, x: T)
    ensures multiset(Filter(p, s))[x] == if p(x) then multiset(s)[x] else 0
  {
    if s != [] {
      var h, t := s[0], s[1..];
      FilterCount(p, t, x);
      assert s == [h] + t;
      assert multiset(s)[x] == multiset([h])[x] + multiset(t)[x];
      var head := if p(h) then [h] else [];
      assert Filter(p, s) == head + Filter(p, t);
      assert multiset(Filter(p, s))[x] == multiset(head)[x] + multiset(Filter(p, t))[x];
    }
  }

  /** A predicate and its negation split s into two parts that together hold
      every element exactly as often as s does. */
  lemma FilterPartition<T>(p: T -> bool, q: T -> bool, s: seq<T>)
    requires forall x :: q(x) == !p(x)
    ensures multiset(Filter(p, s)) + multiset(Filter(q, s)) == multiset(s)
  {
    forall x
      ensures (multiset(Filter(p, s)) + multiset(Filter(q, s)))[x] == multiset(s)[x]
    {
      FilterCount(p, s, x);
      FilterCount(q, s, x);
    }
  }

  /** The head of a non-empty filter result is the first element of s that
      satisfies p. */
  lemma {:induction false} FilterHead<T>(p: T -> bool, s: seq<T>) returns (i: nat)
    requires Filter(p, s) != []
    ensures i < |s| && p(s[i]) && Filter(p, s)[0] == s[i]
    ensures forall j :: 0 <= j < i ==> !p(s[j])
  {
    if p(s[0]) {
      i := 0;
    } else {
      var k := FilterHead(p, s[1..]);
      i := k + 1;
    }
  }

  /** The first element of s that satisfies p heads the filter result. */
  lemma FirstMatchHeadsFilter<T>(p: T -> bool, s: seq<T>, i: nat)
    requires i < |s| && p(s[i])
    requires forall j :: 0 <= j < i ==> !p(s[j])
    ensures Filter(p, s) != [] && Filter(p, s)[0] == s[i]
  {
    assert s[i] in Filter(p, s);
    var k := FilterHead(p, s);
    assert !(k < i);
    assert !(i < k);
  }
}
