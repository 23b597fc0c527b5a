/** Sequences read as bags: mapping, filtering and permutations. */
module Bags {
  function Map<A, B>(f: A -> B, xs: seq<A>): (r: seq<B>)
    ensures |r| == |xs|
    ensures forall i :: 0 <= i < |xs| ==> r[i] == f(xs[i])
  {
    seq(|xs|, i requires 0 <= i < |xs| => f(xs[i]))
  }

  function Filter<A>(p: A -> bool, xs: seq<A>): (r: seq<A>)
    ensures |r| <= |xs|
    ensures forall x | x in xs :: x in r <==> p(x)
    ensures forall x | x in r :: x in xs
  {
    if xs == [] then [] else (if p(xs[0]) then [xs[0]] else []) + Filter(p, xs[1..])
  }

  function FlatMap<A, B>(f: A -> seq<B>, xs: seq<A>): seq<B> {
    if xs == [] then [] else f(xs[0]) + FlatMap(f, xs[1..])
  }

  function Concat<A>(xss: seq<seq<A>>): seq<A> {
    if xss == [] then [] else Concat(xss[..|xss| - 1]) + xss[|xss| - 1]
  }

  lemma MapConcat<A, B>(f: A -> B, xs: seq<A>, ys: seq<A>)
    ensures Map(f, xs + ys) == Map(f, xs) + Map(f, ys)
  {
  }

  lemma {:induction false} FilterConcat<A>(p: A -> bool, xs: seq<A>, ys: seq<A>)
    ensures Filter(p, xs + ys) == Filter(p, xs) + Filter(p, ys)
  {
    if xs == [] {
      assert xs + ys == ys;
    } else {
      assert (xs + ys)[1..] == xs[1..] + ys;
      FilterConcat(p, xs[1..], ys);
    }
  }

  lemma {:induction false} FilterCongruent<A>(p: A -> bool, q: A -> bool, xs: seq<A>)
    requires forall x :: x in xs ==> p(x) == q(x)
    ensures Filter(p, xs) == Filter(q, xs)
  {
    if xs != [] {
      FilterCongruent(p, q, xs[1..]);
    }
  }

  /** Splitting the input by a predicate splits the flattened output, as bags. */
  lemma {:induction false} FlatMapPartition<A, B>(f: A -> seq<B>, p: A -> bool, q: A -> bool, xs: seq<A>)
    requires forall x :: x in xs ==> p(x) != q(x)
    ensures multiset(FlatMap(f, xs)) == multiset(FlatMap(f, Filter(p, xs))) + multiset(FlatMap(f, Filter(q, xs)))
  {
    if xs != [] {
      FlatMapPartition(f, p, q, xs[1..]);
      var ps, qs := Filter(p, xs[1..]), Filter(q, xs[1..]);
      if p(xs[0]) {
        assert ([xs[0]] + ps)[1..] == ps;
        assert Filter(p, xs) == [xs[0]] + ps && Filter(q, xs) == qs;
      } else {
        assert ([xs[0]] + qs)[1..] == qs;
        assert Filter(p, xs) == ps && Filter(q, xs) == [xs[0]] + qs;
      }
    }
  }

  /** Flattening one-element results is mapping. */
  lemma {:induction false} FlatMapSingletons<A, B>(f: A -> seq<B>, g: A -> B, xs: seq<A>)
    requires forall x :: x in xs ==> f(x) == [g(x)]
    ensures FlatMap(f, xs) == Map(g, xs)
  {
    if xs != [] {
      FlatMapSingletons(f, g, xs[1..]);
    }
  }

  lemma {:induction false} MapFlatMap<A, B, C>(g: B -> C, f: A -> seq<B>, h: A -> seq<C>, xs: seq<A>)
    requires forall x :: x in xs ==> Map(g, f(x)) == h(x)
    ensures Map(g, FlatMap(f, xs)) == FlatMap(h, xs)
  {
    if xs != [] {
      MapFlatMap(g, f, h, xs[1..]);
      MapConcat(g, f(xs[0]), FlatMap(f, xs[1..]));
    }
  }

  lemma {:induction false} MapMap<A, B, C>(g: B -> C, f: A -> B, h: A -> C, xs: seq<A>)
    requires forall x :: x in xs ==> g(f(x)) == h(x)
    ensures Map(g, Map(f, xs)) == Map(h, xs)
  {
    if xs != [] {
      MapMap(g, f, h, xs[1..]);
    }
  }

  /** Non-empty results: as many outputs as inputs exactly when every result is a singleton. */
  lemma {:induction false} FlatMapLength<A, B>(f: A -> seq<B>, xs: seq<A>)
    requires forall x :: x in xs ==> |f(x)| >= 1
    ensures |FlatMap(f, xs)| >= |xs|
    ensures |FlatMap(f, xs)| == |xs| <==> forall x :: x in xs ==> |f(x)| == 1
  {
    if xs != [] {
      FlatMapLength(f, xs[1..]);
    }
  }

  /** A narrower filter keeps as many elements exactly when it drops none of them. */
  lemma {:induction false} FilterLength<A>(p: A -> bool, q: A -> bool, xs: seq<A>)
    requires forall x :: x in xs && q(x) ==> p(x)
    ensures |Filter(q, xs)| <= |Filter(p, xs)|
    ensures |Filter(q, xs)| == |Filter(p, xs)| <==> forall x :: x in xs && p(x) ==> q(x)
  {
    if xs != [] {
      FilterLength(p, q, xs[1..]);
    }
  }

  lemma FindIn<A>(x: A, ys: seq<A>) returns (i: nat)
    requires x in ys
    ensures i < |ys| && ys[i] == x
  {
    i :| 0 <= i < |ys| && ys[i] == x;
  }

  /** Removing the same element from two permutations leaves permutations. */
  lemma RemoveCommon<A>(xs: seq<A>, ys: seq<A>, i: nat)
    requires xs != [] && i < |ys| && ys[i] == xs[0] && multiset(xs) == multiset(ys)
    ensures multiset(xs[1..]) == multiset(ys[..i] + ys[i + 1..])
  {
    assert xs == [xs[0]] + xs[1..];
    assert ys == ys[..i] + [xs[0]] + ys[i + 1..];
    calc {
      multiset(xs[1..]);
      multiset(xs) - multiset{xs[0]};
      multiset(ys) - multiset{xs[0]};
      multiset(ys[..i]) + multiset(ys[i + 1..]);
    }
  }

  /** Permuted inputs map to permuted outputs. */
  lemma {:induction false} PermMap<A, B>(f: A -> B, xs: seq<A>, ys: seq<A>)
    requires multiset(xs) == multiset(ys)
    ensures multiset(Map(f, xs)) == multiset(Map(f, ys))
  {
    if xs == [] {
      assert |multiset(ys)| == 0;
    } else {
      assert xs[0] in multiset(xs);
      var i := FindIn(xs[0], ys);
      RemoveCommon(xs, ys, i);
      PermMap(f, xs[1..], ys[..i] + ys[i + 1..]);
      MapSplit(f, ys, i);
      MapHead(f, xs);
    }
  }

  lemma MapHead<A, B>(f: A -> B, xs: seq<A>)
    requires xs != []
    ensures multiset(Map(f, xs)) == multiset{f(xs[0])} + multiset(Map(f, xs[1..]))
  {
    MapSplit(f, xs, 0);
    assert xs[..0] + xs[1..] == xs[1..];
  }

  lemma MapSplit<A, B>(f: A -> B, ys: seq<A>, i: nat)
    requires i < |ys|
    ensures multiset(Map(f, ys)) == multiset{f(ys[i])} + multiset(Map(f, ys[..i] + ys[i + 1..]))
  {
    var a, b := Map(f, ys[..i]), Map(f, ys[i + 1..]);
    assert Map(f, ys) == a + [f(ys[i])] + b;
    assert Map(f, ys[..i] + ys[i + 1..]) == a + b;
    TakeOut(a, f(ys[i]), b);
  }

  lemma TakeOut<A>(a: seq<A>, x: A, b: seq<A>)
    ensures multiset(a + [x] + b) == multiset{x} + multiset(a + b)
  {
  }

  lemma {:induction false} FilterCount<A>(p: A -> bool, xs: seq<A>, x: A)
    ensures multiset(Filter(p, xs))[x] == if p(x) then multiset(xs)[x] else 0
  {
    if xs != [] {
      FilterCount(p, xs[1..], x);
      assert xs == [xs[0]] + xs[1..];
      HeadCount(xs[0], xs[1..], x);
      HeadCount(xs[0], Filter(p, xs[1..]), x);
    }
  }

  lemma HeadCount<A>(head: A, tail: seq<A>, x: A)
    ensures multiset([head] + tail)[x] == (if head == x then 1 else 0) + multiset(tail)[x]
  {
  }

  /** Permuted inputs filter to permuted outputs. */
  lemma PermFilter<A(!new)>(p: A -> bool, xs: seq<A>, ys: seq<A>)
    requires multiset(xs) == multiset(ys)
    ensures multiset(Filter(p, xs)) == multiset(Filter(p, ys)) && |Filter(p, xs)| == |Filter(p, ys)|
  {
    var fx, fy := multiset(Filter(p, xs)), multiset(Filter(p, ys));
    forall x: A
      ensures fx[x] == fy[x]
    {
      FilterCount(p, xs, x);
      FilterCount(p, ys, x);
    }
    assert fx == fy;
    assert |fx| == |Filter(p, xs)| && |fy| == |Filter(p, ys)|;
  }
}
