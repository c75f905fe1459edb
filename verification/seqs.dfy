/** Sequence helpers shared by the widgets: the optional value produced by
    JavaScript's `find` and `?.`, the order-preserving `filter`, and the
    subsequence relation that describes what a filter may return. */
module Seqs {

  datatype Option<T> = None | Some(value: T)

  /** `a` can be obtained from `b` by deleting elements, keeping the order of
      those that remain. */
  predicate Subsequence<T(==)>(a: seq<T>, b: seq<T>)
    decreases |b|
  {
    if a == [] then true
    else if b == [] then false
    else if a[0] == b[0] then Subsequence(a[1..], b[1..])
    else Subsequence(a, b[1..])
  }

  /** Every sequence is a subsequence of itself. */
  lemma {:induction false} SubsequenceReflexive<T>(s: seq<T>)
    ensures Subsequence(s, s)
    decreases |s|
  {
    if s != [] {
      SubsequenceReflexive(s[1..]);
    }
  }

  /** `s.filter(p)`: the elements of `s` that satisfy `p`, in their order. */
  function Filter<T(==,!new)>(p: T -> bool, s: seq<T>): (r: seq<T>)
    ensures |r| <= |s|
    ensures forall x :: multiset(r)[x] == if p(x) then multiset(s)[x] else 0
    ensures forall i :: 0 <= i < |r| ==> p(r[i]) && r[i] in s
    ensures forall i :: 0 <= i < |s| ==> (s[i] in r <==> p(s[i]))
    ensures Subsequence(r, s)
  {
    if s == [] then []
    else
      var rest := Filter(p, s[1..]);
      assert s == [s[0]] + s[1..];
      ConsCounts(p, s[0], s[1..], rest);
      var r := if p(s[0]) then [s[0]] + rest else rest;
      CountsMembership(p, s, r);
      if p(s[0]) then
        assert r[1..] == rest;
        r
      else
        assert rest != [] ==> rest[0] != s[0] by {
          if rest != [] { assert rest[0] in rest; }
        }
        SubsequenceOfTail(rest, s);
        r
  }

  /** Counts that agree with `p` give the membership facts of a filter. */
  lemma CountsMembership<T(!new)>(p: T -> bool, s: seq<T>, r: seq<T>)
    requires forall x :: multiset(r)[x] == if p(x) then multiset(s)[x] else 0
    ensures forall i :: 0 <= i < |r| ==> p(r[i]) && r[i] in s
    ensures forall i :: 0 <= i < |s| ==> (s[i] in r <==> p(s[i]))
  {
    forall i | 0 <= i < |r| ensures p(r[i]) && r[i] in s {
      assert multiset(r)[r[i]] > 0;
    }
    forall i | 0 <= i < |s| ensures (s[i] in r <==> p(s[i])) {
      assert multiset(s)[s[i]] > 0;
    }
  }

  /** One step of filtering, counted: keeping or dropping the head keeps
      every count of the kept elements equal to its count in the input. */
  lemma ConsCounts<T(!new)>(p: T -> bool, h: T, t: seq<T>, kept: seq<T>)
    requires forall x :: multiset(kept)[x] == if p(x) then multiset(t)[x] else 0
    ensures var r := if p(h) then [h] + kept else kept;
      forall x :: multiset(r)[x] == if p(x) then multiset([h] + t)[x] else 0
  {
    assert multiset([h] + t) == multiset{h} + multiset(t);
    assert multiset([h] + kept) == multiset{h} + multiset(kept);
  }

  /** A subsequence of the tail is a subsequence of the whole. */
  lemma {:induction false} SubsequenceOfTail<T>(a: seq<T>, b: seq<T>)
    requires b != [] && Subsequence(a, b[1..])
    ensures Subsequence(a, b)
    decreases |a| + |b|
  {
    if a != [] && a[0] == b[0] {
      SubsequenceDropHead(a, b[1..]);
    }
  }

  /** Dropping the first element of a subsequence keeps it a subsequence. */
  lemma {:induction false} SubsequenceDropHead<T>(a: seq<T>, b: seq<T>)
    requires a != [] && Subsequence(a, b)
    ensures Subsequence(a[1..], b)
    decreases |a| + |b|
  {
    if a[0] == b[0] {
      SubsequenceOfTail(a[1..], b);
    } else {
      SubsequenceDropHead(a, b[1..]);
      SubsequenceOfTail(a[1..], b);
    }
  }

  /** Filtering distributes over concatenation. */
  lemma {:induction false} FilterAppend<T(!new)>(p: T -> bool, a: seq<T>, b: seq<T>)
    ensures Filter(p, a + b) == Filter(p, a) + Filter(p, b)
  {
    if a == [] {
      assert a + b == b;
    } else {
      assert (a + b)[1..] == a[1..] + b;
      FilterAppend(p, a[1..], b);
    }
  }

  /** A filter that every element passes returns the sequence unchanged. */
  lemma {:induction false} FilterKeepsAll<T(!new)>(p: T -> bool, s: seq<T>)
    requires forall i :: 0 <= i < |s| ==> p(s[i])
    ensures Filter(p, s) == s
  {
    if s != [] {
      FilterKeepsAll(p, s[1..]);
    }
  }

  /** A filter that no element passes returns nothing. */
  lemma {:induction false} FilterKeepsNone<T(!new)>(p: T -> bool, s: seq<T>)
    requires forall i :: 0 <= i < |s| ==> !p(s[i])
    ensures Filter(p, s) == []
  {
    if s != [] {
      FilterKeepsNone(p, s[1..]);
    }
  }

  /** Filtering twice by the same predicate is filtering once. */
  lemma FilterIdempotent<T(!new)>(p: T -> bool, s: seq<T>)
    ensures Filter(p, Filter(p, s)) == Filter(p, s)
  {
    FilterKeepsAll(p, Filter(p, s));
  }

  /** An element splits a sequence into those that pass and those that fail:
      the two filters' lengths add up to the whole. */
  lemma {:induction false} FilterPartition<T(!new)>(p: T -> bool, q: T -> bool, s: seq<T>)
    requires forall i :: 0 <= i < |s| ==> q(s[i]) == !p(s[i])
    ensures |Filter(p, s)| + |Filter(q, s)| == |s|
  {
    if s != [] {
      FilterPartition(p, q, s[1..]);
    }
  }

  /** Filtering by two predicates in turn is filtering by their conjunction. */
  lemma {:induction false} FilterFilter<T(!new)>(p: T -> bool, q: T -> bool, s: seq<T>)
    ensures Filter(q, Filter(p, s)) == Filter(x => p(x) && q(x), s)
  {
    if s != [] {
      FilterFilter(p, q, s[1..]);
    }
  }

  /** Two predicates that agree on every element filter alike. */
  lemma {:induction false} FilterSame<T(!new)>(p: T -> bool, q: T -> bool, s: seq<T>)
    requires forall i :: 0 <= i < |s| ==> p(s[i]) == q(s[i])
    ensures Filter(p, s) == Filter(q, s)
  {
    if s != [] {
      FilterSame(p, q, s[1..]);
    }
  }

  /** A weaker predicate keeps everything a stronger one keeps, in the same
      order. */
  lemma {:induction false} FilterWeaker<T(!new)>(p: T -> bool, q: T -> bool, s: seq<T>)
    requires forall i :: 0 <= i < |s| ==> p(s[i]) ==> q(s[i])
    ensures Subsequence(Filter(p, s), Filter(q, s))
  {
    if s != [] {
      FilterWeaker(p, q, s[1..]);
      var fp, fq := Filter(p, s[1..]), Filter(q, s[1..]);
      if p(s[0]) {
        assert ([s[0]] + fp)[1..] == fp;
        assert ([s[0]] + fq)[1..] == fq;
      } else if q(s[0]) {
        assert ([s[0]] + fq)[1..] == fq;
        SubsequenceOfTail(fp, [s[0]] + fq);
      }
    }
  }

  /** The positions of `s` whose element satisfies `p`. */
  function Positions<T>(p: T -> bool, s: seq<T>): set<int> {
    set i | 0 <= i < |s| && p(s[i])
  }

  /** A filter keeps one element per position that passes. */
  lemma {:induction false} FilterCountsPositions<T(!new)>(p: T -> bool, s: seq<T>)
    ensures |Filter(p, s)| == |Positions(p, s)|
    decreases |s|
  {
    if s == [] {
      assert Positions(p, s) == {};
    } else {
      var init, x := s[..|s| - 1], s[|s| - 1];
      FilterCountsPositions(p, init);
      CountsPositionsSnoc(p, init, x);
      assert s == init + [x];
    }
  }

  lemma CountsPositionsSnoc<T(!new)>(p: T -> bool, init: seq<T>, x: T)
    requires |Filter(p, init)| == |Positions(p, init)|
    ensures |Filter(p, init + [x])| == |Positions(p, init + [x])|
  {
    FilterSnocLength(p, init, x);
    PositionsSnocSize(p, init, x);
  }

  lemma FilterSnocLength<T(!new)>(p: T -> bool, init: seq<T>, x: T)
    ensures |Filter(p, init + [x])| == |Filter(p, init)| + if p(x) then 1 else 0
  {
    FilterAppend(p, init, [x]);
    assert [x][1..] == [];
  }

  /** Appending an element adds its position exactly when it passes. */
  lemma PositionsSnocSize<T>(p: T -> bool, init: seq<T>, x: T)
    ensures |Positions(p, init + [x])| == |Positions(p, init)| + if p(x) then 1 else 0
  {
    var s := init + [x];
    assert forall i :: 0 <= i < |init| ==> s[i] == init[i];
    if p(x) {
      assert Positions(p, s) == Positions(p, init) + {|init|};
    } else {
      assert Positions(p, s) == Positions(p, init);
    }
  }
}
