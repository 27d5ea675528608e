/** Order-preserving list operations shared by the reducers and the pages:
    filtering, updating the entries that match, reversing and counting. */
module Seqs {

  /** `a` can be obtained from `b` by deleting entries, keeping the order. */
  predicate IsSubsequence<T(==)>(a: seq<T>, b: seq<T>)
    decreases |b|
  {
    if |a| == 0 then true
    else if |b| == 0 then false
    else (a[0] == b[0] && IsSubsequence(a[1..], b[1..])) || IsSubsequence(a, b[1..])
  }

  /** Array.prototype.filter: the entries satisfying `p`, in their order. */
  function Filter<T(==)>(s: seq<T>, p: T -> bool): (r: seq<T>)
    ensures |r| <= |s|
    ensures forall i :: 0 <= i < |r| ==> r[i] in s && p(r[i])
    ensures forall i :: 0 <= i < |s| && p(s[i]) ==> s[i] in r
    ensures (forall i :: 0 <= i < |s| ==> p(s[i])) ==> r == s
  {
    if |s| == 0 then []
    else if p(s[0]) then [s[0]] + Filter(s[1..], p)
    else Filter(s[1..], p)
  }

  /** The number of entries satisfying `p`. */
  function Count<T(==)>(s: seq<T>, p: T -> bool): nat
  {
    |Filter(s, p)|
  }

  /** Array.prototype.map with `x => p(x) ? f(x) : x`. */
  function MapWhere<T>(s: seq<T>, p: T -> bool, f: T -> T): (r: seq<T>)
    ensures |r| == |s|
    ensures forall i :: 0 <= i < |s| ==> r[i] == (if p(s[i]) then f(s[i]) else s[i])
  {
    if |s| == 0 then []
    else [if p(s[0]) then f(s[0]) else s[0]] + MapWhere(s[1..], p, f)
  }

  /** Array.prototype.reverse. */
  function Reverse<T>(s: seq<T>): (r: seq<T>)
    ensures |r| == |s|
    ensures forall i :: 0 <= i < |s| ==> r[i] == s[|s| - 1 - i]
  {
    if |s| == 0 then [] else Reverse(s[1..]) + [s[0]]
  }

  lemma {:induction false} FilterIsSubsequence<T>(s: seq<T>, p: T -> bool)
    ensures IsSubsequence(Filter(s, p), s)
    decreases |s|
  {
    if |s| > 0 {
      FilterIsSubsequence(s[1..], p);
      if p(s[0]) {
        assert ([s[0]] + Filter(s[1..], p))[1..] == Filter(s[1..], p);
      } else {
        var r := Filter(s, p);
        if |r| > 0 {
          assert IsSubsequence(r, s[1..]);
        }
      }
    }
  }

  /** Every order-preserving sublist of `s` made of `p`-entries is a sublist of
      Filter(s, p): the filter is the largest such sublist. */
  lemma {:induction false} FilterIsGreatest<T>(s: seq<T>, p: T -> bool, t: seq<T>)
    requires IsSubsequence(t, s)
    requires forall x :: x in t ==> p(x)
    ensures IsSubsequence(t, Filter(s, p))
    decreases |s|
  {
    if |t| > 0 {
      assert |s| > 0;
      var f := Filter(s[1..], p);
      if t[0] == s[0] && IsSubsequence(t[1..], s[1..]) {
        assert p(t[0]);
        FilterIsGreatest(s[1..], p, t[1..]);
        assert Filter(s, p) == [s[0]] + f;
        assert ([s[0]] + f)[1..] == f;
      } else {
        FilterIsGreatest(s[1..], p, t);
        if p(s[0]) {
          assert Filter(s, p) == [s[0]] + f;
          assert ([s[0]] + f)[1..] == f;
        }
      }
    }
  }

  lemma {:induction false} SubsequenceLength<T>(a: seq<T>, b: seq<T>)
    requires IsSubsequence(a, b)
    ensures |a| <= |b|
    decreases |b|
  {
    if |a| > 0 {
      if a[0] == b[0] && IsSubsequence(a[1..], b[1..]) {
        SubsequenceLength(a[1..], b[1..]);
      } else {
        SubsequenceLength(a, b[1..]);
      }
    }
  }

  lemma {:induction false} SubsequenceAntisymmetric<T>(a: seq<T>, b: seq<T>)
    requires IsSubsequence(a, b) && IsSubsequence(b, a)
    ensures a == b
    decreases |b|
  {
    SubsequenceLength(a, b);
    SubsequenceLength(b, a);
    if |a| > 0 {
      if a[0] == b[0] && IsSubsequence(a[1..], b[1..]) {
        if !IsSubsequence(b[1..], a[1..]) {
          SubsequenceLength(b, a[1..]);
          assert false;
        }
        SubsequenceAntisymmetric(a[1..], b[1..]);
      } else {
        SubsequenceLength(a, b[1..]);
        assert false;
      }
    }
  }

  /** Filter(s, p) is THE order-preserving sublist of the `p`-entries: any
      sublist of `s` holding only `p`-entries that Filter(s, p) is a sublist of
      equals it. */
  lemma FilterUnique<T>(s: seq<T>, p: T -> bool, t: seq<T>)
    requires IsSubsequence(t, s)
    requires forall x :: x in t ==> p(x)
    requires IsSubsequence(Filter(s, p), t)
    ensures t == Filter(s, p)
  {
    FilterIsGreatest(s, p, t);
    SubsequenceAntisymmetric(t, Filter(s, p));
  }

  lemma {:induction false} FilterAppend<T>(a: seq<T>, b: seq<T>, p: T -> bool)
    ensures Filter(a + b, p) == Filter(a, p) + Filter(b, p)
    decreases |a|
  {
    if |a| > 0 {
      assert (a + b)[1..] == a[1..] + b;
      FilterAppend(a[1..], b, p);
    } else {
      assert a + b == b;
    }
  }

  lemma {:induction false} FilterReverse<T>(s: seq<T>, p: T -> bool)
    ensures Filter(Reverse(s), p) == Reverse(Filter(s, p))
    decreases |s|
  {
    if |s| > 0 {
      FilterReverse(s[1..], p);
      assert Reverse(s) == Reverse(s[1..]) + [s[0]];
      FilterAppend(Reverse(s[1..]), [s[0]], p);
      assert Filter([s[0]], p) == if p(s[0]) then [s[0]] else [];
      if p(s[0]) {
        assert Filter(s, p) == [s[0]] + Filter(s[1..], p);
        assert ([s[0]] + Filter(s[1..], p))[1..] == Filter(s[1..], p);
      }
    }
  }

  /** Filtering a one-element sequence keeps it or empties it. */
  lemma FilterSingleton<T>(x: T, p: T -> bool)
    ensures Filter([x], p) == if p(x) then [x] else []
  {
    assert [x][1..] == [];
  }

  lemma ReverseReverse<T>(s: seq<T>)
    ensures Reverse(Reverse(s)) == s
  {
  }

  /** A count is positive exactly when some entry satisfies the test. */
  lemma CountPositive<T>(s: seq<T>, p: T -> bool)
    ensures Count(s, p) > 0 <==> exists i :: 0 <= i < |s| && p(s[i])
  {
    if exists i :: 0 <= i < |s| && p(s[i]) {
      var i :| 0 <= i < |s| && p(s[i]);
      assert s[i] in Filter(s, p);
    }
    if Count(s, p) > 0 {
      var r := Filter(s, p);
      assert r[0] in s && p(r[0]);
    }
  }

  lemma CountReverse<T>(s: seq<T>, p: T -> bool)
    ensures Count(Reverse(s), p) == Count(s, p)
  {
    FilterReverse(s, p);
  }

  /** Two filters can be applied in either order. */
  lemma {:induction false} FilterCommutes<T>(s: seq<T>, p: T -> bool, q: T -> bool)
    ensures Filter(Filter(s, p), q) == Filter(Filter(s, q), p)
    decreases |s|
  {
    if |s| > 0 {
      FilterCommutes(s[1..], p, q);
      var fp := Filter(s[1..], p);
      var fq := Filter(s[1..], q);
      if p(s[0]) {
        assert ([s[0]] + fp)[1..] == fp;
      }
      if q(s[0]) {
        assert ([s[0]] + fq)[1..] == fq;
      }
    }
  }

  /** Two tests that agree on every entry filter alike. */
  lemma {:induction false} FilterCongruent<T>(s: seq<T>, p: T -> bool, q: T -> bool)
    requires forall i :: 0 <= i < |s| ==> p(s[i]) == q(s[i])
    ensures Filter(s, p) == Filter(s, q)
    decreases |s|
  {
    if |s| > 0 {
      FilterCongruent(s[1..], p, q);
    }
  }

  /** Filtering by `p` and then by `q` is filtering once by their
      conjunction `pq`. */
  lemma {:induction false} FilterFilter<T>(s: seq<T>, p: T -> bool, q: T -> bool, pq: T -> bool)
    requires forall x :: pq(x) == (p(x) && q(x))
    ensures Filter(Filter(s, p), q) == Filter(s, pq)
    decreases |s|
  {
    if |s| > 0 {
      FilterFilter(s[1..], p, q, pq);
      if p(s[0]) {
        assert ([s[0]] + Filter(s[1..], p))[1..] == Filter(s[1..], p);
      }
    }
  }

  /** Filtering commutes with a MapWhere whose rewrites keep every selected
      entry's verdict under the filter. */
  lemma {:induction false} FilterMapWhere<T>(s: seq<T>, p: T -> bool, sel: T -> bool, f: T -> T)
    requires forall i :: 0 <= i < |s| && sel(s[i]) ==> p(f(s[i])) == p(s[i])
    ensures Filter(MapWhere(s, sel, f), p) == MapWhere(Filter(s, p), sel, f)
    decreases |s|
  {
    if |s| > 0 {
      var t := s[1..];
      assert forall i :: 0 <= i < |t| ==> t[i] == s[i + 1];
      FilterMapWhere(t, p, sel, f);
      assert MapWhere(s, sel, f)[1..] == MapWhere(t, sel, f);
      if p(s[0]) {
        assert MapWhere(Filter(s, p), sel, f)[1..] == MapWhere(Filter(t, p), sel, f);
      }
    }
  }

  /** Entries whose membership in `p` is untouched by `f` keep their count
      when MapWhere only rewrites entries it does not count. */
  lemma {:induction false} CountMapWhereUnchanged<T>(s: seq<T>, sel: T -> bool, f: T -> T, p: T -> bool)
    requires forall x :: x in s && sel(x) ==> !p(x) && !p(f(x))
    ensures Count(MapWhere(s, sel, f), p) == Count(s, p)
    decreases |s|
  {
    if |s| > 0 {
      CountMapWhereUnchanged(s[1..], sel, f, p);
      var m := MapWhere(s, sel, f);
      assert m[1..] == MapWhere(s[1..], sel, f);
    }
  }

  /** MapWhere over a sequence in which exactly one entry `x` is selected,
      the rewrite of which leaves `p`, lowers the count of `p` by one when
      `x` satisfied `p`. */
  lemma {:induction false} CountMapWhereOne<T>(s: seq<T>, sel: T -> bool, f: T -> T, p: T -> bool, k: nat)
    requires k < |s| && sel(s[k])
    requires forall i :: 0 <= i < |s| && i != k ==> !sel(s[i])
    requires !p(f(s[k]))
    ensures Count(MapWhere(s, sel, f), p) == Count(s, p) - (if p(s[k]) then 1 else 0)
    decreases |s|
  {
    var m := MapWhere(s, sel, f);
    assert m[1..] == MapWhere(s[1..], sel, f);
    if k == 0 {
      CountMapWhereUnchanged(s[1..], sel, f, p);
    } else {
      CountMapWhereOne(s[1..], sel, f, p, k - 1);
    }
  }
}
