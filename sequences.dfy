/**
 * Order-preserving filtering of a sequence (JavaScript's `Array.prototype.filter`,
 * Java's `Stream.filter` over a list) and what it guarantees.
 */
module Sequences {

  /** The elements of `s` that `keep` accepts, in their order in `s`. */
  function Filter<T>(keep: T -> bool, s: seq<T>): (r: seq<T>)
    ensures |r| <= |s|
    ensures forall i :: 0 <= i < |r| ==> keep(r[i]) && r[i] in s
    ensures forall x :: x in s && keep(x) ==> x in r
    decreases |s|
  {
    if s == [] then []
    else if keep(s[0]) then [s[0]] + Filter(keep, s[1..])
    else Filter(keep, s[1..])
  }

  /** `r` is obtained from `s` by deleting elements, without reordering the rest. */
  ghost predicate IsSubsequence<T>(r: seq<T>, s: seq<T>)
    decreases |s|
  {
    if r == [] then true
    else if s == [] then false
    else (r[0] == s[0] && IsSubsequence(r[1..], s[1..])) || IsSubsequence(r, s[1..])
  }

  /** A subsequence never holds more copies of a value than the sequence it comes from. */
  lemma {:induction false} SubsequenceCounts<T>(r: seq<T>, s: seq<T>, x: T)
    requires IsSubsequence(r, s)
    ensures multiset(r)[x] <= multiset(s)[x]
    decreases |s|
  {
    if r != [] {
      assert s == [s[0]] + s[1..];
      if r[0] == s[0] && IsSubsequence(r[1..], s[1..]) {
        SubsequenceCounts(r[1..], s[1..], x);
        assert r == [r[0]] + r[1..];
      } else {
        SubsequenceCounts(r, s[1..], x);
      }
    }
  }

  /** Filtering deletes elements and keeps the order of the survivors. */
  lemma {:induction false} FilterIsSubsequence<T>(keep: T -> bool, s: seq<T>)
    ensures IsSubsequence(Filter(keep, s), s)
    decreases |s|
  {
    if s != [] {
      FilterIsSubsequence(keep, s[1..]);
      var r := Filter(keep, s);
      if keep(s[0]) {
        assert r[0] == s[0] && r[1..] == Filter(keep, s[1..]);
      }
    }
  }

  /** An accepted value keeps every copy it had; a rejected value keeps none. */
  lemma {:induction false} FilterCount<T>(keep: T -> bool, s: seq<T>, x: T)
    ensures multiset(Filter(keep, s))[x] == if keep(x) then multiset(s)[x] else 0
    decreases |s|
  {
    if s != [] {
      FilterCount(keep, s[1..], x);
      assert s == [s[0]] + s[1..];
    }
  }

  /** Filtering a concatenation filters each part. */
  lemma {:induction false} FilterAppend<T>(keep: T -> bool, a: seq<T>, b: seq<T>)
    ensures Filter(keep, a + b) == Filter(keep, a) + Filter(keep, b)
    decreases |a|
  {
    if a == [] {
      assert a + b == b;
    } else {
      assert (a + b)[0] == a[0] && (a + b)[1..] == a[1..] + b;
      FilterAppend(keep, a[1..], b);
    }
  }

  /** Filtering twice with the same test changes nothing. */
  lemma {:induction false} FilterIdempotent<T>(keep: T -> bool, s: seq<T>)
    ensures Filter(keep, Filter(keep, s)) == Filter(keep, s)
    decreases |s|
  {
    if s != [] {
      FilterIdempotent(keep, s[1..]);
    }
  }

  /**
   * The filter is the only subsequence of `s` that keeps every copy of the accepted
   * values and no copy of the rejected ones: an independent characterisation of Filter.
   */
  lemma {:induction false} FilterUnique<T>(keep: T -> bool, s: seq<T>, r: seq<T>)
    requires IsSubsequence(r, s)
    requires forall x :: multiset(r)[x] == if keep(x) then multiset(s)[x] else 0
    ensures r == Filter(keep, s)
    decreases |s|
  {
    if s == [] {
      assert r == [];
    } else {
      var h, t := s[0], s[1..];
      assert s == [h] + t;
      if keep(h) {
        assert multiset(r)[h] == multiset(t)[h] + 1;
        if IsSubsequence(r, t) {
          SubsequenceCounts(r, t, h);
          assert false;
        }
        assert r != [] && r[0] == h && IsSubsequence(r[1..], t);
        assert r == [h] + r[1..];
        forall x
          ensures multiset(r[1..])[x] == if keep(x) then multiset(t)[x] else 0
        {
          assert multiset(r)[x] == multiset([h])[x] + multiset(r[1..])[x];
        }
        FilterUnique(keep, t, r[1..]);
      } else {
        assert multiset(r)[h] == 0;
        assert r == [] || r[0] != h by {
          if r != [] {
            assert r[0] in multiset(r);
          }
        }
        assert IsSubsequence(r, t);
        forall x
          ensures multiset(r)[x] == if keep(x) then multiset(t)[x] else 0
        {
          if keep(x) {
            assert x != h;
          }
        }
        FilterUnique(keep, t, r);
      }
    }
  }

  /** A test that accepts every element keeps the whole sequence. */
  lemma {:induction false} FilterKeepsAll<T>(keep: T -> bool, s: seq<T>)
    requires forall x :: x in s ==> keep(x)
    ensures Filter(keep, s) == s
    decreases |s|
  {
    if s != [] {
      FilterKeepsAll(keep, s[1..]);
    }
  }
}
