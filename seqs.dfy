/** Sequence combinators that stand for the JavaScript array methods the
    storefront uses: `filter`, `some`, `find` and `slice(0, n)`. */
module Seqs {

  datatype Option<T> = None | Some(value: T)

  /** `Array.prototype.filter`: the elements that satisfy `keep`, in order. */
  function Filter<T>(s: seq<T>, keep: T -> bool): (r: seq<T>)
    ensures |r| <= |s|
    ensures forall i :: 0 <= i < |r| ==> keep(r[i])
  {
    if s == [] then []
    else (if keep(s[0]) then [s[0]] else []) + Filter(s[1..], keep)
  }

  /** Filtering never adds an element nor repeats one. */
  lemma {:induction false} FilterSubMultiset<T>(s: seq<T>, keep: T -> bool)
    ensures multiset(Filter(s, keep)) <= multiset(s)
  {
    if s != [] {
      FilterSubMultiset(s[1..], keep);
      assert s == [s[0]] + s[1..];
    }
  }

  /** Filtering keeps every occurrence of a passing element and none of a
      failing one. */
  lemma {:induction false} FilterCount<T>(s: seq<T>, keep: T -> bool, x: T)
    ensures multiset(Filter(s, keep))[x] == if keep(x) then multiset(s)[x] else 0
  {
    if s != [] {
      FilterCount(s[1..], keep, x);
      assert s == [s[0]] + s[1..];
    }
  }

  /** An element is kept exactly when it is in the input and passes. */
  lemma {:induction false} FilterMembers<T>(s: seq<T>, keep: T -> bool, x: T)
    ensures x in Filter(s, keep) <==> x in s && keep(x)
  {
    if s != [] {
      FilterMembers(s[1..], keep, x);
      assert s == [s[0]] + s[1..];
    }
  }

  lemma FilterMembership<T>(s: seq<T>, keep: T -> bool)
    ensures forall x :: x in Filter(s, keep) <==> x in s && keep(x)
  {
    forall x
      ensures x in Filter(s, keep) <==> x in s && keep(x)
    {
      FilterMembers(s, keep, x);
    }
  }

  /** Filtering a list with a given head. */
  lemma FilterCons<T>(x: T, s: seq<T>, keep: T -> bool)
    ensures Filter([x] + s, keep) == (if keep(x) then [x] else []) + Filter(s, keep)
  {
    assert ([x] + s)[1..] == s;
  }

  /** Putting the head of `s` in front of `t`, whose filter is that of the
      tail of `s` with `front` before it: when `front` is not empty the head
      fails the test, so `front` still comes first. */
  lemma FilterConsAfter<T>(s: seq<T>, t: seq<T>, front: seq<T>, keep: T -> bool)
    requires s != []
    requires Filter(t, keep) == front + Filter(s[1..], keep)
    requires front != [] ==> !keep(s[0])
    ensures Filter([s[0]] + t, keep) == front + Filter(s, keep)
  {
    FilterCons(s[0], t, keep);
    assert Filter(s, keep) == (if keep(s[0]) then [s[0]] else []) + Filter(s[1..], keep);
    if front == [] {
      assert front + Filter(s[1..], keep) == Filter(s[1..], keep);
      assert front + Filter(s, keep) == Filter(s, keep);
    }
  }

  /** A list in which no element passing `f` follows one failing it is its
      passing elements followed by its failing ones (`g` is the negation of
      `f`). */
  lemma {:induction false} PartitionedSplit<T>(s: seq<T>, f: T -> bool, g: T -> bool)
    requires forall i :: 0 <= i < |s| ==> g(s[i]) == !f(s[i])
    requires forall i, j :: 0 <= i < j < |s| && !f(s[i]) ==> !f(s[j])
    ensures s == Filter(s, f) + Filter(s, g)
  {
    if s != [] {
      var rest := s[1..];
      assert s == [s[0]] + rest;
      if f(s[0]) {
        assert forall i, j :: 0 <= i < j < |rest| && !f(rest[i]) ==> !f(rest[j]) by {
          forall i, j | 0 <= i < j < |rest| && !f(rest[i])
            ensures !f(rest[j])
          {
            assert rest[i] == s[i + 1] && rest[j] == s[j + 1];
          }
        }
        PartitionedSplit(rest, f, g);
        FilterCons(s[0], rest, f);
        FilterCons(s[0], rest, g);
      } else {
        FilterDropsAll(s, f);
        FilterKeepsAll(s, g);
      }
    }
  }

  /** Filtering only drops elements that fail the predicate: when every
      element passes, nothing is dropped. */
  lemma {:induction false} FilterKeepsAll<T>(s: seq<T>, keep: T -> bool)
    requires forall i :: 0 <= i < |s| ==> keep(s[i])
    ensures Filter(s, keep) == s
  {
    if s != [] {
      FilterKeepsAll(s[1..], keep);
    }
  }

  /** Filtering drops every element when none passes. */
  lemma {:induction false} FilterDropsAll<T>(s: seq<T>, keep: T -> bool)
    requires forall i :: 0 <= i < |s| ==> !keep(s[i])
    ensures Filter(s, keep) == []
  {
    if s != [] {
      FilterDropsAll(s[1..], keep);
    }
  }

  /** Two filters in a row are one filter by the conjunction. */
  lemma {:induction false} FilterFilter<T>(s: seq<T>, f: T -> bool, g: T -> bool, both: T -> bool)
    requires forall x :: both(x) == (f(x) && g(x))
    ensures Filter(Filter(s, f), g) == Filter(s, both)
  {
    if s != [] {
      FilterFilter(s[1..], f, g, both);
      if f(s[0]) {
        assert Filter(s, f) == [s[0]] + Filter(s[1..], f);
        assert Filter(s, f)[1..] == Filter(s[1..], f);
      } else {
        assert Filter(s, f) == Filter(s[1..], f);
      }
    }
  }

  /** Filters by predicates that agree on the elements give the same result. */
  lemma {:induction false} FilterExtensional<T>(s: seq<T>, f: T -> bool, g: T -> bool)
    requires forall i :: 0 <= i < |s| ==> f(s[i]) == g(s[i])
    ensures Filter(s, f) == Filter(s, g)
  {
    if s != [] {
      FilterExtensional(s[1..], f, g);
    }
  }

  /** Filtering distributes over concatenation. */
  lemma {:induction false} FilterAppend<T>(s: seq<T>, t: seq<T>, keep: T -> bool)
    ensures Filter(s + t, keep) == Filter(s, keep) + Filter(t, keep)
  {
    if s == [] {
      assert s + t == t;
    } else {
      assert (s + t)[1..] == s[1..] + t;
      FilterAppend(s[1..], t, keep);
    }
  }

  /** Two lists that are permutations of each other hold the same elements. */
  lemma SameMultisetSameMembers<T>(r: seq<T>, t: seq<T>)
    requires multiset(r) == multiset(t)
    ensures forall x :: x in r <==> x in t
  {
    forall x
      ensures x in r <==> x in t
    {
      assert x in r <==> x in multiset(r);
      assert x in t <==> x in multiset(t);
    }
  }

  /** `Array.prototype.some`. */
  function Any<T>(s: seq<T>, p: T -> bool): (r: bool)
    ensures r <==> exists i :: 0 <= i < |s| && p(s[i])
  {
    if s == [] then false
    else p(s[0]) || Any(s[1..], p)
  }

  /** The position `Array.prototype.find` stops at: the first element that
      satisfies `p`, or `|s|` when there is none. */
  function FindIndex<T>(s: seq<T>, p: T -> bool): (k: nat)
    ensures k <= |s|
    ensures forall j :: 0 <= j < k ==> !p(s[j])
    ensures k < |s| ==> p(s[k])
  {
    if s == [] then 0
    else if p(s[0]) then 0
    else 1 + FindIndex(s[1..], p)
  }

  /** `Array.prototype.find`, with `undefined` as `None`. */
  function Find<T>(s: seq<T>, p: T -> bool): (r: Option<T>)
    ensures r.None? <==> forall i :: 0 <= i < |s| ==> !p(s[i])
    ensures r.Some? ==> exists k :: 0 <= k < |s| && s[k] == r.value && p(s[k]) &&
                                    forall j :: 0 <= j < k ==> !p(s[j])
  {
    var k := FindIndex(s, p);
    if k < |s| then Some(s[k]) else None
  }

  /** `Array.prototype.slice(0, n)` for a non-negative `n`. */
  function Take<T>(s: seq<T>, n: nat): (r: seq<T>)
    ensures |r| == if n < |s| then n else |s|
    ensures r <= s
  {
    if n < |s| then s[..n] else s
  }
}
