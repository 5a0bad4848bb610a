/** Whole-list operations of JavaScript arrays (`filter` and its length) and the facts about them
    that the task registry, the validators and the notification bookkeeping rely on. */
module Lists {
  import opened Wrappers

  /** `s.filter(p)`: the elements of `s` that satisfy `p`, in their original order. */
  function Filter<T(!new)>(s: seq<T>, p: T -> bool): (r: seq<T>)
    ensures |r| <= |s|
    ensures forall x :: x in r <==> x in s && p(x)
  {
    if s == [] then [] else (if p(s[0]) then [s[0]] else []) + Filter(s[1..], p)
  }

  /** `s.length` after `s.filter(p)`. */
  function Count<T(!new)>(s: seq<T>, p: T -> bool): nat {
    |Filter(s, p)|
  }

  /** `keep` chooses, position by position, which elements of `s` survive. */
  function Select<T>(s: seq<T>, keep: seq<bool>): seq<T>
    requires |keep| == |s|
  {
    if s == [] then [] else (if keep[0] then [s[0]] else []) + Select(s[1..], keep[1..])
  }

  /** `a` is obtained from `b` by deleting elements: an order-preserving subsequence. */
  ghost predicate IsSubsequence<T>(a: seq<T>, b: seq<T>) {
    exists keep: seq<bool> :: |keep| == |b| && Select(b, keep) == a
  }

  predicate NoDuplicates<T(==)>(s: seq<T>) {
    forall i, j :: 0 <= i < j < |s| ==> s[i] != s[j]
  }

  /** The mask that keeps, position by position, exactly the elements satisfying `p`. */
  function KeepMask<T(!new)>(s: seq<T>, p: T -> bool): (keep: seq<bool>)
    ensures |keep| == |s|
    ensures forall i :: 0 <= i < |s| ==> keep[i] == p(s[i])
  {
    if s == [] then [] else [p(s[0])] + KeepMask(s[1..], p)
  }

  /** A filter keeps the survivors in their original relative order. */
  lemma {:induction false} FilterIsSubsequence<T(!new)>(s: seq<T>, p: T -> bool)
    ensures IsSubsequence(Filter(s, p), s)
  {
    FilterIsSelection(s, p);
  }

  lemma {:induction false} FilterIsSelection<T(!new)>(s: seq<T>, p: T -> bool)
    ensures Select(s, KeepMask(s, p)) == Filter(s, p)
  {
    if s != [] {
      FilterIsSelection(s[1..], p);
    }
  }

  /** Filtering depends only on the predicate's values on the elements of the list. */
  lemma {:induction false} FilterCongruent<T(!new)>(s: seq<T>, p: T -> bool, q: T -> bool)
    requires forall x :: x in s ==> p(x) == q(x)
    ensures Filter(s, p) == Filter(s, q)
  {
    if s != [] {
      FilterCongruent(s[1..], p, q);
    }
  }

  /** Two filters in a row are one filter by the conjunction. */
  lemma {:induction false} FilterTwice<T(!new)>(s: seq<T>, p: T -> bool, q: T -> bool, both: T -> bool)
    requires forall x :: both(x) == (p(x) && q(x))
    ensures Filter(Filter(s, p), q) == Filter(s, both)
  {
    if s != [] {
      FilterTwice(s[1..], p, q, both);
      if p(s[0]) {
        var rest := Filter(s[1..], p);
        var once := [s[0]] + rest;
        assert Filter(s, p) == once;
        assert once[0] == s[0] && once[1..] == rest;
        assert Filter(once, q) == (if q(s[0]) then [s[0]] else []) + Filter(rest, q);
      } else {
        assert Filter(s, p) == Filter(s[1..], p);
        assert Filter(s, both) == Filter(s[1..], both);
      }
    }
  }

  /** A filter that everything passes changes nothing. */
  lemma {:induction false} FilterAll<T(!new)>(s: seq<T>, p: T -> bool)
    requires forall x :: x in s ==> p(x)
    ensures Filter(s, p) == s
  {
    if s != [] {
      FilterAll(s[1..], p);
    }
  }

  /** A filter that nothing passes leaves nothing. */
  lemma {:induction false} FilterNone<T(!new)>(s: seq<T>, p: T -> bool)
    requires forall x :: x in s ==> !p(x)
    ensures Filter(s, p) == []
  {
    if s != [] {
      FilterNone(s[1..], p);
    }
  }

  lemma {:induction false} FilterAppend<T(!new)>(s: seq<T>, t: seq<T>, p: T -> bool)
    ensures Filter(s + t, p) == Filter(s, p) + Filter(t, p)
  {
    if s == [] {
      assert s + t == t;
    } else {
      assert (s + t)[1..] == s[1..] + t;
      FilterAppend(s[1..], t, p);
    }
  }

  lemma {:induction false} FilterNoDuplicates<T(!new)>(s: seq<T>, p: T -> bool)
    requires NoDuplicates(s)
    ensures NoDuplicates(Filter(s, p))
  {
    if s != [] {
      FilterNoDuplicates(s[1..], p);
      assert s[0] !in s[1..];
    }
  }

  /** A filter and its complement split a list: together they hold every element exactly as
      often as the list does. */
  lemma {:induction false} FilterMultiset<T(!new)>(s: seq<T>, p: T -> bool, notP: T -> bool)
    requires forall x :: notP(x) == !p(x)
    ensures multiset(Filter(s, p)) + multiset(Filter(s, notP)) == multiset(s)
  {
    if s != [] {
      var rest, restNot := Filter(s[1..], p), Filter(s[1..], notP);
      FilterMultiset(s[1..], p, notP);
      MultisetCons(s);
      if p(s[0]) {
        FilterStep(s, p, [s[0]]);
        FilterStep(s, notP, []);
      } else {
        FilterStep(s, p, []);
        FilterStep(s, notP, [s[0]]);
      }
    }
  }

  lemma MultisetCons<T>(s: seq<T>)
    requires s != []
    ensures multiset(s) == multiset{s[0]} + multiset(s[1..])
  {
    assert s == [s[0]] + s[1..];
  }

  /** One step of a filter, as a multiset. */
  lemma FilterStep<T(!new)>(s: seq<T>, p: T -> bool, head: seq<T>)
    requires s != [] && head == if p(s[0]) then [s[0]] else []
    ensures multiset(Filter(s, p)) == multiset(head) + multiset(Filter(s[1..], p))
  {
    assert Filter(s, p) == head + Filter(s[1..], p);
  }
}
