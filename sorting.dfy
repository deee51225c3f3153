/** Ordering used where the original program lets the database sort (`ORDER BY`) and
    cut (`LIMIT`/`OFFSET`): a stable insertion sort by a caller-given "goes before"
    relation, proved sorted and a permutation, and the top-K property of its prefixes. */
module Sorting {
  import opened Common

  /** `le(a, b)`: `a` may be listed before `b`. Total and transitive, ties allowed. */
  ghost predicate TotalPreorder<T(!new)>(le: (T, T) -> bool) {
    && (forall a, b :: le(a, b) || le(b, a))
    && (forall a, b, c :: le(a, b) && le(b, c) ==> le(a, c))
  }

  ghost predicate SortedBy<T>(s: seq<T>, le: (T, T) -> bool) {
    forall i, j :: 0 <= i < j < |s| ==> le(s[i], s[j])
  }

  /** `x` placed in front of the first element it may precede. */
  function InsertBy<T(!new)>(x: T, s: seq<T>, le: (T, T) -> bool): (r: seq<T>)
    requires TotalPreorder(le)
    requires SortedBy(s, le)
    ensures multiset(r) == multiset(s) + multiset{x}
    ensures |r| == |s| + 1
    ensures forall i :: 0 <= i < |r| ==> r[i] == x || r[i] in s
    ensures SortedBy(r, le)
  {
    if s == [] then [x]
    else if le(x, s[0]) then
      InsertFront(x, s, le);
      [x] + s
    else
      var rest := InsertBy(x, s[1..], le);
      InsertBehind(x, s, rest, le);
      [s[0]] + rest
  }

  /** `x` may go in front of a sorted sequence whose head it may precede. */
  lemma InsertFront<T(!new)>(x: T, s: seq<T>, le: (T, T) -> bool)
    requires TotalPreorder(le) && SortedBy(s, le)
    requires |s| > 0 && le(x, s[0])
    ensures multiset([x] + s) == multiset(s) + multiset{x}
    ensures forall i :: 0 <= i < |[x] + s| ==> ([x] + s)[i] == x || ([x] + s)[i] in s
    ensures SortedBy([x] + s, le)
  {
    forall i | 0 <= i < |s| ensures le(x, s[i]) {
      if i > 0 {
        assert le(s[0], s[i]);
      }
    }
    SortedCons(x, s, le);
    forall i | 0 < i < |[x] + s| ensures ([x] + s)[i] in s {
      assert ([x] + s)[i] == s[i - 1];
    }
  }

  /** `x` inserted into the tail of a sorted sequence whose head may precede it. */
  lemma InsertBehind<T(!new)>(x: T, s: seq<T>, rest: seq<T>, le: (T, T) -> bool)
    requires TotalPreorder(le) && SortedBy(s, le)
    requires |s| > 0 && !le(x, s[0])
    requires multiset(rest) == multiset(s[1..]) + multiset{x}
    requires forall i :: 0 <= i < |rest| ==> rest[i] == x || rest[i] in s[1..]
    requires SortedBy(rest, le)
    ensures multiset([s[0]] + rest) == multiset(s) + multiset{x}
    ensures forall i :: 0 <= i < |[s[0]] + rest| ==> ([s[0]] + rest)[i] == x || ([s[0]] + rest)[i] in s
    ensures SortedBy([s[0]] + rest, le)
  {
    assert s == [s[0]] + s[1..];
    HeadPrecedesInsert(x, s, rest, le);
    SortedCons(s[0], rest, le);
    forall i | 0 < i < |[s[0]] + rest| ensures ([s[0]] + rest)[i] == x || ([s[0]] + rest)[i] in s {
      assert ([s[0]] + rest)[i] == rest[i - 1];
    }
  }

  /** An element that may precede every element of a sorted sequence keeps it sorted in front. */
  lemma SortedCons<T>(h: T, rest: seq<T>, le: (T, T) -> bool)
    requires SortedBy(rest, le)
    requires forall i :: 0 <= i < |rest| ==> le(h, rest[i])
    ensures SortedBy([h] + rest, le)
  {
    forall i, j | 0 <= i < j < |[h] + rest| ensures le(([h] + rest)[i], ([h] + rest)[j]) {
      if i > 0 {
        assert ([h] + rest)[i] == rest[i - 1];
      }
      assert ([h] + rest)[j] == rest[j - 1];
    }
  }

  /** The head of a sorted sequence may precede everything of its tail with `x` inserted,
      when it may precede `x`. */
  lemma HeadPrecedesInsert<T>(x: T, s: seq<T>, rest: seq<T>, le: (T, T) -> bool)
    requires |s| > 0 && SortedBy(s, le) && le(s[0], x)
    requires forall i :: 0 <= i < |rest| ==> rest[i] == x || rest[i] in s[1..]
    ensures forall i :: 0 <= i < |rest| ==> le(s[0], rest[i])
  {
    forall i | 0 <= i < |rest| ensures le(s[0], rest[i]) {
      if rest[i] != x {
        var k :| 0 <= k < |s[1..]| && s[1..][k] == rest[i];
        assert s[k + 1] == rest[i];
      }
    }
  }

  /** A rearrangement holds only elements of the original. */
  lemma PermutationMembers<T>(s: seq<T>, r: seq<T>)
    requires multiset(r) == multiset(s)
    ensures forall i :: 0 <= i < |r| ==> r[i] in s
  {
    forall i | 0 <= i < |r| ensures r[i] in s {
      assert r[i] in multiset(r);
    }
  }

  /** The elements of `s` rearranged so that each may precede every later one. */
  function SortBy<T(!new)>(s: seq<T>, le: (T, T) -> bool): (r: seq<T>)
    requires TotalPreorder(le)
    ensures multiset(r) == multiset(s)
    ensures |r| == |s|
    ensures SortedBy(r, le)
  {
    if s == [] then []
    else
      assert s == [s[0]] + s[1..];
      InsertBy(s[0], SortBy(s[1..], le), le)
  }

  /** The first `k` elements (all of them when there are fewer): SQL `LIMIT k`. */
  function Take<T>(s: seq<T>, k: nat): (r: seq<T>)
    ensures |r| == Min(k, |s|)
    ensures forall i :: 0 <= i < |r| ==> r[i] == s[i]
  {
    s[..Min(k, |s|)]
  }

  /** The `k` first elements of the sorted sequence are the `k` best: they are drawn from
      the input, in order, and every element of the input is either among them or may
      follow each of them. */
  lemma TopKIsBest<T(!new)>(s: seq<T>, le: (T, T) -> bool, k: nat)
    requires TotalPreorder(le)
    ensures var top := Take(SortBy(s, le), k);
      && multiset(top) <= multiset(s)
      && (forall i :: 0 <= i < |top| ==> top[i] in s)
      && SortedBy(top, le)
      && forall x :: x in s ==> x in top || forall j :: 0 <= j < |top| ==> le(top[j], x)
  {
    var sorted := SortBy(s, le);
    var top := Take(sorted, k);
    TopKDrawn(s, sorted, k);
    TopKCovers(s, sorted, le, k);
    assert SortedBy(top, le) by {
      forall i, j | 0 <= i < j < |top| ensures le(top[i], top[j]) {
        assert top[i] == sorted[i] && top[j] == sorted[j];
      }
    }
  }

  /** A prefix of a rearrangement of `s` is a sub-multiset of `s` and holds only its elements. */
  lemma TopKDrawn<T>(s: seq<T>, sorted: seq<T>, k: nat)
    requires multiset(sorted) == multiset(s)
    ensures var top := Take(sorted, k);
      && multiset(top) <= multiset(s)
      && forall i :: 0 <= i < |top| ==> top[i] in s
  {
    var top := Take(sorted, k);
    assert sorted == top + sorted[|top|..];
    assert multiset(sorted) == multiset(top) + multiset(sorted[|top|..]);
    forall i | 0 <= i < |top| ensures top[i] in s {
      assert top[i] in multiset(sorted);
    }
  }

  /** Every element of `s` left out of a sorted prefix may follow each element of the prefix. */
  lemma TopKCovers<T>(s: seq<T>, sorted: seq<T>, le: (T, T) -> bool, k: nat)
    requires multiset(sorted) == multiset(s)
    requires SortedBy(sorted, le)
    ensures var top := Take(sorted, k);
      forall x :: x in s ==> x in top || forall j :: 0 <= j < |top| ==> le(top[j], x)
  {
    var top := Take(sorted, k);
    forall x | x in s
      ensures x in top || forall j :: 0 <= j < |top| ==> le(top[j], x)
    {
      assert x in multiset(s);
      assert x in multiset(sorted);
      var p :| 0 <= p < |sorted| && sorted[p] == x;
      if p < |top| {
        assert top[p] == x;
      } else {
        forall j | 0 <= j < |top| ensures le(top[j], x) {
          assert top[j] == sorted[j];
        }
      }
    }
  }
}
