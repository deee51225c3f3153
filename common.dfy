/** Small value types and sequence/string helpers shared by every module of the model. */
module Common {

  /** A value that may be absent (`undefined` / `null` in the original program). */
  datatype Option<+T> = None | Some(value: T)

  /** How an asynchronous call of the original program ends: with a value, by throwing
      an error with a message, or never (a promise whose settling event never arrives). */
  datatype Outcome<+T> = Done(value: T) | Thrown(message: string) | NeverSettles

  type Bytes = seq<bv8>

  function Min(a: int, b: int): (r: int)
    ensures r <= a && r <= b && (r == a || r == b)
  {
    if a <= b then a else b
  }

  /** `s.startsWith(prefix)` */
  predicate StartsWith(s: string, prefix: string) {
    |prefix| <= |s| && s[..|prefix|] == prefix
  }

  /** The elements of `s` satisfying `p`, in their original order. */
  function Filter<T>(s: seq<T>, p: T -> bool): (r: seq<T>)
    ensures |r| <= |s|
    ensures forall i :: 0 <= i < |r| ==> r[i] in s && p(r[i])
    ensures forall i :: 0 <= i < |s| && p(s[i]) ==> s[i] in r
    ensures multiset(r) <= multiset(s)
    ensures (forall i :: 0 <= i < |s| ==> p(s[i])) ==> r == s
    ensures (forall i :: 0 <= i < |s| ==> !p(s[i])) ==> r == []
  {
    if s == [] then []
    else
      var rest := Filter(s[1..], p);
      var r := if p(s[0]) then [s[0]] + rest else rest;
      FilterStep(s, p, rest, r);
      r
  }

  /** The filter postconditions carry over from the tail to the whole sequence. */
  lemma FilterStep<T>(s: seq<T>, p: T -> bool, rest: seq<T>, r: seq<T>)
    requires |s| > 0
    requires |rest| <= |s[1..]|
    requires forall i :: 0 <= i < |rest| ==> rest[i] in s[1..] && p(rest[i])
    requires forall i :: 0 <= i < |s[1..]| && p(s[1..][i]) ==> s[1..][i] in rest
    requires multiset(rest) <= multiset(s[1..])
    requires (forall i :: 0 <= i < |s[1..]| ==> p(s[1..][i])) ==> rest == s[1..]
    requires (forall i :: 0 <= i < |s[1..]| ==> !p(s[1..][i])) ==> rest == []
    requires r == if p(s[0]) then [s[0]] + rest else rest
    ensures |r| <= |s|
    ensures forall i :: 0 <= i < |r| ==> r[i] in s && p(r[i])
    ensures forall i :: 0 <= i < |s| && p(s[i]) ==> s[i] in r
    ensures multiset(r) <= multiset(s)
    ensures (forall i :: 0 <= i < |s| ==> p(s[i])) ==> r == s
    ensures (forall i :: 0 <= i < |s| ==> !p(s[i])) ==> r == []
  {
    FilterStepKept(s, p, rest, r);
    FilterStepFound(s, p, rest, r);
    FilterStepMultiset(s, p, rest, r);
    FilterStepAll(s, p, rest, r);
    FilterStepNone(s, p, rest, r);
  }

  lemma FilterStepKept<T>(s: seq<T>, p: T -> bool, rest: seq<T>, r: seq<T>)
    requires |s| > 0
    requires forall i :: 0 <= i < |rest| ==> rest[i] in s[1..] && p(rest[i])
    requires r == if p(s[0]) then [s[0]] + rest else rest
    ensures forall i :: 0 <= i < |r| ==> r[i] in s && p(r[i])
  {
    forall i | 0 <= i < |r|
      ensures r[i] in s && p(r[i])
    {
      if p(s[0]) && i > 0 {
        assert r[i] == rest[i - 1];
      }
    }
  }

  lemma FilterStepFound<T>(s: seq<T>, p: T -> bool, rest: seq<T>, r: seq<T>)
    requires |s| > 0
    requires forall i :: 0 <= i < |s[1..]| && p(s[1..][i]) ==> s[1..][i] in rest
    requires r == if p(s[0]) then [s[0]] + rest else rest
    ensures forall i :: 0 <= i < |s| && p(s[i]) ==> s[i] in r
  {
    forall i | 0 <= i < |s| && p(s[i])
      ensures s[i] in r
    {
      if i > 0 {
        assert s[i] == s[1..][i - 1];
      }
    }
  }

  lemma FilterStepMultiset<T>(s: seq<T>, p: T -> bool, rest: seq<T>, r: seq<T>)
    requires |s| > 0
    requires |rest| <= |s[1..]|
    requires multiset(rest) <= multiset(s[1..])
    requires r == if p(s[0]) then [s[0]] + rest else rest
    ensures |r| <= |s|
    ensures multiset(r) <= multiset(s)
  {
    assert s == [s[0]] + s[1..];
  }

  lemma FilterStepAll<T>(s: seq<T>, p: T -> bool, rest: seq<T>, r: seq<T>)
    requires |s| > 0
    requires (forall i :: 0 <= i < |s[1..]| ==> p(s[1..][i])) ==> rest == s[1..]
    requires r == if p(s[0]) then [s[0]] + rest else rest
    ensures (forall i :: 0 <= i < |s| ==> p(s[i])) ==> r == s
  {
    if forall i :: 0 <= i < |s| ==> p(s[i]) {
      forall i | 0 <= i < |s[1..]| ensures p(s[1..][i]) { assert s[1..][i] == s[i + 1]; }
      assert s == [s[0]] + s[1..];
    }
  }

  lemma FilterStepNone<T>(s: seq<T>, p: T -> bool, rest: seq<T>, r: seq<T>)
    requires |s| > 0
    requires (forall i :: 0 <= i < |s[1..]| ==> !p(s[1..][i])) ==> rest == []
    requires r == if p(s[0]) then [s[0]] + rest else rest
    ensures (forall i :: 0 <= i < |s| ==> !p(s[i])) ==> r == []
  {
    if forall i :: 0 <= i < |s| ==> !p(s[i]) {
      forall i | 0 <= i < |s[1..]| ensures !p(s[1..][i]) { assert s[1..][i] == s[i + 1]; }
    }
  }

  /** An element of `s` keeps its place, shifted by one, after an element is put in front. */
  lemma ConsIndex<T>(x: T, s: seq<T>, j: nat)
    requires 0 < j <= |s|
    ensures ([x] + s)[j] == s[j - 1]
  {
  }

  lemma AppendAssoc<T>(a: seq<T>, b: seq<T>, c: seq<T>)
    ensures a + b + c == a + (b + c)
  {
  }

  /** Filtering distributes over concatenation: the order of the kept elements is the input order. */
  lemma {:induction false} FilterAppend<T>(a: seq<T>, b: seq<T>, p: T -> bool)
    ensures Filter(a + b, p) == Filter(a, p) + Filter(b, p)
  {
    if a == [] {
      assert a + b == b;
    } else {
      assert (a + b)[1..] == a[1..] + b;
      FilterAppend(a[1..], b, p);
    }
  }

  /** Filtering keeps the keys of a sequence pairwise distinct. */
  lemma {:induction false} FilterKeepsDistinctKeys<T, K>(s: seq<T>, p: T -> bool, key: T -> K)
    requires forall i, j :: 0 <= i < j < |s| ==> key(s[i]) != key(s[j])
    ensures forall i, j :: 0 <= i < j < |Filter(s, p)| ==> key(Filter(s, p)[i]) != key(Filter(s, p)[j])
  {
    if s != [] {
      var tail := s[1..];
      var rest := Filter(tail, p);
      assert forall i, j :: 0 <= i < j < |tail| ==> key(tail[i]) != key(tail[j]) by {
        forall i, j | 0 <= i < j < |tail| ensures key(tail[i]) != key(tail[j]) {
          assert tail[i] == s[i + 1] && tail[j] == s[j + 1];
        }
      }
      FilterKeepsDistinctKeys(tail, p, key);
      if p(s[0]) {
        var f := [s[0]] + rest;
        assert Filter(s, p) == f;
        forall i, j | 0 <= i < j < |f|
          ensures key(f[i]) != key(f[j])
        {
          ConsIndex(s[0], rest, j);
          if i == 0 {
            assert rest[j - 1] in tail;
            var k :| 0 <= k < |tail| && tail[k] == rest[j - 1];
            assert s[k + 1] == f[j];
          } else {
            ConsIndex(s[0], rest, i);
          }
        }
      } else {
        assert Filter(s, p) == rest;
      }
    }
  }

  /** Mapping the same function over two sequences keeps one's multiset inside the other's. */
  lemma {:induction false} MapMultisetMono<A, B>(a: seq<A>, b: seq<A>, fa: seq<B>, fb: seq<B>, f: A -> B)
    requires multiset(a) <= multiset(b)
    requires |fa| == |a| && forall i :: 0 <= i < |a| ==> fa[i] == f(a[i])
    requires |fb| == |b| && forall i :: 0 <= i < |b| ==> fb[i] == f(b[i])
    ensures multiset(fa) <= multiset(fb)
    decreases |a|
  {
    if a != [] {
      assert a[0] in multiset(a);
      var j :| 0 <= j < |b| && b[j] == a[0];
      MapMultisetRemove(a, b, fa, fb, f, j);
      MapMultisetMono(a[1..], b[..j] + b[j + 1..], fa[1..], fb[..j] + fb[j + 1..], f);
      MapMultisetRestore(fa, fb, j);
    }
  }

  /** Taking the first element of `a` out of `b` at position `j` keeps the inclusion and
      the pairing with the images. */
  lemma MapMultisetRemove<A, B>(a: seq<A>, b: seq<A>, fa: seq<B>, fb: seq<B>, f: A -> B, j: nat)
    requires multiset(a) <= multiset(b)
    requires |fa| == |a| && forall i :: 0 <= i < |a| ==> fa[i] == f(a[i])
    requires |fb| == |b| && forall i :: 0 <= i < |b| ==> fb[i] == f(b[i])
    requires 0 < |a| && j < |b| && b[j] == a[0]
    ensures multiset(a[1..]) <= multiset(b[..j] + b[j + 1..])
    ensures |fa[1..]| == |a[1..]| && forall i :: 0 <= i < |a[1..]| ==> fa[1..][i] == f(a[1..][i])
    ensures var b', fb' := b[..j] + b[j + 1..], fb[..j] + fb[j + 1..];
      |fb'| == |b'| && forall i :: 0 <= i < |b'| ==> fb'[i] == f(b'[i])
    ensures fa[0] == fb[j]
  {
    var rest, others := multiset(a[1..]), multiset(b[..j] + b[j + 1..]);
    RemoveAtMultiset(b, j);
    assert a == [a[0]] + a[1..];
    assert multiset(a) == rest + multiset{a[0]};
    MultisetCancel(rest, others, multiset{a[0]});
    RemoveAtMap(b, fb, f, j);
  }

  /** Putting the element at position `j` back on both sides keeps the inclusion. */
  lemma MapMultisetRestore<B>(fa: seq<B>, fb: seq<B>, j: nat)
    requires 0 < |fa| && j < |fb| && fa[0] == fb[j]
    requires multiset(fa[1..]) <= multiset(fb[..j] + fb[j + 1..])
    ensures multiset(fa) <= multiset(fb)
  {
    var rest, others := multiset(fa[1..]), multiset(fb[..j] + fb[j + 1..]);
    RemoveAtMultiset(fb, j);
    assert fa == [fa[0]] + fa[1..];
    assert multiset(fa) == rest + multiset{fa[0]};
    MultisetAddMono(rest, others, multiset{fa[0]});
  }

  lemma MultisetAddMono<T>(x: multiset<T>, y: multiset<T>, e: multiset<T>)
    requires x <= y
    ensures x + e <= y + e
  {
    forall z
      ensures (x + e)[z] <= (y + e)[z]
    {
      assert x[z] <= y[z];
    }
  }

  lemma MultisetCancel<T>(x: multiset<T>, y: multiset<T>, e: multiset<T>)
    requires x + e <= y + e
    ensures x <= y
  {
    forall z
      ensures x[z] <= y[z]
    {
      assert (x + e)[z] <= (y + e)[z];
    }
  }

  /** Removing position `j` removes one occurrence of its element. */
  lemma RemoveAtMultiset<T>(s: seq<T>, j: nat)
    requires j < |s|
    ensures multiset(s) == multiset(s[..j] + s[j + 1..]) + multiset{s[j]}
  {
    assert s == s[..j] + [s[j]] + s[j + 1..];
  }

  /** Removing the same position from a sequence and from its image keeps them paired. */
  lemma RemoveAtMap<A, B>(b: seq<A>, fb: seq<B>, f: A -> B, j: nat)
    requires j < |b| && |fb| == |b| && forall i :: 0 <= i < |b| ==> fb[i] == f(b[i])
    ensures var b', fb' := b[..j] + b[j + 1..], fb[..j] + fb[j + 1..];
      |fb'| == |b'| && forall i :: 0 <= i < |b'| ==> fb'[i] == f(b'[i])
  {
    var b', fb' := b[..j] + b[j + 1..], fb[..j] + fb[j + 1..];
    forall i | 0 <= i < |b'|
      ensures fb'[i] == f(b'[i])
    {
      if i >= j {
        assert b'[i] == b[i + 1] && fb'[i] == fb[i + 1];
      }
    }
  }

  /** Filtering twice with two predicates keeps the elements satisfying both. */
  lemma {:induction false} FilterFilter<T>(s: seq<T>, p: T -> bool, q: T -> bool)
    ensures Filter(Filter(s, p), q) == Filter(s, x => p(x) && q(x))
  {
    if s != [] {
      FilterFilter(s[1..], p, q);
    }
  }

  /** ASCII upper-case letters lowered; every other character is kept. */
  function LowerChar(c: char): (r: char)
    ensures 'A' <= c <= 'Z' ==> r as int == c as int + 32
    ensures !('A' <= c <= 'Z') ==> r == c
    ensures !('A' <= r <= 'Z')
  {
    if 'A' <= c <= 'Z' then (c as int + 32) as char else c
  }

  function Lower(s: string): (r: string)
    ensures |r| == |s|
    ensures forall i :: 0 <= i < |s| ==> r[i] == LowerChar(s[i])
  {
    seq(|s|, i requires 0 <= i < |s| => LowerChar(s[i]))
  }

  /** `t` occurs in `s` as a contiguous substring, checked from the left. */
  function Contains(s: string, t: string): (r: bool)
    decreases |s|
  {
    StartsWith(s, t) || (|s| > 0 && Contains(s[1..], t))
  }

  ghost predicate OccursAt(s: string, t: string, i: int) {
    0 <= i && i + |t| <= |s| && s[i..i + |t|] == t
  }

  /** The left-to-right search agrees with the positional definition of a substring. */
  lemma {:induction false} ContainsIff(s: string, t: string)
    ensures Contains(s, t) <==> exists i :: OccursAt(s, t, i)
    decreases |s|
  {
    if StartsWith(s, t) {
      assert OccursAt(s, t, 0);
    } else if |s| == 0 {
    } else {
      ContainsIff(s[1..], t);
      if Contains(s[1..], t) {
        var i :| OccursAt(s[1..], t, i);
        assert s[i + 1..i + 1 + |t|] == s[1..][i..i + |t|];
        assert OccursAt(s, t, i + 1);
      } else {
        forall i | 1 <= i && i + |t| <= |s|
          ensures !OccursAt(s, t, i)
        {
          assert s[1..][i - 1..i - 1 + |t|] == s[i..i + |t|];
          assert !OccursAt(s[1..], t, i - 1);
        }
      }
    }
  }
}
