/** Sequence library code the programs call as a black box, with the laws their proofs use:
    stable sorting (`Array.prototype.sort`, Python's `sorted`), `filter` and `flatMap`. */
module Sequences {

  ghost predicate TotalPreorder<T(!new)>(leq: (T, T) -> bool) {
    && (forall a, b :: leq(a, b) || leq(b, a))
    && (forall a, b, c :: leq(a, b) && leq(b, c) ==> leq(a, c))
  }

  ghost predicate Sorted<T>(leq: (T, T) -> bool, s: seq<T>) {
    forall i, j :: 0 <= i < j < |s| ==> leq(s[i], s[j])
  }

  function Insert<T>(leq: (T, T) -> bool, x: T, s: seq<T>): (r: seq<T>)
    ensures multiset(r) == multiset{x} + multiset(s)
  {
    if s == [] then [x]
    else if leq(x, s[0]) then [x] + s
    else
      assert s == [s[0]] + s[1..];
      [s[0]] + Insert(leq, x, s[1..])
  }

  /** Inserting from the back keeps equal elements in their original order. */
  function SortBy<T>(leq: (T, T) -> bool, s: seq<T>): (r: seq<T>)
    ensures multiset(r) == multiset(s)
    ensures |r| == |s|
  {
    if s == [] then []
    else
      assert s == [s[0]] + s[1..];
      var r := Insert(leq, s[0], SortBy(leq, s[1..]));
      assert |multiset(r)| == |multiset(s)|;
      r
  }

  lemma {:induction false} InsertSorted<T(!new)>(leq: (T, T) -> bool, x: T, s: seq<T>)
    requires TotalPreorder(leq) && Sorted(leq, s)
    ensures Sorted(leq, Insert(leq, x, s))
  {
    if s == [] {
    } else if leq(x, s[0]) {
    } else {
      var rest := Insert(leq, x, s[1..]);
      InsertSorted(leq, x, s[1..]);
      forall j | 0 <= j < |rest| ensures leq(s[0], rest[j]) {
        assert rest[j] in multiset(rest);
        if rest[j] != x {
          assert rest[j] in s[1..];
        }
      }
    }
  }

  lemma {:induction false} SortBySorted<T(!new)>(leq: (T, T) -> bool, s: seq<T>)
    requires TotalPreorder(leq)
    ensures Sorted(leq, SortBy(leq, s))
  {
    if s != [] {
      SortBySorted(leq, s[1..]);
      InsertSorted(leq, s[0], SortBy(leq, s[1..]));
    }
  }

  lemma SameTails<T>(s: seq<T>, t: seq<T>)
    requires s != [] && t != [] && s[0] == t[0] && multiset(s) == multiset(t)
    ensures multiset(s[1..]) == multiset(t[1..])
  {
    assert s == [s[0]] + s[1..] && t == [t[0]] + t[1..];
    assert multiset(s[1..]) == multiset(s) - multiset{s[0]};
    assert multiset(t[1..]) == multiset(t) - multiset{t[0]};
  }

  lemma SameHeads<T(!new)>(leq: (T, T) -> bool, s: seq<T>, t: seq<T>)
    requires Sorted(leq, s) && Sorted(leq, t) && s != [] && multiset(s) == multiset(t)
    requires forall a, b :: a in s && b in s && leq(a, b) && leq(b, a) ==> a == b
    ensures t != [] && s[0] == t[0]
  {
    assert |multiset(s)| == |multiset(t)|;
    assert s[0] in multiset(t) && t[0] in multiset(s);
  }

  /** An order that is antisymmetric on the elements leaves only one sorted arrangement. */
  lemma {:induction false} SortedUnique<T(!new)>(leq: (T, T) -> bool, s: seq<T>, t: seq<T>)
    requires Sorted(leq, s) && Sorted(leq, t)
    requires multiset(s) == multiset(t)
    requires forall a, b :: a in s && b in s && leq(a, b) && leq(b, a) ==> a == b
    ensures s == t
  {
    if s == [] {
      assert |multiset(s)| == |multiset(t)|;
    } else {
      SameHeads(leq, s, t);
      SameTails(s, t);
      SortedUnique(leq, s[1..], t[1..]);
      assert s == [s[0]] + s[1..] && t == [t[0]] + t[1..];
    }
  }

  function Filter<T>(p: T -> bool, s: seq<T>): (r: seq<T>)
    ensures |r| <= |s|
  {
    if s == [] then []
    else (if p(s[0]) then [s[0]] else []) + Filter(p, s[1..])
  }

  lemma {:induction false} FilterMembers<T>(p: T -> bool, s: seq<T>, x: T)
    ensures x in Filter(p, s) <==> x in s && p(x)
  {
    if s != [] {
      FilterMembers(p, s[1..], x);
      assert s == [s[0]] + s[1..];
    }
  }

  lemma {:induction false} FilterCount<T>(p: T -> bool, s: seq<T>, x: T)
    ensures multiset(Filter(p, s))[x] == if p(x) then multiset(s)[x] else 0
  {
    if s != [] {
      FilterCount(p, s[1..], x);
      assert s == [s[0]] + s[1..];
    }
  }

  lemma FilterPermutes<T(!new)>(p: T -> bool, s: seq<T>, t: seq<T>)
    requires multiset(s) == multiset(t)
    ensures multiset(Filter(p, s)) == multiset(Filter(p, t))
  {
    forall x ensures multiset(Filter(p, s))[x] == multiset(Filter(p, t))[x] {
      FilterCount(p, s, x);
      FilterCount(p, t, x);
    }
  }

  lemma SameMembers<T>(s: seq<T>, t: seq<T>, x: T)
    requires multiset(s) == multiset(t)
    ensures x in s <==> x in t
  {
    assert x in s <==> x in multiset(s);
    assert x in t <==> x in multiset(t);
  }

  lemma FilterCons<T>(p: T -> bool, x: T, s: seq<T>)
    ensures Filter(p, [x] + s) == (if p(x) then [x] else []) + Filter(p, s)
  {
    assert ([x] + s)[1..] == s;
  }

  lemma {:induction false} FilterSnoc<T>(p: T -> bool, s: seq<T>, x: T)
    ensures Filter(p, s + [x]) == Filter(p, s) + (if p(x) then [x] else [])
  {
    if s == [] {
      assert s + [x] == [x] + s;
      FilterCons(p, x, s);
    } else {
      assert s + [x] == [s[0]] + (s[1..] + [x]) && s == [s[0]] + s[1..];
      FilterCons(p, s[0], s[1..] + [x]);
      FilterCons(p, s[0], s[1..]);
      FilterSnoc(p, s[1..], x);
    }
  }

  lemma {:induction false} FilterAgree<T>(p: T -> bool, q: T -> bool, s: seq<T>)
    requires forall x :: x in s ==> p(x) == q(x)
    ensures Filter(p, s) == Filter(q, s)
  {
    if s != [] {
      assert s == [s[0]] + s[1..];
      FilterAgree(p, q, s[1..]);
    }
  }

  function Not<T>(p: T -> bool): T -> bool {
    (x: T) => !p(x)
  }

  lemma {:induction false} FilterPartition<T>(p: T -> bool, s: seq<T>)
    ensures multiset(Filter(p, s)) + multiset(Filter(Not(p), s)) == multiset(s)
  {
    if s != [] {
      assert s == [s[0]] + s[1..];
      FilterPartition(p, s[1..]);
    }
  }

  lemma FilterSwaps<T>(p: T -> bool, x: T, y: T, s: seq<T>)
    requires !(p(x) && p(y))
    ensures Filter(p, [x] + ([y] + s)) == Filter(p, [y] + ([x] + s))
  {
    FilterCons(p, x, [y] + s);
    FilterCons(p, y, [x] + s);
    FilterCons(p, x, s);
    FilterCons(p, y, s);
  }

  lemma {:induction false} InsertKeepsClass<T(!new)>(leq: (T, T) -> bool, p: T -> bool, x: T, s: seq<T>)
    requires forall a, b :: p(a) && p(b) ==> leq(a, b)
    ensures Filter(p, Insert(leq, x, s)) == Filter(p, [x] + s)
  {
    if s != [] && !leq(x, s[0]) {
      var y, rest := s[0], s[1..];
      assert s == [y] + rest;
      InsertKeepsClass(leq, p, x, rest);
      FilterCons(p, y, Insert(leq, x, rest));
      FilterCons(p, y, [x] + rest);
      FilterSwaps(p, x, y, rest);
    } else {
      assert s == [] ==> [x] + s == [x];
    }
  }

  /** Stability: the members of a class of equals come out in the order they went in. */
  lemma {:induction false} SortByStable<T(!new)>(leq: (T, T) -> bool, p: T -> bool, s: seq<T>)
    requires forall a, b :: p(a) && p(b) ==> leq(a, b)
    ensures Filter(p, SortBy(leq, s)) == Filter(p, s)
  {
    if s != [] {
      SortByStable(leq, p, s[1..]);
      InsertKeepsClass(leq, p, s[0], SortBy(leq, s[1..]));
      FilterCons(p, s[0], SortBy(leq, s[1..]));
    }
  }

  // ----- The last element of a sort

  lemma {:induction false} InsertBelowLast<T>(leq: (T, T) -> bool, x: T, s: seq<T>, last: T)
    requires leq(x, last)
    ensures Insert(leq, x, s + [last]) == Insert(leq, x, s) + [last]
  {
    if s == [] {
      assert [] + [last] == [last];
    } else if !leq(x, s[0]) {
      assert (s + [last])[1..] == s[1..] + [last];
      InsertBelowLast(leq, x, s[1..], last);
    } else {
      assert [x] + (s + [last]) == ([x] + s) + [last];
    }
  }

  /** An element that comes last and is at least every other stays last. */
  lemma {:induction false} SortByKeepsLast<T>(leq: (T, T) -> bool, s: seq<T>, last: T)
    requires forall x :: x in s ==> leq(x, last)
    ensures SortBy(leq, s + [last]) == SortBy(leq, s) + [last]
  {
    if s == [] {
      assert [] + [last] == [last];
    } else {
      assert (s + [last])[1..] == s[1..] + [last] && (s + [last])[0] == s[0];
      SortByKeepsLast(leq, s[1..], last);
      InsertBelowLast(leq, s[0], SortBy(leq, s[1..]), last);
    }
  }

  // ----- Repetition

  ghost predicate Injective<T>(s: seq<T>) {
    forall i, j :: 0 <= i < j < |s| ==> s[i] != s[j]
  }

  lemma {:induction false} InjectiveOnce<T>(s: seq<T>, x: T)
    requires Injective(s)
    ensures multiset(s)[x] <= 1
  {
    if s != [] {
      assert s == [s[0]] + s[1..];
      InjectiveOnce(s[1..], x);
      if multiset(s[1..])[x] == 1 {
        assert x in s[1..];
      }
    }
  }

  lemma TwiceCounts<T>(s: seq<T>, i: nat, j: nat)
    requires i < j < |s| && s[i] == s[j]
    ensures multiset(s)[s[i]] >= 2
  {
    assert s == s[..i] + [s[i]] + s[i + 1..j] + [s[j]] + s[j + 1..];
  }

  lemma InjectivePermutes<T>(s: seq<T>, t: seq<T>)
    requires multiset(s) == multiset(t) && Injective(s)
    ensures Injective(t)
  {
    forall i, j | 0 <= i < j < |t| ensures t[i] != t[j] {
      InjectiveOnce(s, t[i]);
      if t[i] == t[j] {
        TwiceCounts(t, i, j);
      }
    }
  }

  // ----- map and flatMap

  function Map<T, U>(f: T -> U, s: seq<T>): (r: seq<U>)
    ensures |r| == |s|
  {
    seq(|s|, i requires 0 <= i < |s| => f(s[i]))
  }

  function FlatMap<T, U>(f: T -> seq<U>, s: seq<T>): seq<U> {
    if s == [] then [] else FlatMap(f, s[..|s| - 1]) + f(s[|s| - 1])
  }

  lemma {:induction false} FlatMapWithout<T, U>(f: T -> seq<U>, a: seq<T>, x: T, b: seq<T>)
    ensures multiset(FlatMap(f, a + [x] + b)) == multiset(FlatMap(f, a + b)) + multiset(f(x))
  {
    if b == [] {
      assert a + [x] + b == a + [x] && a + b == a && (a + [x])[..|a|] == a;
    } else {
      var front, last := b[..|b| - 1], b[|b| - 1];
      assert (a + [x] + b)[..|a + [x] + b| - 1] == a + [x] + front;
      assert (a + b)[..|a + b| - 1] == a + front;
      FlatMapWithout(f, a, x, front);
    }
  }

  lemma {:induction false} FlatMapJoins<T, U>(f: T -> seq<U>, a: seq<T>, b: seq<T>)
    ensures FlatMap(f, a + b) == FlatMap(f, a) + FlatMap(f, b)
  {
    if b == [] {
      assert a + b == a;
    } else {
      assert (a + b)[..|a + b| - 1] == a + b[..|b| - 1];
      FlatMapJoins(f, a, b[..|b| - 1]);
    }
  }

  lemma FlatMapGrows<T, U>(f: T -> seq<U>, s: seq<T>, i: nat)
    requires i < |s|
    ensures FlatMap(f, s[..i + 1]) == FlatMap(f, s[..i]) + f(s[i])
  {
    assert s[..i + 1][..i] == s[..i];
  }

  lemma MultisetAround<T>(a: seq<T>, x: T, b: seq<T>)
    ensures multiset(a + [x] + b) == multiset(a + b) + multiset{x}
  {
  }

  /** Finds the last element of `s` in the permutation `t` and takes it out of both. */
  lemma TakeOutLast<T>(s: seq<T>, t: seq<T>) returns (a: seq<T>, b: seq<T>)
    requires s != [] && multiset(s) == multiset(t)
    ensures t == a + [s[|s| - 1]] + b
    ensures multiset(s[..|s| - 1]) == multiset(a + b)
  {
    var front, x := s[..|s| - 1], s[|s| - 1];
    assert s == front + [x];
    SameMembers(s, t, x);
    var k :| 0 <= k < |t| && t[k] == x;
    a, b := t[..k], t[k + 1..];
    assert t == a + [x] + b;
    MultisetAround(a, x, b);
    MultisetAround(front, x, []);
    assert front + [x] + [] == s && front + [] == front;
    assert multiset(front) == multiset(s) - multiset{x};
  }

  lemma {:induction false} FlatMapPermutes<T, U>(f: T -> seq<U>, s: seq<T>, t: seq<T>)
    requires multiset(s) == multiset(t)
    ensures multiset(FlatMap(f, s)) == multiset(FlatMap(f, t))
  {
    assert |s| == |multiset(s)| == |multiset(t)| == |t|;
    if s != [] {
      var a, b := TakeOutLast(s, t);
      FlatMapWithout(f, a, s[|s| - 1], b);
      FlatMapPermutes(f, s[..|s| - 1], a + b);
    }
  }
}
