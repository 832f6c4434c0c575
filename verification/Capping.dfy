/** Bounding a list by dropping its oldest entries: sort a copy, remember the keys of the
    newest, filter the original by those keys. The store and the audit both work this way. */
module Capping {
  import opened Sequences

  ghost predicate UniqueBy<T, K>(key: T -> K, s: seq<T>) {
    forall i, j :: 0 <= i < j < |s| ==> key(s[i]) != key(s[j])
  }

  function Keys<T, K(==)>(key: T -> K, s: seq<T>): set<K> {
    if s == [] then {} else {key(s[0])} + Keys(key, s[1..])
  }

  function KeyIn<T, K(==)>(key: T -> K, keys: set<K>): T -> bool {
    (x: T) => key(x) in keys
  }

  function Newest<T>(leq: (T, T) -> bool, s: seq<T>, max: nat): seq<T>
    requires max <= |s|
  {
    SortBy(leq, s)[|s| - max..]
  }

  function CapBy<T, K(==)>(leq: (T, T) -> bool, key: T -> K, s: seq<T>, max: nat): seq<T> {
    if |s| <= max then s else Filter(KeyIn(key, Keys(key, Newest(leq, s, max))), s)
  }

  lemma {:induction false} KeysAre<T, K>(key: T -> K, s: seq<T>, k: K)
    ensures k in Keys(key, s) <==> exists x :: x in s && key(x) == k
  {
    if s != [] {
      assert s == [s[0]] + s[1..];
      KeysAre(key, s[1..], k);
    }
  }

  lemma {:induction false} FilterJoins<T>(p: T -> bool, a: seq<T>, b: seq<T>)
    ensures Filter(p, a + b) == Filter(p, a) + Filter(p, b)
  {
    if a == [] {
      assert a + b == b;
    } else {
      assert a == [a[0]] + a[1..] && a + b == [a[0]] + (a[1..] + b);
      FilterCons(p, a[0], a[1..] + b);
      FilterCons(p, a[0], a[1..]);
      FilterJoins(p, a[1..], b);
    }
  }

  lemma {:induction false} FilterAll<T>(p: T -> bool, s: seq<T>)
    requires forall x :: x in s ==> p(x)
    ensures Filter(p, s) == s
  {
    if s != [] {
      FilterAll(p, s[1..]);
    }
  }

  lemma {:induction false} FilterNone<T>(p: T -> bool, s: seq<T>)
    requires forall x :: x in s ==> !p(x)
    ensures Filter(p, s) == []
  {
    if s != [] {
      FilterNone(p, s[1..]);
    }
  }

  lemma {:induction false} FilterUniqueBy<T, K>(key: T -> K, p: T -> bool, s: seq<T>)
    requires UniqueBy(key, s)
    ensures UniqueBy(key, Filter(p, s))
  {
    if s != [] {
      FilterUniqueBy(key, p, s[1..]);
      var rest := Filter(p, s[1..]);
      forall i | 0 <= i < |rest| ensures key(rest[i]) != key(s[0]) {
        FilterMembers(p, s[1..], rest[i]);
      }
    }
  }

  lemma UniqueByPermutes<T, K>(key: T -> K, s: seq<T>, t: seq<T>)
    requires multiset(s) == multiset(t) && UniqueBy(key, s)
    ensures UniqueBy(key, t)
  {
    InjectivePermutes(s, t);
    forall i, j | 0 <= i < j < |t| ensures key(t[i]) != key(t[j]) {
      SameMembers(s, t, t[i]);
      SameMembers(s, t, t[j]);
      var k :| 0 <= k < |s| && s[k] == t[i];
      var m :| 0 <= m < |s| && s[m] == t[j];
    }
  }

  function Oldest<T>(leq: (T, T) -> bool, s: seq<T>, max: nat): seq<T>
    requires max <= |s|
  {
    SortBy(leq, s)[..|s| - max]
  }

  /** No key of the first list occurs in the second. */
  ghost predicate KeysApart<T, K>(key: T -> K, a: seq<T>, b: seq<T>) {
    forall x :: x in a ==> key(x) !in Keys(key, b)
  }

  lemma NoneKept<T, K>(key: T -> K, head: seq<T>, tail: seq<T>)
    ensures |Filter(KeyIn(key, Keys(key, tail)), head)| == 0 <==> KeysApart(key, head, tail)
  {
    var p := KeyIn(key, Keys(key, tail));
    if KeysApart(key, head, tail) {
      FilterNone(p, head);
    } else {
      var x :| x in head && p(x);
      FilterMembers(p, head, x);
    }
  }

  lemma Halves<T>(s: seq<T>, k: nat)
    requires k <= |s|
    ensures s[..k] + s[k..] == s
  {
  }

  lemma SortSplits<T>(leq: (T, T) -> bool, s: seq<T>, max: nat)
    requires max <= |s|
    ensures SortBy(leq, s) == Oldest(leq, s, max) + Newest(leq, s, max)
    ensures multiset(Oldest(leq, s, max) + Newest(leq, s, max)) == multiset(s)
  {
    var sorted := SortBy(leq, s);
    Halves(sorted, |s| - max);
  }

  /** What the cap keeps: the newest part, and whatever older entries share a key with it. */
  lemma CapSplits<T(!new), K>(leq: (T, T) -> bool, key: T -> K, s: seq<T>, max: nat)
    requires max < |s|
    ensures var newest := Newest(leq, s, max);
            multiset(CapBy(leq, key, s, max)) ==
            multiset(Filter(KeyIn(key, Keys(key, newest)), Oldest(leq, s, max))) + multiset(newest)
  {
    var (head, tail) := (Oldest(leq, s, max), Newest(leq, s, max));
    var p := KeyIn(key, Keys(key, tail));
    SortSplits(leq, s, max);
    FilterPermutes(p, s, head + tail);
    FilterJoins(p, head, tail);
    forall x | x in tail ensures p(x) { KeysAre(key, tail, key(x)); }
    FilterAll(p, tail);
  }

  /** The cap holds exactly when no entry it should drop shares a key with one it keeps. */
  lemma CapHoldsExactly<T(!new), K>(leq: (T, T) -> bool, key: T -> K, s: seq<T>, max: nat)
    requires max < |s|
    ensures |CapBy(leq, key, s, max)| <= max <==> KeysApart(key, Oldest(leq, s, max), Newest(leq, s, max))
    ensures |CapBy(leq, key, s, max)| <= max ==>
              multiset(CapBy(leq, key, s, max)) == multiset(Newest(leq, s, max))
  {
    var (head, tail) := (Oldest(leq, s, max), Newest(leq, s, max));
    var kept := Filter(KeyIn(key, Keys(key, tail)), head);
    CapSplits(leq, key, s, max);
    NoneKept(key, head, tail);
    assert |multiset(CapBy(leq, key, s, max))| == |multiset(kept)| + |multiset(tail)|;
  }

  lemma HeadKeysDiffer<T, K>(key: T -> K, head: seq<T>, tail: seq<T>, x: T)
    requires UniqueBy(key, head + tail) && x in head
    ensures key(x) !in Keys(key, tail)
  {
    KeysAre(key, tail, key(x));
    var s := head + tail;
    var i :| 0 <= i < |head| && head[i] == x;
    forall y | y in tail ensures key(y) != key(x) {
      var j :| 0 <= j < |tail| && tail[j] == y;
      assert s[i] == x && s[|head| + j] == y;
    }
  }

  lemma UniqueKeysApart<T, K>(key: T -> K, s: seq<T>, head: seq<T>, tail: seq<T>)
    requires UniqueBy(key, s) && multiset(head + tail) == multiset(s)
    ensures KeysApart(key, head, tail)
  {
    UniqueByPermutes(key, s, head + tail);
    forall x | x in head ensures key(x) !in Keys(key, tail) { HeadKeysDiffer(key, head, tail, x); }
  }

  /** With unique keys the cap is exact, and what stays is the newest part. */
  lemma CapKeepsNewest<T(!new), K>(leq: (T, T) -> bool, key: T -> K, s: seq<T>, max: nat)
    requires UniqueBy(key, s) && max <= |s|
    ensures multiset(CapBy(leq, key, s, max)) == multiset(Newest(leq, s, max))
  {
    SortSplits(leq, s, max);
    if |s| > max {
      UniqueKeysApart(key, s, Oldest(leq, s, max), Newest(leq, s, max));
      CapHoldsExactly(leq, key, s, max);
    }
  }

  lemma InsertFirst<T>(leq: (T, T) -> bool, s: seq<T>)
    requires s != [] && Sorted(leq, s)
    ensures Insert(leq, s[0], s[1..]) == s
  {
    assert s == [s[0]] + s[1..];
    if |s| > 1 {
      assert leq(s[0], s[1]);
    }
  }

  lemma {:induction false} SortOfSorted<T>(leq: (T, T) -> bool, s: seq<T>)
    requires Sorted(leq, s)
    ensures SortBy(leq, s) == s
  {
    if s != [] {
      SortOfSorted(leq, s[1..]);
      InsertFirst(leq, s);
    }
  }

  /** A sorted list is cut to its end. */
  lemma CapOfSorted<T(!new), K>(leq: (T, T) -> bool, key: T -> K, s: seq<T>, max: nat)
    requires Sorted(leq, s) && UniqueBy(key, s)
    ensures CapBy(leq, key, s, max) == if |s| <= max then s else s[|s| - max..]
  {
    if |s| > max {
      SortOfSorted(leq, s);
      var (head, tail) := (s[..|s| - max], s[|s| - max..]);
      var p := KeyIn(key, Keys(key, tail));
      assert s == head + tail;
      UniqueKeysApart(key, s, head, tail);
      NoneKept(key, head, tail);
      FilterJoins(p, head, tail);
      forall x | x in tail ensures p(x) { KeysAre(key, tail, key(x)); }
      FilterAll(p, tail);
    }
  }

  lemma CapSize<T(!new), K>(leq: (T, T) -> bool, key: T -> K, s: seq<T>, max: nat)
    requires UniqueBy(key, s)
    ensures |CapBy(leq, key, s, max)| == if |s| <= max then |s| else max
  {
    if |s| > max {
      CapKeepsNewest(leq, key, s, max);
      assert |multiset(CapBy(leq, key, s, max))| == |multiset(Newest(leq, s, max))|;
    }
  }

  /** Nothing dropped is newer than anything kept. */
  lemma CapDropsOldest<T(!new), K>(leq: (T, T) -> bool, key: T -> K, s: seq<T>, max: nat, kept: T, dropped: T)
    requires TotalPreorder(leq) && UniqueBy(key, s)
    requires kept in CapBy(leq, key, s, max) && dropped in s && dropped !in CapBy(leq, key, s, max)
    ensures leq(dropped, kept)
  {
    var sorted := SortBy(leq, s);
    SortBySorted(leq, s);
    CapKeepsNewest(leq, key, s, max);
    SameMembers(CapBy(leq, key, s, max), Newest(leq, s, max), kept);
    SameMembers(CapBy(leq, key, s, max), Newest(leq, s, max), dropped);
    SameMembers(s, sorted, dropped);
    var (head, tail) := (sorted[..|s| - max], sorted[|s| - max..]);
    assert sorted == head + tail;
    assert dropped in head;
    var i :| 0 <= i < |head| && head[i] == dropped;
    var j :| 0 <= j < max && tail[j] == kept;
    assert sorted[i] == dropped && sorted[|s| - max + j] == kept;
  }

  /** An entry that comes last and is as new as any survives every positive cap. */
  lemma CapKeepsLast<T(!new), K>(leq: (T, T) -> bool, key: T -> K, s: seq<T>, last: T, max: nat)
    requires forall x :: x in s ==> leq(x, last)
    ensures max > 0 ==> last in CapBy(leq, key, s + [last], max)
    ensures max == 0 ==> CapBy(leq, key, s + [last], max) == []
  {
    var t := s + [last];
    if max == 0 {
      FilterNone(KeyIn(key, Keys(key, Newest(leq, t, 0))), t);
    } else if |t| > max {
      SortByKeepsLast(leq, s, last);
      var newest := Newest(leq, t, max);
      assert newest[max - 1] == last;
      KeysAre(key, newest, key(last));
      assert last in t;
      FilterMembers(KeyIn(key, Keys(key, newest)), t, last);
    }
  }

  // ----- Sublists made by filtering

  function In<T(==)>(t: seq<T>): T -> bool {
    (x: T) => x in t
  }

  /** `t` is `s` with some values filtered out. */
  ghost predicate Sub<T>(t: seq<T>, s: seq<T>) {
    t == Filter(In(t), s)
  }

  lemma FilterIsSub<T>(p: T -> bool, s: seq<T>)
    ensures Sub(Filter(p, s), s)
  {
    var t := Filter(p, s);
    forall x | x in s ensures In(t)(x) == p(x) { FilterMembers(p, s, x); }
    FilterAgree(In(t), p, s);
  }

  function Both<T>(p: T -> bool, q: T -> bool): T -> bool {
    (x: T) => p(x) && q(x)
  }

  lemma {:induction false} FilterTwice<T>(p: T -> bool, q: T -> bool, s: seq<T>)
    ensures Filter(p, Filter(q, s)) == Filter(Both(p, q), s)
  {
    if s != [] {
      var rest := Filter(q, s[1..]);
      FilterTwice(p, q, s[1..]);
      if q(s[0]) {
        assert Filter(q, s) == [s[0]] + rest;
        FilterCons(p, s[0], rest);
      } else {
        assert Filter(q, s) == rest;
      }
    }
  }

  lemma FilterOfSub<T>(p: T -> bool, t: seq<T>, s: seq<T>)
    requires Sub(t, s)
    ensures Sub(Filter(p, t), s)
  {
    FilterTwice(p, In(t), s);
    FilterIsSub(Both(p, In(t)), s);
  }

  lemma SubSnoc<T>(t: seq<T>, s: seq<T>, x: T)
    requires Sub(t, s) && x !in s
    ensures Sub(t + [x], s + [x])
  {
    FilterSnoc(In(t + [x]), s, x);
    FilterAgree(In(t + [x]), In(t), s);
  }

  lemma CapIsSub<T, K>(leq: (T, T) -> bool, key: T -> K, t: seq<T>, max: nat, s: seq<T>)
    requires Sub(t, s)
    ensures Sub(CapBy(leq, key, t, max), s)
  {
    if |t| > max {
      FilterOfSub(KeyIn(key, Keys(key, Newest(leq, t, max))), t, s);
    }
  }

  lemma SubUniqueBy<T, K>(key: T -> K, t: seq<T>, s: seq<T>)
    requires Sub(t, s) && UniqueBy(key, s)
    ensures UniqueBy(key, t) && forall x :: x in t ==> x in s
  {
    FilterUniqueBy(key, In(t), s);
    forall x | x in t ensures x in s { FilterMembers(In(t), s, x); }
  }
}
