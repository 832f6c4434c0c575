/** Command files for the polish bridge. The bridge applies pending commands in file-name
    order, so names must sort in the order they were written. */
module PolishNames {
  import opened Decimals
  import opened Sequences

  const MAX_MILLIS := 100_000_000_000_000  // 10^14: the timestamps that fit their 14 digits

  function Name(millis: nat, seqNo: nat): string {
    Padded(millis, 14) + "-" + Padded(seqNo, 4) + ".json"
  }

  // ----- Names never repeat

  lemma SplitAtDash(a: string, x: string, b: string, y: string)
    requires AllDigits(a) && AllDigits(b) && a + "-" + x == b + "-" + y
    ensures a == b && x == y
  {
    var s := a + "-" + x;
    assert s[|a|] == '-' && s[|b|] == '-';
    assert forall i :: 0 <= i < |a| ==> s[i] == a[i];
    assert forall i :: 0 <= i < |b| ==> s[i] == b[i];
    assert a == s[..|a|] && b == s[..|b|];
    assert x == s[|a| + 1..] && y == s[|b| + 1..];
  }

  /** No two commands share a name, whatever the clock says. */
  lemma NamesDistinct(millis: nat, seqNo: nat, millis': nat, seqNo': nat)
    requires Name(millis, seqNo) == Name(millis', seqNo')
    ensures millis == millis' && seqNo == seqNo'
  {
    var (s, s') := (Padded(seqNo, 4), Padded(seqNo', 4));
    assert Name(millis, seqNo) == Padded(millis, 14) + "-" + (s + ".json");
    assert Name(millis', seqNo') == Padded(millis', 14) + "-" + (s' + ".json");
    ValueOfPadded(millis, 14);
    ValueOfPadded(millis', 14);
    SplitAtDash(Padded(millis, 14), s + ".json", Padded(millis', 14), s' + ".json");
    assert s == (s + ".json")[..|s|] && s' == (s' + ".json")[..|s'|];
    assert |s + ".json"| == |s' + ".json"|;
    PaddedInjective(millis, millis', 14);
    PaddedInjective(seqNo, seqNo', 4);
  }

  // ----- Names sort in issue order

  lemma MillisFit(millis: nat)
    requires millis < MAX_MILLIS
    ensures |Padded(millis, 14)| == 14
  {
    assert Pow10(7) == 10_000_000;
    assert Pow10(14) == MAX_MILLIS;
    DecimalFits(millis, 14);
  }

  lemma MillisSort(millis: nat, millis': nat)
    requires millis < millis' < MAX_MILLIS
    ensures |Padded(millis, 14)| == |Padded(millis', 14)| && Lex(Padded(millis, 14), Padded(millis', 14))
  {
    MillisFit(millis);
    MillisFit(millis');
    ValueOfPadded(millis, 14);
    ValueOfPadded(millis', 14);
    LexIsValue(Padded(millis, 14), Padded(millis', 14));
  }

  lemma LaterMillisLaterName(millis: nat, seqNo: nat, millis': nat, seqNo': nat)
    requires millis < millis' < MAX_MILLIS
    ensures Lex(Name(millis, seqNo), Name(millis', seqNo'))
  {
    MillisSort(millis, millis');
    var (x, y) := ("-" + Padded(seqNo, 4) + ".json", "-" + Padded(seqNo', 4) + ".json");
    LexExtends(Padded(millis, 14), Padded(millis', 14), x, y);
    assert Name(millis, seqNo) == Padded(millis, 14) + x && Name(millis', seqNo') == Padded(millis', 14) + y;
  }

  /** Within one millisecond counters of one printed width sort by value. */
  lemma LaterCounterLaterName(millis: nat, seqNo: nat, seqNo': nat)
    requires seqNo < seqNo' && |Padded(seqNo, 4)| == |Padded(seqNo', 4)|
    ensures Lex(Name(millis, seqNo), Name(millis, seqNo'))
  {
    ValueOfPadded(seqNo, 4);
    ValueOfPadded(seqNo', 4);
    LexIsValue(Padded(seqNo, 4), Padded(seqNo', 4));
    LexExtends(Padded(seqNo, 4), Padded(seqNo', 4), ".json", ".json");
    var head := Padded(millis, 14) + "-";
    LexPrefix(head, Padded(seqNo, 4) + ".json", Padded(seqNo', 4) + ".json");
    assert Name(millis, seqNo) == head + (Padded(seqNo, 4) + ".json");
    assert Name(millis, seqNo') == head + (Padded(seqNo', 4) + ".json");
  }

  /** A clock that never runs backwards and stays within its 14 digits. */
  ghost predicate Clock(clock: seq<nat>) {
    && (forall i :: 0 <= i < |clock| ==> clock[i] < MAX_MILLIS)
    && (forall i, j :: 0 <= i < j < |clock| ==> clock[i] <= clock[j])
  }

  /** The names one process hands out: the counter starts at zero and counts the writes. */
  function Issued(clock: seq<nat>): (names: seq<string>)
    ensures |names| == |clock|
    ensures forall i :: 0 <= i < |clock| ==> names[i] == Name(clock[i], i)
  {
    seq(|clock|, i requires 0 <= i < |clock| => Name(clock[i], i))
  }

  ghost predicate InIssueOrder(names: seq<string>) {
    forall i, j :: 0 <= i < j < |names| ==> Lex(names[i], names[j])
  }

  /** The counter never gains a digit within one millisecond, the fifth digit on. */
  ghost predicate NewDigitsSeparated(clock: seq<nat>) {
    forall k :: k >= 4 && Pow10(k) < |clock| ==> clock[Pow10(k) - 1] < clock[Pow10(k)]
  }

  lemma PowerBetween(clock: seq<nat>, i: nat, j: nat, k: nat, p: nat)
    requires Clock(clock) && NewDigitsSeparated(clock) && j < |clock|
    requires k >= 4 && p == Pow10(k) && i < p <= j
    ensures clock[i] < clock[j]
  {
    assert clock[i] <= clock[p - 1] < clock[p] <= clock[j];
  }

  lemma OneWidthPerMillisecond(clock: seq<nat>, i: nat, j: nat)
    requires Clock(clock) && NewDigitsSeparated(clock) && i < j < |clock| && clock[i] == clock[j]
    ensures |Padded(i, 4)| == |Padded(j, 4)|
  {
    WidensAtPower(i, j, 4);
    forall k | k >= 4 && i < Pow10(k) <= j ensures false { PowerBetween(clock, i, j, k, Pow10(k)); }
  }

  lemma OrderedPair(clock: seq<nat>, i: nat, j: nat)
    requires Clock(clock) && NewDigitsSeparated(clock) && i < j < |clock|
    ensures Lex(Issued(clock)[i], Issued(clock)[j])
  {
    if clock[i] < clock[j] {
      LaterMillisLaterName(clock[i], i, clock[j], j);
    } else {
      OneWidthPerMillisecond(clock, i, j);
      LaterCounterLaterName(clock[i], i, j);
    }
  }

  lemma BeyondPadding(k: nat)
    requires k >= 4
    ensures Padded(Pow10(k) - 1, 4) == Decimal(Pow10(k) - 1) && Padded(Pow10(k), 4) == Decimal(Pow10(k))
  {
    assert Pow10(3) == 1_000 && Pow10(4) == 10_000;
    PowersGrow(4, k);
    DecimalWide(Pow10(k) - 1, 3);
    DecimalWide(Pow10(k), 3);
  }

  /** A counter that gains a digit undoes the order within one millisecond. */
  lemma NewDigitMisorders(millis: nat, k: nat)
    requires k >= 4
    ensures !Lex(Name(millis, Pow10(k) - 1), Name(millis, Pow10(k)))
  {
    var (n, m) := (Pow10(k) - 1, Pow10(k));
    BeyondPadding(k);
    BelowPowerStartsWithNine(k);
    PowerStartsWithOne(k);
    var head := Padded(millis, 14) + "-";
    LexPrefix(head, Padded(n, 4) + ".json", Padded(m, 4) + ".json");
    assert Name(millis, n) == head + (Padded(n, 4) + ".json");
    assert Name(millis, m) == head + (Padded(m, 4) + ".json");
  }

  /** A run's names sort in the order of its writes exactly when no counter gains its fifth or a
      later digit within one millisecond. */
  lemma SortedExactlyWhenSeparated(clock: seq<nat>)
    requires Clock(clock)
    ensures InIssueOrder(Issued(clock)) <==> NewDigitsSeparated(clock)
  {
    if NewDigitsSeparated(clock) {
      forall i, j | 0 <= i < j < |clock| ensures Lex(Issued(clock)[i], Issued(clock)[j]) { OrderedPair(clock, i, j); }
    } else {
      var k: nat :| k >= 4 && Pow10(k) < |clock| && clock[Pow10(k) - 1] >= clock[Pow10(k)];
      NewDigitMisorders(clock[Pow10(k)], k);
      assert !Lex(Issued(clock)[Pow10(k) - 1], Issued(clock)[Pow10(k)]);
    }
  }

  /** So whatever the clock, runs of up to 10000 commands sort; a longer run may not. */
  lemma SortedForEveryClock(count: nat)
    ensures (forall clock :: Clock(clock) && |clock| == count ==> InIssueOrder(Issued(clock))) <==> count <= 10_000
  {
    assert Pow10(4) == 10_000;
    if count <= 10_000 {
      forall clock | Clock(clock) && |clock| == count ensures InIssueOrder(Issued(clock)) {
        forall k | k >= 4 ensures Pow10(k) >= count { PowersGrow(4, k); }
        SortedExactlyWhenSeparated(clock);
      }
    } else {
      var stopped: seq<nat> := seq(count, _ => 0);
      assert !NewDigitsSeparated(stopped);
      SortedExactlyWhenSeparated(stopped);
      assert Clock(stopped) && |stopped| == count && !InIssueOrder(Issued(stopped));
    }
  }

  // ----- The pending names

  function StillIn(files: set<string>): string -> bool {
    (name: string) => name in files
  }

  /** The names of the commands not yet applied, in the order they were written. */
  function Pending(clock: seq<nat>, files: set<string>): seq<string> {
    Filter(StillIn(files), Issued(clock))
  }

  lemma {:induction false} FilterInOrder(p: string -> bool, names: seq<string>)
    requires InIssueOrder(names)
    ensures InIssueOrder(Filter(p, names))
  {
    if names != [] {
      var rest := Filter(p, names[1..]);
      FilterInOrder(p, names[1..]);
      forall i | 0 <= i < |rest| ensures Lex(names[0], rest[i]) {
        FilterMembers(p, names[1..], rest[i]);
        var j :| 0 <= j < |names[1..]| && names[1..][j] == rest[i];
        assert Lex(names[0], names[j + 1]);
      }
    }
  }

  lemma OrderIsSorted(names: seq<string>)
    requires InIssueOrder(names)
    ensures Sorted(LexOrEqual(), names)
  {
  }

  lemma SortIsUnique(names: seq<string>, listed: seq<string>)
    requires InIssueOrder(names) && multiset(listed) == multiset(names)
    ensures SortBy(LexOrEqual(), listed) == names
  {
    LexIsPreorder();
    SortBySorted(LexOrEqual(), listed);
    OrderIsSorted(names);
    forall a, b | LexOrEqual()(a, b) && LexOrEqual()(b, a) ensures a == b { LexAsymmetric(a, b); }
    SortedUnique(LexOrEqual(), SortBy(LexOrEqual(), listed), names);
  }

  lemma OrderIsInjective(names: seq<string>)
    requires InIssueOrder(names)
    ensures Injective(names)
  {
    forall i, j | 0 <= i < j < |names| ensures names[i] != names[j] { LexAsymmetric(names[i], names[j]); }
  }

  lemma SameNamesOnce(listed: seq<string>, names: seq<string>)
    requires Injective(listed) && Injective(names) && forall n :: n in listed <==> n in names
    ensures multiset(listed) == multiset(names)
  {
    forall n ensures multiset(listed)[n] == multiset(names)[n] {
      InjectiveOnce(listed, n);
      InjectiveOnce(names, n);
      assert n in listed <==> n in multiset(listed);
      assert n in names <==> n in multiset(names);
    }
  }

  /** Whichever commands have been applied, and however the directory lists the rest, sorting the
      names gives the order in which they were written. */
  lemma SortingRestoresIssueOrder(clock: seq<nat>, files: set<string>, listed: seq<string>)
    requires Clock(clock) && NewDigitsSeparated(clock) && forall n :: n in files ==> n in Issued(clock)
    requires Injective(listed) && forall n :: n in listed <==> n in files
    ensures SortBy(LexOrEqual(), listed) == Pending(clock, files)
  {
    SortedExactlyWhenSeparated(clock);
    FilterInOrder(StillIn(files), Issued(clock));
    OrderIsInjective(Pending(clock, files));
    forall n ensures n in listed <==> n in Pending(clock, files) { FilterMembers(StillIn(files), Issued(clock), n); }
    SameNamesOnce(listed, Pending(clock, files));
    SortIsUnique(Pending(clock, files), listed);
  }

  // ----- The writer

  /** One process's writer and the command directory. `issued` is the history of its clock readings. */
  class CommandWriter<Command> {
    var seqNo: nat
    var files: map<string, Command>
    ghost var issued: seq<nat>

    ghost predicate Valid()
      reads this
    {
      && seqNo == |issued|
      && forall name :: name in files ==> name in Issued(issued)
    }

    constructor ()
      ensures Valid() && files == map[] && issued == []
    {
      seqNo, files, issued := 0, map[], [];
    }

    /** Never overwrites a pending command. */
    method Write(now: nat, command: Command)
      requires Valid()
      modifies this
      ensures Valid() && issued == old(issued) + [now]
      ensures Name(now, old(seqNo)) !in old(files)
      ensures files == old(files)[Name(now, old(seqNo)) := command]
    {
      var name := Name(now, seqNo);
      assert name !in files by {
        if name in files {
          var i :| 0 <= i < |issued| && Issued(issued)[i] == name;
          NamesDistinct(issued[i], i, now, seqNo);
        }
      }
      files := files[name := command];
      seqNo := seqNo + 1;
      ghost var before := issued;
      issued := issued + [now];
      assert forall i :: 0 <= i < |before| ==> Issued(issued)[i] == Issued(before)[i];
      assert Issued(issued)[|before|] == name;
      forall n | n in files ensures n in Issued(issued) {
        if n != name {
          var i :| 0 <= i < |before| && Issued(before)[i] == n;
          assert Issued(issued)[i] == n;
        }
      }
    }

    /** The bridge deletes a command once applied. */
    method Applied(name: string)
      requires Valid()
      modifies this`files
      ensures Valid() && files == old(files) - {name}
    {
      files := files - {name};
    }
  }
}
