/** The managed block of AGENTS.md: a marked region found, replaced or inserted while every
    other byte is preserved. Reading and writing it form a lens. */
module ManagedBlock {
  import opened Texts
  import opened Wrappers

  datatype Markers = Markers(start: string, end: string)
  datatype Split = Split(before: string, after: string, block: Option<string>, count: int)
  datatype Issue = StartMarkers(found: nat) | EndMarkers(found: nat) | EndBeforeStart
  datatype Edit = Edit(content: string, replaced: bool)
  datatype Outcome = Refused(issues: seq<Issue>) | Written(edit: Edit)

  const OPENING: string := "!-- pi-agent-factory:bootstrap:"
  const BLOCK_MARKERS := Markers("<" + OPENING + "start schema=1 -->", "<" + OPENING + "end -->")

  function Cut(k: Markers, content: string, startIdx: int, endIdx: int, count: nat): Split
    requires startIdx == -1 || OccursAt(content, k.start, startIdx)
    requires endIdx == -1 || OccursAt(content, k.end, endIdx)
  {
    if startIdx == -1 && endIdx == -1 then Split(content, "", None, 0)
    else if startIdx == -1 || endIdx == -1 || endIdx < startIdx then Split(content, "", None, -1)
    else
      Split(content[..startIdx], content[endIdx + |k.end|..],
            Some(Slice(content, startIdx + |k.start|, endIdx)), count)
  }

  function SplitOf(k: Markers, content: string): Split
    requires k.start != ""
  {
    Cut(k, content, IndexOf(content, k.start, 0), LastIndexOf(content, k.end), Occurrences(content, k.start, 0))
  }

  method CountMarkers(content: string, marker: string) returns (count: nat)
    requires marker != ""
    ensures count == Occurrences(content, marker, 0)
  {
    count := 0;
    var from := 0;
    var idx := IndexOf(content, marker, from);
    while idx != -1
      invariant 0 <= from <= |content| && idx == IndexOf(content, marker, from)
      invariant count + Occurrences(content, marker, from) == Occurrences(content, marker, 0)
      decreases |content| - from
    {
      count, from := count + 1, idx + |marker|;
      idx := IndexOf(content, marker, from);
    }
  }

  method SplitManaged(k: Markers, content: string) returns (r: Split)
    requires k.start != ""
    ensures r == SplitOf(k, content)
  {
    var startIdx, endIdx := IndexOf(content, k.start, 0), LastIndexOf(content, k.end);
    if startIdx == -1 && endIdx == -1 {
      return Split(content, "", None, 0);
    }
    var count := CountMarkers(content, k.start);
    if startIdx == -1 || endIdx == -1 || endIdx < startIdx {
      return Split(content, "", None, -1);
    }
    r := Split(content[..startIdx], content[endIdx + |k.end|..],
               Some(Slice(content, startIdx + |k.start|, endIdx)), count);
  }

  function Issues(k: Markers, content: string): seq<Issue>
    requires k.start != "" && k.end != ""
  {
    var (starts, ends) := (Occurrences(content, k.start, 0), Occurrences(content, k.end, 0));
    if starts == 0 && ends == 0 then []
    else
      (if starts != 1 then [StartMarkers(starts)] else [])
      + (if ends != 1 then [EndMarkers(ends)] else [])
      + (if starts == 1 && ends == 1 && LastIndexOf(content, k.end) < IndexOf(content, k.start, 0)
         then [EndBeforeStart] else [])
  }

  function EditOf(k: Markers, existing: string, split: Split, newBlock: string): Edit {
    var body := Slice(newBlock, |k.start|, |newBlock| - |k.end|);
    var replacement := split.before + k.start + body + k.end + split.after;
    if split.block == None then Edit(replacement, false)
    else if existing == replacement then Edit(existing, false)
    else Edit(replacement, true)
  }

  function Replace(k: Markers, existing: string, newBlock: string): Outcome
    requires k.start != "" && k.end != ""
  {
    if Issues(k, existing) != [] then Refused(Issues(k, existing))
    else Written(EditOf(k, existing, SplitOf(k, existing), newBlock))
  }

  // ----- Markers never straddle a splice

  /** `<` at the head and nowhere else. */
  ghost predicate Headed(m: string) {
    |m| > 32 && m[0] == '<' && forall k :: 0 < k < |m| ==> m[k] != '<'
  }

  ghost predicate Proper(k: Markers) {
    Headed(k.start) && Headed(k.end) && k.start[32] != k.end[32]
  }

  lemma BlockMarkersProper()
    ensures Proper(BLOCK_MARKERS)
  {
    assert forall k :: 0 <= k < 12 ==> OPENING[k] == "!-- pi-agent"[k];
    assert forall k :: 12 <= k < 21 ==> OPENING[k] == "-factory:"[k - 12];
    assert forall k :: 21 <= k < 31 ==> OPENING[k] == "bootstrap:"[k - 21];
    assert forall k :: 0 <= k < 31 ==> OPENING[k] != '<';
    assert forall k :: 0 <= k < 18 ==> "start schema=1 -->"[k] != '<';
    assert forall k :: 0 <= k < 7 ==> "end -->"[k] != '<';
  }

  ghost predicate IsMarker(k: Markers, m: string) {
    m == k.start || m == k.end
  }

  /** Holds no marker. */
  ghost predicate Clean(k: Markers, s: string) {
    forall m, i :: IsMarker(k, m) ==> !OccursAt(s, m, i)
  }

  lemma HeadOnlyAt(k: Markers, s: string, m: string, i: int)
    requires Proper(k) && IsMarker(k, m) && OccursAt(s, m, i)
    ensures s[i] == '<' && s[i + 32] == m[32]
    ensures forall j :: i < j < i + |m| ==> s[j] != '<'
  {
    assert s[i + 0] == m[0];
    forall j | i < j < i + |m| ensures s[j] != '<' {
      assert s[i + (j - i)] == m[j - i];
    }
  }

  /** Two marker occurrences in one text are the same or do not touch. */
  lemma MarkersDisjoint(k: Markers, s: string, m: string, i: int, n: string, j: int)
    requires Proper(k) && IsMarker(k, m) && IsMarker(k, n) && OccursAt(s, m, i) && OccursAt(s, n, j)
    ensures (m == n && i == j) || i + |m| <= j || j + |n| <= i
  {
    HeadOnlyAt(k, s, m, i);
    HeadOnlyAt(k, s, n, j);
  }

  lemma OccursInJoin(a: string, n: string, b: string)
    ensures OccursAt(a + n + b, n, |a|)
  {
  }

  /** The occurrences in a text spliced around a marker are those of the pieces, and the marker itself. */
  lemma OccurrencesAround(k: Markers, a: string, n: string, b: string, m: string, i: int)
    requires Proper(k) && IsMarker(k, m) && IsMarker(k, n)
    ensures OccursAt(a + n + b, m, i) <==>
            OccursAt(a, m, i) || (i == |a| && m == n) || OccursAt(b, m, i - |a| - |n|)
  {
    var s := a + n + b;
    OccursInJoin(a, n, b);
    if OccursAt(s, m, i) {
      MarkersDisjoint(k, s, m, i, n, |a|);
    }
    if OccursAt(b, m, i - |a| - |n|) {
      forall h | 0 <= h < |m| ensures s[i + h] == m[h] {
        assert b[i - |a| - |n| + h] == m[h];
      }
    }
    if OccursAt(s, m, i) && |a| + |n| <= i {
      forall h | 0 <= h < |m| ensures b[i - |a| - |n| + h] == m[h] {
        assert s[i + h] == m[h];
      }
    }
  }

  // ----- Counting

  lemma CountFrom(s: string, m: string, from: nat)
    requires m != ""
    ensures Occurrences(s, m, from) == 0 <==> forall i :: from <= i ==> !OccursAt(s, m, i)
  {
  }

  lemma CountIsOne(s: string, m: string, p: int)
    requires m != "" && OccursAt(s, m, p) && forall i :: OccursAt(s, m, i) ==> i == p
    ensures Occurrences(s, m, 0) == 1 && IndexOf(s, m, 0) == p && LastIndexOf(s, m) == p
  {
    assert IndexOf(s, m, 0) == p;
    CountFrom(s, m, p + |m|);
  }

  lemma CountIsMore(k: Markers, s: string, m: string, p: int, q: int)
    requires Proper(k) && IsMarker(k, m) && OccursAt(s, m, p) && OccursAt(s, m, q) && p < q
    ensures Occurrences(s, m, 0) >= 2
  {
    var i := IndexOf(s, m, 0);
    MarkersDisjoint(k, s, m, i, m, q);
    CountFrom(s, m, i + |m|);
  }

  // ----- The shape of a well-marked file

  /** One start marker at `p`, one end marker at `q` after it, and no others. */
  ghost predicate MarkedAt(k: Markers, c: string, p: int, q: int) {
    && 0 <= p && p + |k.start| <= q && q + |k.end| <= |c|
    && forall m, i :: IsMarker(k, m) ==> (OccursAt(c, m, i) <==> i == if m == k.start then p else q)
  }

  lemma MarkedCounts(k: Markers, c: string, p: int, q: int)
    requires Proper(k) && MarkedAt(k, c, p, q)
    ensures Occurrences(c, k.start, 0) == 1 && IndexOf(c, k.start, 0) == p
    ensures Occurrences(c, k.end, 0) == 1 && LastIndexOf(c, k.end) == q
  {
    assert IsMarker(k, k.start) && IsMarker(k, k.end);
    CountIsOne(c, k.start, p);
    CountIsOne(c, k.end, q);
  }

  lemma MarkedPasses(k: Markers, c: string, p: int, q: int)
    requires Proper(k) && MarkedAt(k, c, p, q)
    ensures Issues(k, c) == []
  {
    MarkedCounts(k, c, p, q);
  }

  lemma CutPieces(k: Markers, c: string, p: int, q: int, before: string, body: string, after: string)
    requires OccursAt(c, k.start, p) && OccursAt(c, k.end, q) && p + |k.start| <= q
    requires c[..p] == before && c[p + |k.start|..q] == body && c[q + |k.end|..] == after
    ensures Cut(k, c, p, q, 1) == Split(before, after, Some(body), 1)
  {
    assert Slice(c, p + |k.start|, q) == c[p + |k.start|..q];
  }

  lemma SplitByCounts(k: Markers, c: string)
    requires k.start != "" && Occurrences(c, k.start, 0) == 1
    ensures SplitOf(k, c) == Cut(k, c, IndexOf(c, k.start, 0), LastIndexOf(c, k.end), 1)
  {
  }

  lemma MarkedSplit(k: Markers, c: string, p: int, q: int, before: string, body: string, after: string)
    requires Proper(k) && MarkedAt(k, c, p, q)
    requires c[..p] == before && c[p + |k.start|..q] == body && c[q + |k.end|..] == after
    ensures SplitOf(k, c) == Split(before, after, Some(body), 1)
  {
    MarkedCounts(k, c, p, q);
    SplitByCounts(k, c);
    CutPieces(k, c, p, q, before, body, after);
  }

  lemma CleanSplit(k: Markers, c: string)
    requires Proper(k) && Clean(k, c)
    ensures Issues(k, c) == [] && SplitOf(k, c) == Split(c, "", None, 0)
  {
    assert IsMarker(k, k.start) && IsMarker(k, k.end);
    CountFrom(c, k.start, 0);
    CountFrom(c, k.end, 0);
  }

  lemma OnlyPlace(k: Markers, c: string, m: string, p: int)
    requires Proper(k) && IsMarker(k, m) && Occurrences(c, m, 0) == 1 && OccursAt(c, m, p)
    ensures forall i :: OccursAt(c, m, i) ==> i == p
  {
    forall i | OccursAt(c, m, i) ensures i == p {
      if i < p {
        CountIsMore(k, c, m, i, p);
      } else if p < i {
        CountIsMore(k, c, m, p, i);
      }
    }
  }

  lemma IssueFreeIsMarked(k: Markers, c: string) returns (p: int, q: int)
    requires Proper(k) && Issues(k, c) == [] && !Clean(k, c)
    ensures MarkedAt(k, c, p, q)
  {
    p, q := IndexOf(c, k.start, 0), LastIndexOf(c, k.end);
    CountFrom(c, k.start, 0);
    CountFrom(c, k.end, 0);
    OnlyPlace(k, c, k.start, p);
    OnlyPlace(k, c, k.end, q);
    MarkersDisjoint(k, c, k.start, p, k.end, q);
  }

  /** The check accepts exactly the files with no marker at all and those with one start
      marker followed by one end marker. */
  lemma PassesExactlyWhenWellMarked(k: Markers, c: string)
    requires Proper(k)
    ensures Issues(k, c) == [] <==> Clean(k, c) || exists p, q :: MarkedAt(k, c, p, q)
  {
    if Clean(k, c) {
      CleanSplit(k, c);
    } else if Issues(k, c) == [] {
      var p, q := IssueFreeIsMarked(k, c);
    } else if exists p, q :: MarkedAt(k, c, p, q) {
      var p, q :| MarkedAt(k, c, p, q);
      MarkedPasses(k, c, p, q);
    }
  }

  // ----- Splicing

  function Splice(k: Markers, before: string, body: string, after: string): string {
    before + k.start + body + k.end + after
  }

  function PlaceOf(k: Markers, m: string, before: string, body: string): int {
    |before| + if m == k.start then 0 else |k.start| + |body|
  }

  lemma SpliceOccurrences(k: Markers, before: string, body: string, after: string, m: string, i: int)
    requires Proper(k) && IsMarker(k, m)
    ensures OccursAt(Splice(k, before, body, after), m, i) <==>
            || OccursAt(before, m, i)
            || OccursAt(body, m, i - |before| - |k.start|)
            || OccursAt(after, m, i - |before| - |k.start| - |body| - |k.end|)
            || i == PlaceOf(k, m, before, body)
  {
    OccurrencesAround(k, before, k.start, body, m, i);
    OccurrencesAround(k, before + k.start + body, k.end, after, m, i);
  }

  lemma SpliceIsMarked(k: Markers, before: string, body: string, after: string)
    requires Proper(k) && Clean(k, before) && Clean(k, body) && Clean(k, after)
    ensures MarkedAt(k, Splice(k, before, body, after), |before|, |before| + |k.start| + |body|)
  {
    forall m, i | IsMarker(k, m)
      ensures OccursAt(Splice(k, before, body, after), m, i) <==> i == PlaceOf(k, m, before, body)
    {
      SpliceOccurrences(k, before, body, after, m, i);
    }
  }

  lemma SplicePieces(k: Markers, before: string, body: string, after: string)
    ensures var (c, p, q) := (Splice(k, before, body, after), |before|, |before| + |k.start| + |body|);
            c[..p] == before && c[p + |k.start|..q] == body && c[q + |k.end|..] == after
  {
  }

  lemma SplicePasses(k: Markers, before: string, body: string, after: string)
    requires Proper(k) && Clean(k, before) && Clean(k, body) && Clean(k, after)
    ensures Issues(k, Splice(k, before, body, after)) == []
  {
    SpliceIsMarked(k, before, body, after);
    MarkedPasses(k, Splice(k, before, body, after), |before|, |before| + |k.start| + |body|);
  }

  lemma SpliceSplit(k: Markers, before: string, body: string, after: string)
    requires Proper(k) && Clean(k, before) && Clean(k, body) && Clean(k, after)
    ensures SplitOf(k, Splice(k, before, body, after)) == Split(before, after, Some(body), 1)
  {
    SpliceIsMarked(k, before, body, after);
    SplicePieces(k, before, body, after);
    MarkedSplit(k, Splice(k, before, body, after), |before|, |before| + |k.start| + |body|, before, body, after);
  }

  lemma SpliceWithMarkerInside(k: Markers, before: string, body: string, after: string)
    requires Proper(k) && !Clean(k, body)
    ensures Issues(k, Splice(k, before, body, after)) != []
  {
    var m, i :| IsMarker(k, m) && OccursAt(body, m, i);
    var c := Splice(k, before, body, after);
    var (p, q) := (PlaceOf(k, m, before, body), |before| + |k.start| + i);
    SpliceOccurrences(k, before, body, after, m, p);
    SpliceOccurrences(k, before, body, after, m, q);
    CountIsMore(k, c, m, if p < q then p else q, if p < q then q else p);
  }

  lemma MarkedIsSplice(k: Markers, c: string, p: int, q: int)
    requires Proper(k) && MarkedAt(k, c, p, q)
    ensures c == Splice(k, c[..p], c[p + |k.start|..q], c[q + |k.end|..])
  {
    assert IsMarker(k, k.start) && IsMarker(k, k.end);
    SliceOccurs(c, k.start, p);
    SliceOccurs(c, k.end, q);
    assert c == c[..p] + c[p..p + |k.start|] + c[p + |k.start|..q] + c[q..q + |k.end|] + c[q + |k.end|..];
  }

  lemma MarkedEndsClean(k: Markers, c: string, p: int, q: int, lo: int, hi: int)
    requires Proper(k) && MarkedAt(k, c, p, q) && 0 <= lo <= hi <= |c| && (hi <= p || q < lo)
    ensures Clean(k, c[lo..hi])
  {
    forall m, i | IsMarker(k, m) ensures !OccursAt(c[lo..hi], m, i) {
      if OccursAt(c[lo..hi], m, i) {
        OccursInSlice(c, lo, hi, m, i);
      }
    }
  }

  lemma CutParts(k: Markers, c: string, p: int, q: int)
    requires Proper(k) && MarkedAt(k, c, p, q)
    ensures Clean(k, c[..p]) && Clean(k, c[q + |k.end|..])
    ensures c == Splice(k, c[..p], c[p + |k.start|..q], c[q + |k.end|..])
  {
    MarkedIsSplice(k, c, p, q);
    MarkedEndsClean(k, c, p, q, 0, p);
    MarkedEndsClean(k, c, p, q, q + |k.end|, |c|);
    assert c[0..p] == c[..p] && c[q + |k.end|..|c|] == c[q + |k.end|..];
  }

  lemma MarkedSplitParts(k: Markers, c: string, p: int, q: int)
    requires Proper(k) && MarkedAt(k, c, p, q)
    ensures var s := SplitOf(k, c);
            && s.block != None && Clean(k, s.before) && Clean(k, s.after)
            && c == Splice(k, s.before, s.block.value, s.after)
  {
    var (before, body, after) := (c[..p], c[p + |k.start|..q], c[q + |k.end|..]);
    CutParts(k, c, p, q);
    MarkedSplit(k, c, p, q, before, body, after);
  }

  /** What a splittable file is made of: it is its own parts put back together, and the
      parts outside the block are marker-free. */
  lemma SplitParts(k: Markers, c: string)
    requires Proper(k) && Issues(k, c) == []
    ensures var s := SplitOf(k, c);
            && Clean(k, s.before) && Clean(k, s.after)
            && c == (if s.block == None then s.before else Splice(k, s.before, s.block.value, s.after))
  {
    if Clean(k, c) {
      CleanSplit(k, c);
      assert Clean(k, "") by {
        forall m, i | IsMarker(k, m) ensures !OccursAt("", m, i) {}
      }
    } else {
      var p, q := IssueFreeIsMarked(k, c);
      MarkedSplitParts(k, c, p, q);
    }
  }

  // ----- The lens laws

  /** A block as the builder hands it over: the body between its two markers. */
  function Wrapped(k: Markers, body: string): string {
    k.start + body + k.end
  }

  lemma UnwrapsTo(k: Markers, body: string)
    ensures Slice(Wrapped(k, body), |k.start|, |Wrapped(k, body)| - |k.end|) == body
  {
    var w := Wrapped(k, body);
    assert w[|k.start|..|k.start| + |body|] == body;
  }

  lemma EditIs(k: Markers, c: string, s: Split, newBlock: string, body: string)
    requires Slice(newBlock, |k.start|, |newBlock| - |k.end|) == body
    ensures var edit := EditOf(k, c, s, newBlock);
            && edit.content == Splice(k, s.before, body, s.after)
            && (edit.replaced <==> s.block != None && edit.content != c)
  {
  }

  lemma WrittenContent(k: Markers, c: string, body: string)
    requires Proper(k) && Issues(k, c) == []
    ensures var (s, r) := (SplitOf(k, c), Replace(k, c, Wrapped(k, body)));
            && r.Written? && r.edit.content == Splice(k, s.before, body, s.after)
            && (r.edit.replaced <==> s.block != None && r.edit.content != c)
  {
    UnwrapsTo(k, body);
    EditIs(k, c, SplitOf(k, c), Wrapped(k, body), body);
  }

  /** PutGet and the frame: the block reads back as written, between the same surroundings. */
  lemma WriteThenRead(k: Markers, c: string, body: string)
    requires Proper(k) && Issues(k, c) == [] && Clean(k, body)
    ensures var (s, r) := (SplitOf(k, c), Replace(k, c, Wrapped(k, body)));
            && r.Written? && Issues(k, r.edit.content) == []
            && SplitOf(k, r.edit.content) == Split(s.before, s.after, Some(body), 1)
  {
    WrittenContent(k, c, body);
    SplitParts(k, c);
    SplicePasses(k, SplitOf(k, c).before, body, SplitOf(k, c).after);
    SpliceSplit(k, SplitOf(k, c).before, body, SplitOf(k, c).after);
  }

  /** The written file passes the check exactly when the body carries no marker of its own;
      otherwise the next edit is refused. */
  lemma WrittenFilePasses(k: Markers, c: string, body: string)
    requires Proper(k) && Issues(k, c) == []
    ensures var r := Replace(k, c, Wrapped(k, body));
            r.Written? && (Issues(k, r.edit.content) == [] <==> Clean(k, body))
  {
    if Clean(k, body) {
      WriteThenRead(k, c, body);
    } else {
      WrittenContent(k, c, body);
      SpliceWithMarkerInside(k, SplitOf(k, c).before, body, SplitOf(k, c).after);
    }
  }

  /** PutPut: the last of two writes wins. */
  lemma LastWriteWins(k: Markers, c: string, body: string, body': string)
    requires Proper(k) && Issues(k, c) == [] && Clean(k, body)
    ensures var (r, direct) := (Replace(k, c, Wrapped(k, body)), Replace(k, c, Wrapped(k, body')));
            && r.Written? && direct.Written?
            && var again := Replace(k, r.edit.content, Wrapped(k, body'));
               again.Written? && again.edit.content == direct.edit.content
  {
    WriteThenRead(k, c, body);
    WrittenContent(k, c, body');
    WrittenContent(k, Replace(k, c, Wrapped(k, body)).edit.content, body');
  }

  /** GetPut: writing back what was read changes nothing, and says so. */
  lemma WritingBackChangesNothing(k: Markers, c: string)
    requires Proper(k) && Issues(k, c) == [] && SplitOf(k, c).block != None
    ensures Replace(k, c, Wrapped(k, SplitOf(k, c).block.value)) == Written(Edit(c, false))
  {
    SplitParts(k, c);
    WrittenContent(k, c, SplitOf(k, c).block.value);
  }

  /** Writing the same block twice is writing it once; the second write reports no change. */
  lemma SecondWriteIsNoOp(k: Markers, c: string, body: string)
    requires Proper(k) && Issues(k, c) == [] && Clean(k, body)
    ensures var r := Replace(k, c, Wrapped(k, body));
            && r.Written? && Issues(k, r.edit.content) == []
            && Replace(k, r.edit.content, Wrapped(k, body)) == Written(Edit(r.edit.content, false))
  {
    WriteThenRead(k, c, body);
    WritingBackChangesNothing(k, Replace(k, c, Wrapped(k, body)).edit.content);
  }

  /** What `replaced` means. It is not "the content changed": a first insertion changes the
      content and still reports false. */
  lemma ReplacedFlag(k: Markers, c: string, body: string)
    requires Proper(k) && Issues(k, c) == []
    ensures var (s, r) := (SplitOf(k, c), Replace(k, c, Wrapped(k, body)));
            && r.Written?
            && (r.edit.replaced <==> s.block != None && s.block.value != body)
            && (r.edit.content == c <==> s.block == Some(body))
  {
    WrittenContent(k, c, body);
    SplitParts(k, c);
    var s := SplitOf(k, c);
    if s.block == None {
      assert |Splice(k, s.before, body, s.after)| > |c|;
    } else {
      SplicePieces(k, s.before, body, s.after);
      SplicePieces(k, s.before, s.block.value, s.after);
      SameSpliceSameBody(k, s.before, body, s.block.value, s.after);
    }
  }

  lemma SameSpliceSameBody(k: Markers, before: string, body: string, body': string, after: string)
    ensures Splice(k, before, body, after) == Splice(k, before, body', after) <==> body == body'
  {
    SplicePieces(k, before, body, after);
    SplicePieces(k, before, body', after);
    var (c, c') := (Splice(k, before, body, after), Splice(k, before, body', after));
    assert c == c' ==> |c| == |c'|;
  }

  // ----- The init run that writes the block

  const NOTICE: string := "This file is partly managed by the pi-agent-factory bootstrap."

  /** The file an init run creates when there is none starts with this heading. */
  const HEADING: string := "# AGENTS.md\n\n" + NOTICE + "\n\n"

  datatype InitRun = Thrown(issues: seq<Issue>) | Finished(changed: bool, agents: Option<string>)

  /** An init or refresh run, given whether the profile on disk is out of date. */
  function RunInit(k: Markers, agents: Option<string>, profileChanged: bool, body: string): InitRun
    requires k.start != "" && k.end != ""
  {
    match agents
    case None => Finished(true, Some(HEADING + Wrapped(k, body) + "\n"))
    case Some(c) =>
      match Replace(k, c, Wrapped(k, body))
      case Refused(issues) => Thrown(issues)
      case Written(edit) =>
        var changed := profileChanged || edit.replaced;
        Finished(changed, Some(if changed then edit.content else c))
  }

  ghost predicate AngleFree(s: string) {
    forall i :: 0 <= i < |s| ==> s[i] != '<'
  }

  lemma AngleFreeIsClean(k: Markers, s: string)
    requires Proper(k) && AngleFree(s)
    ensures Clean(k, s)
  {
    forall m, i | IsMarker(k, m) ensures !OccursAt(s, m, i) {
      if 0 <= i && i + |m| <= |s| {
        assert s[i + 0] != m[0];
      }
    }
  }

  lemma AngleFreeJoins(a: string, b: string, c: string)
    requires AngleFree(a) && AngleFree(b) && AngleFree(c)
    ensures AngleFree(a + b + c)
  {
  }

  lemma NoticeHalves()
    ensures NOTICE == "This file is partly managed by " + "the pi-agent-factory bootstrap."
  {
  }

  lemma HalvesAngleFree(first: string, second: string, all: string)
    requires first == "This file is partly managed by " && second == "the pi-agent-factory bootstrap."
    requires all == first + second
    ensures AngleFree(all)
  {
  }

  lemma HeadingAngleFree()
    ensures AngleFree(HEADING)
  {
    NoticeHalves();
    HalvesAngleFree("This file is partly managed by ", "the pi-agent-factory bootstrap.", NOTICE);
    AngleFreeJoins("# AGENTS.md\n\n", NOTICE, "\n\n");
  }

  /** A run leaves the freshly built block in the file unless the profile was up to date
      and the file had no block to begin with: the insertion is not counted as a change. */
  lemma InitLeavesTheBlock(k: Markers, agents: Option<string>, profileChanged: bool, body: string)
    requires Proper(k) && Clean(k, body)
    requires agents == None || Issues(k, agents.value) == []
    ensures var r := RunInit(k, agents, profileChanged, body);
            && r.Finished? && r.agents != None && Issues(k, r.agents.value) == []
            && (SplitOf(k, r.agents.value).block == Some(body) <==>
                agents == None || profileChanged || SplitOf(k, agents.value).block != None)
  {
    match agents
    case None =>
      HeadingAngleFree();
      AngleFreeIsClean(k, HEADING);
      AngleFreeIsClean(k, "\n");
      var c := HEADING + Wrapped(k, body) + "\n";
      assert c == Splice(k, HEADING, body, "\n");
      SplicePasses(k, HEADING, body, "\n");
      SpliceSplit(k, HEADING, body, "\n");
    case Some(c) =>
      WriteThenRead(k, c, body);
      ReplacedFlag(k, c, body);
  }

  /** Once the profile is stored, a second run over the same evidence changes nothing. */
  lemma InitSettles(k: Markers, agents: Option<string>, profileChanged: bool, body: string)
    requires Proper(k) && Clean(k, body)
    requires agents == None || Issues(k, agents.value) == []
    ensures var r := RunInit(k, agents, profileChanged, body);
            r.Finished? && RunInit(k, r.agents, false, body) == Finished(false, r.agents)
  {
    InitLeavesTheBlock(k, agents, profileChanged, body);
    var r := RunInit(k, agents, profileChanged, body);
    ReplacedFlag(k, r.agents.value, body);
    if agents != None {
      ReplacedFlag(k, agents.value, body);
    }
  }
}
