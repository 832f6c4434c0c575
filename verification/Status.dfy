/** The status snapshot: probes isolated from one another and folded worst first. */
module Status {
  import opened Sequences
  import opened Wrappers

  datatype StatusLine = StatusLine(source: string, outcome: string, summary: string)

  const CLEAN := "nothing_pending"
  const PROBE_ERROR := "probe_error"

  /** Severity, worst lowest. An outcome nobody declared ranks with a probe error. */
  function Rank(outcome: string): nat {
    if outcome == "interrupted_run" then 0
    else if outcome == PROBE_ERROR then 1
    else if outcome == "failing_gate" then 2
    else if outcome == "stale_audit" then 3
    else if outcome == "proposed_backlog" then 4
    else if outcome == "pending_inbox" then 5
    else if outcome == CLEAN then 6
    else 1
  }

  /** The declared precedence, worst first. */
  function Precedence(i: nat): string
    requires i < 7
  {
    if i == 0 then "interrupted_run"
    else if i == 1 then PROBE_ERROR
    else if i == 2 then "failing_gate"
    else if i == 3 then "stale_audit"
    else if i == 4 then "proposed_backlog"
    else if i == 5 then "pending_inbox"
    else CLEAN
  }

  /** Every declared outcome ranks at its place in the precedence, and any other as a probe error:
      no two declared outcomes tie. */
  lemma RankIsPlace(outcome: string)
    ensures forall i :: 0 <= i < 7 && outcome == Precedence(i) ==> Rank(outcome) == i
    ensures (forall i :: 0 <= i < 7 ==> outcome != Precedence(i)) ==> Rank(outcome) == Rank(PROBE_ERROR)
  {
    forall i | 0 <= i < 7 && outcome == Precedence(i) ensures Rank(outcome) == i {
      PlaceIsRank(i);
    }
    assert Precedence(0) == "interrupted_run" && Precedence(2) == "failing_gate" && Precedence(3) == "stale_audit";
    assert Precedence(1) == PROBE_ERROR && Precedence(4) == "proposed_backlog" && Precedence(5) == "pending_inbox" &&
        Precedence(6) == CLEAN;
  }

  lemma PlaceIsRank(i: nat)
    requires i < 7
    ensures Rank(Precedence(i)) == i
  {
    assert "interrupted_run"[0] == 'i' && "failing_gate"[0] == 'f' && "stale_audit"[0] == 's' && CLEAN[0] == 'n';
    assert PROBE_ERROR[0] == 'p' && "proposed_backlog"[0] == 'p' && "pending_inbox"[0] == 'p';
    assert PROBE_ERROR[3] == 'b' && "proposed_backlog"[3] == 'p' && "pending_inbox"[1] == 'e';
    assert PROBE_ERROR[1] == 'r' && "proposed_backlog"[1] == 'r';
  }

  lemma OnlyCleanRanksLast(outcome: string)
    ensures Rank(outcome) <= 6 && (Rank(outcome) == 6 <==> outcome == CLEAN)
  {
  }

  function BySeverity(): (StatusLine, StatusLine) -> bool {
    (a: StatusLine, b: StatusLine) => Rank(a.outcome) <= Rank(b.outcome)
  }

  datatype Snapshot = Snapshot(lines: seq<StatusLine>, primary: StatusLine, exitCode: nat)

  /** An empty tuple of lines is an error. */
  function SnapshotFromLines(lines: seq<StatusLine>): Option<Snapshot> {
    var sorted := SortBy(BySeverity(), lines);
    if sorted == [] then None else Some(Snapshot(sorted, sorted[0], if sorted[0].outcome == CLEAN then 0 else 1))
  }

  lemma SortedBySeverity(lines: seq<StatusLine>)
    ensures Sorted(BySeverity(), SortBy(BySeverity(), lines))
  {
    SortBySorted(BySeverity(), lines);
  }

  lemma SortKeepsMembers(lines: seq<StatusLine>, l: StatusLine)
    ensures l in SortBy(BySeverity(), lines) <==> l in lines
  {
    SameMembers(SortBy(BySeverity(), lines), lines, l);
  }

  lemma PrimaryIsWorst(lines: seq<StatusLine>, l: StatusLine)
    requires l in lines
    ensures SnapshotFromLines(lines) != None
    ensures Rank(SnapshotFromLines(lines).value.primary.outcome) <= Rank(l.outcome)
  {
    var sorted := SortBy(BySeverity(), lines);
    SortedBySeverity(lines);
    SortKeepsMembers(lines, l);
    var k :| 0 <= k < |sorted| && sorted[k] == l;
    if k > 0 {
      assert BySeverity()(sorted[0], sorted[k]);
    }
  }

  /** The exit code is zero exactly when every line says nothing is pending: no stale, failed or
      unrecognised outcome can fall through to looking clean. */
  lemma ZeroExactlyWhenAllClean(lines: seq<StatusLine>)
    requires lines != []
    ensures SnapshotFromLines(lines) != None
    ensures SnapshotFromLines(lines).value.exitCode == 0 <==> forall l :: l in lines ==> l.outcome == CLEAN
  {
    PrimaryIsWorst(lines, lines[0]);
    var primary := SnapshotFromLines(lines).value.primary;
    SortKeepsMembers(lines, primary);
    if primary.outcome == CLEAN {
      forall l | l in lines ensures l.outcome == CLEAN {
        PrimaryIsWorst(lines, l);
        OnlyCleanRanksLast(l.outcome);
      }
    }
  }

  function SameRank(rank: nat): StatusLine -> bool {
    (l: StatusLine) => Rank(l.outcome) == rank
  }

  /** Equally severe lines stay in the order the probes were declared. */
  lemma TiesKeepDeclaredOrder(lines: seq<StatusLine>, rank: nat)
    requires lines != []
    ensures Filter(SameRank(rank), SnapshotFromLines(lines).value.lines) == Filter(SameRank(rank), lines)
  {
    SortByStable(BySeverity(), SameRank(rank), lines);
  }

  // ----- Probes

  /** A probe answers with a line or raises. */
  datatype Probe = Probe(source: string, answer: Result<StatusLine, string>)

  function RunProbe(p: Probe): StatusLine {
    match p.answer
    case Ok(line) => line
    case Err(message) => StatusLine(p.source, PROBE_ERROR, p.source + " probe failed: " + message)
  }

  function StatusLines(probes: seq<Probe>): seq<StatusLine> {
    seq(|probes|, i requires 0 <= i < |probes| => RunProbe(probes[i]))
  }

  /** The snapshot is clean exactly when every probe answered, and answered clean; a probe that
      raises costs only its own line. */
  lemma CleanExactlyWhenProbesAre(probes: seq<Probe>)
    requires probes != []
    ensures SnapshotFromLines(StatusLines(probes)) != None
    ensures SnapshotFromLines(StatusLines(probes)).value.exitCode == 0 <==>
            forall i :: 0 <= i < |probes| ==> probes[i].answer.Ok? && probes[i].answer.value.outcome == CLEAN
    ensures forall i :: 0 <= i < |probes| && probes[i].answer.Ok? ==> StatusLines(probes)[i] == probes[i].answer.value
  {
    var lines := StatusLines(probes);
    ZeroExactlyWhenAllClean(lines);
    forall i | 0 <= i < |probes|
      ensures lines[i].outcome == CLEAN <==> probes[i].answer.Ok? && probes[i].answer.value.outcome == CLEAN
    {
      assert PROBE_ERROR[0] == 'p' && CLEAN[0] == 'n';
    }
    assert (forall l :: l in lines ==> l.outcome == CLEAN) <==>
        forall i :: 0 <= i < |lines| ==> lines[i].outcome == CLEAN;
  }
}
