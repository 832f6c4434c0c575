/** The diff browser: cursor, viewport, in-overlay search, and the actions its keys emit. */
module ReviewOverlay {
  import opened DiffRows
  import opened Wrappers

  /** A file under review: its rendered rows (at least one: `split` never gives none) and the raw
      lines of its diff. */
  datatype FileDiff = FileDiff(path: string, lines: seq<string>, raw: seq<string>)

  predicate FileOk(f: FileDiff) {
    f.lines != []
  }

  /** The anchors of the rendered rows. When rendering has changed the number of lines, none: every
      raw line counts as one without. */
  function MetaOf(f: FileDiff): seq<Row> {
    if |f.lines| == |f.raw| then Rows(f.raw, START) else seq(|f.raw|, _ => UNANCHORED)
  }

  /** A comment is anchored, and a hunk jump lands, only where the rendered rows are the diff's own. */
  lemma FallbackNeverAnchors(f: FileDiff, i: int)
    ensures AnchorForRow(MetaOf(f), i) != None || IsHunk(MetaOf(f), i) ==> |f.lines| == |f.raw| && 0 <= i < |f.lines|
    ensures |f.lines| == |f.raw| ==> AnchorForRow(MetaOf(f), i) == AnchorForRow(Rows(f.raw, START), i)
  {
    OneRowEach(f.raw, START);
  }

  /** `matches(line, term)` is the case-insensitive containment test; `verify` the guide's file per digit. */
  datatype Env = Env(files: seq<FileDiff>, viewport: nat, verify: seq<Option<string>>,
      matches: (string, string) -> bool)

  predicate EnvOk(env: Env) {
    env.viewport >= 1 && forall i :: 0 <= i < |env.files| ==> FileOk(env.files[i])
  }

  // ----- Cursor and viewport

  datatype FileView = FileView(index: nat, scroll: int, cursor: int)

  predicate Visible(v: FileView, viewport: nat) {
    v.scroll <= v.cursor < v.scroll + viewport
  }

  function FollowCursor(v: FileView, viewport: nat): FileView {
    if v.cursor < v.scroll then v.(scroll := v.cursor)
    else if v.cursor >= v.scroll + viewport then v.(scroll := v.cursor - viewport + 1)
    else v
  }

  /** The viewport moves as little as it takes to show the cursor: not at all when it is visible,
      and never past what another offset showing it would need. */
  lemma FollowMovesLeast(v: FileView, viewport: nat, scroll: int)
    requires viewport >= 1 && Visible(v.(scroll := scroll), viewport)
    ensures Visible(FollowCursor(v, viewport), viewport) && FollowCursor(v, viewport).cursor == v.cursor
    ensures Visible(v, viewport) ==> FollowCursor(v, viewport) == v
    ensures var moved := FollowCursor(v, viewport).scroll - v.scroll;
            var other := scroll - v.scroll;
            (if moved < 0 then -moved else moved) <= (if other < 0 then -other else other)
  {
  }

  // ----- Cyclic search

  datatype Direction = Forward | Backward

  function Sign(d: Direction): int {
    if d == Forward then 1 else -1
  }

  /** JavaScript `%`: the sign of the dividend. */
  function JsMod(x: int, n: int): int
    requires n > 0
  {
    if x >= 0 then x % n else -((-x) % n)
  }

  /** The row visited at a step: `((cursor + dir * step) % total + total) % total`. */
  function RowAt(cursor: int, d: Direction, step: nat, total: nat): int
    requires total > 0
  {
    JsMod(JsMod(cursor + Sign(d) * step, total) + total, total)
  }

  lemma ModWraps(x: int, n: int)
    requires n > 0
    ensures 0 <= x < n ==> x % n == x
    ensures n <= x < 2 * n ==> x % n == x - n
  {
  }

  lemma RowIs(cursor: int, d: Direction, step: nat, total: nat)
    requires 0 <= cursor < total && 1 <= step <= total
    ensures RowAt(cursor, d, step, total) ==
            if d == Forward then (if cursor + step < total then cursor + step else cursor + step - total)
            else (if cursor - step >= 0 then cursor - step else cursor - step + total)
  {
    var x := cursor + Sign(d) * step;
    if d == Forward {
      assert x == cursor + step;
      ModWraps(x, total);
      ModWraps((if x < total then x else x - total) + total, total);
    } else {
      assert x == cursor - step;
      if x >= 0 {
        ModWraps(x, total);
        ModWraps(x + total, total);
      } else {
        ModWraps(-x, total);
        ModWraps(if -x == total then total else x + total, total);
      }
    }
  }

  /** The step at which a row is visited. */
  function StepOf(cursor: int, d: Direction, row: int, total: nat): int {
    var ahead := if d == Forward then row - cursor else cursor - row;
    if ahead > 0 then ahead else ahead + total
  }

  /** In `total` steps the search visits every row exactly once, the cursor's own row last. */
  lemma EveryRowOnce(cursor: int, d: Direction, row: int, step: nat, total: nat)
    requires 0 <= cursor < total && 0 <= row < total && 1 <= step <= total
    ensures 1 <= StepOf(cursor, d, row, total) <= total
    ensures RowAt(cursor, d, step, total) == row <==> step == StepOf(cursor, d, row, total)
    ensures RowAt(cursor, d, total, total) == cursor
  {
    RowIs(cursor, d, step, total);
    RowIs(cursor, d, total, total);
  }

  predicate Hits(env: Env, lines: seq<string>, term: string, row: int) {
    0 <= row < |lines| && env.matches(lines[row], term)
  }

  /** The cursor lands on the nearest match in the search direction, wrapping once, with the
      viewport following; without a match, or a term, nothing moves. */
  predicate Landed(before: FileView, after: FileView, env: Env, lines: seq<string>, term: string, d: Direction)
    requires lines != [] && 0 <= before.cursor < |lines|
  {
    if term != "" && exists row :: 0 <= row < |lines| && Hits(env, lines, term, row) then
      && Hits(env, lines, term, after.cursor)
      && (forall row :: 0 <= row < |lines| && Hits(env, lines, term, row) ==>
            StepOf(before.cursor, d, after.cursor, |lines|) <= StepOf(before.cursor, d, row, |lines|))
      && after == FollowCursor(before.(cursor := after.cursor), env.viewport)
    else after == before
  }

  method JumpToMatch(view: FileView, env: Env, lines: seq<string>, lastSearch: string, d: Direction)
    returns (after: FileView)
    requires lines != [] && 0 <= view.cursor < |lines|
    ensures Landed(view, after, env, lines, lastSearch, d)
    ensures after.index == view.index && 0 <= after.cursor < |lines|
  {
    after := view;
    if lastSearch == "" {
      return;
    }
    var total := |lines|;
    for step := 1 to total + 1
      invariant forall row :: 0 <= row < total && StepOf(view.cursor, d, row, total) < step ==>
                !Hits(env, lines, lastSearch, row)
    {
      var idx := RowAt(view.cursor, d, step, total);
      RowIs(view.cursor, d, step, total);
      EveryRowOnce(view.cursor, d, idx, step, total);
      forall row | 0 <= row < total ensures 1 <= StepOf(view.cursor, d, row, total) <= total {
        EveryRowOnce(view.cursor, d, row, 1, total);
      }
      if env.matches(lines[idx], lastSearch) {
        assert Hits(env, lines, lastSearch, idx);
        return FollowCursor(view.(cursor := idx), env.viewport);
      }
      forall row | 0 <= row < total && StepOf(view.cursor, d, row, total) == step ensures row == idx {
        EveryRowOnce(view.cursor, d, row, step, total);
      }
    }
    forall row | 0 <= row < total ensures !Hits(env, lines, lastSearch, row) {
      EveryRowOnce(view.cursor, d, row, 1, total);
    }
  }

  /** A landing that moved shows its cursor. */
  lemma LandedIsVisible(before: FileView, after: FileView, env: Env, lines: seq<string>, term: string, d: Direction)
    requires lines != [] && 0 <= before.cursor < |lines| && env.viewport >= 1
    requires Landed(before, after, env, lines, term, d) && after != before
    ensures Visible(after, env.viewport)
  {
  }

  /** What it says is what there is: two landings from one place agree. */
  lemma LandingIsUnique(before: FileView, a: FileView, b: FileView, env: Env, lines: seq<string>, term: string,
                        d: Direction)
    requires lines != [] && 0 <= before.cursor < |lines|
    requires Landed(before, a, env, lines, term, d) && Landed(before, b, env, lines, term, d)
    ensures a == b
  {
    var total := |lines|;
    if a != before || b != before {
      if a.cursor != b.cursor {
        assert Hits(env, lines, term, a.cursor) && Hits(env, lines, term, b.cursor);
        EveryRowOnce(before.cursor, d, a.cursor, StepOf(before.cursor, d, b.cursor, total), total);
      }
    }
  }

  // ----- Hunk jumps

  predicate IsHunk(meta: seq<Row>, i: int) {
    0 <= i < |meta| && meta[i].kind == HunkHead
  }

  method NextHunk(meta: seq<Row>, cursor: int) returns (next: int)
    requires 0 <= cursor
    ensures next == -1 || (cursor < next && IsHunk(meta, next))
    ensures forall i :: cursor < i && IsHunk(meta, i) ==> next != -1 && next <= i
  {
    next := cursor + 1;
    while next < |meta|
      invariant cursor < next
      invariant forall i :: cursor < i < next ==> !IsHunk(meta, i)
    {
      if meta[next].kind == HunkHead {
        return;
      }
      next := next + 1;
    }
    next := -1;
  }

  method PreviousHunk(meta: seq<Row>, cursor: int) returns (prev: int)
    requires 0 <= cursor
    ensures prev == -1 || (prev < cursor && IsHunk(meta, prev))
    ensures forall i :: i < cursor && IsHunk(meta, i) ==> i <= prev
  {
    prev := cursor - 1;
    while prev >= 0
      invariant -1 <= prev < cursor
      invariant forall i :: prev < i < cursor ==> !IsHunk(meta, i)
    {
      if prev < |meta| && meta[prev].kind == HunkHead {
        return;
      }
      prev := prev - 1;
    }
  }

  // ----- Keys and actions

  datatype Key = Down | Up | PageDown | PageUp | Home | End | Escape | Enter | Ch(c: char) | OtherKey

  datatype Action =
    | Comment(file: string, anchor: Option<Anchor>) | FileComment(file: string) | ToggleReviewed(file: string)
    | ViewComments | Edit(file: string) | Approve | Reject

  datatype View = Summary | InFile(v: FileView)

  const MAX_SAFE_INTEGER := 9_007_199_254_740_991

  function Min(a: int, b: int): int { if a < b then a else b }
  function Max(a: int, b: int): int { if a > b then a else b }

  class Overlay {
    const env: Env
    var view: View
    var selected: int
    var searching: bool
    var search: string
    var lastSearch: string

    /** The cursor is on a row of an existing file; the selection on a file, if there is one. */
    predicate Valid()
      reads this
    {
      && EnvOk(env)
      && (env.files != [] ==> 0 <= selected < |env.files|)
      && (view.InFile? ==> view.v.index < |env.files| && 0 <= view.v.cursor < |env.files[view.v.index].lines|)
    }

    constructor (env: Env)
      requires EnvOk(env)
      ensures Valid() && this.env == env && view == Summary
    {
      this.env := env;
      view, selected, searching, search, lastSearch := Summary, 0, false, "", "";
    }

    predicate OnFile(a: Action)
      reads this
    {
      match a
      case Comment(f, _) => exists i :: 0 <= i < |env.files| && env.files[i].path == f
      case FileComment(f) => exists i :: 0 <= i < |env.files| && env.files[i].path == f
      case ToggleReviewed(f) => exists i :: 0 <= i < |env.files| && env.files[i].path == f
      case Edit(f) => exists i :: 0 <= i < |env.files| && env.files[i].path == f
      case _ => true
    }

    method MoveCursor(cursor: int)
      requires Valid() && view.InFile? && 0 <= cursor < |env.files[view.v.index].lines|
      modifies this`view
      ensures Valid() && view == InFile(FollowCursor(old(view.v).(cursor := cursor), env.viewport))
    {
      view := InFile(FollowCursor(view.v.(cursor := cursor), env.viewport));
    }

    method Jump(d: Direction)
      requires Valid() && view.InFile?
      modifies this`view
      ensures Valid() && view.InFile?
      ensures Landed(old(view.v), view.v, env, env.files[old(view.v.index)].lines, lastSearch, d)
    {
      var after := JumpToMatch(view.v, env, env.files[view.v.index].lines, lastSearch, d);
      view := InFile(after);
    }

    /** While a search is typed every key feeds it: no cursor moves and no action is emitted until
        Enter, which jumps, or Escape, which discards it. */
    method SearchKey(key: Key)
      requires Valid() && view.InFile? && searching
      modifies this
      ensures Valid() && view.InFile? && selected == old(selected)
      ensures searching <==> key != Escape && key != Enter
      ensures key != Enter ==> view == old(view) && lastSearch == old(lastSearch)
      ensures key == Enter ==> lastSearch == old(search)
      ensures key == Enter ==> Landed(old(view.v), view.v, env, env.files[old(view.v.index)].lines, lastSearch, Forward)
    {
      match key
      case Escape => searching, search := false, "";
      case Enter =>
        lastSearch, searching := search, false;
        Jump(Forward);
      case Ch(c) =>
        if c >= ' ' && c != '\U{7f}' {
          search := search + [c];
        }
      case _ =>
    }

    method ScrollKey(key: Key)
      requires Valid() && view.InFile?
      modifies this`view
      ensures Valid() && view.InFile?
      ensures view.v.index == old(view.v.index) && view.v.cursor == old(view.v.cursor)
    {
      match key
      case PageDown => view := InFile(view.v.(scroll := view.v.scroll + env.viewport));
      case PageUp => view := InFile(view.v.(scroll := view.v.scroll - env.viewport));
      case Home => view := InFile(view.v.(scroll := 0));
      case End => view := InFile(view.v.(scroll := MAX_SAFE_INTEGER));
      case _ =>
    }

    method HunkKey(forward: bool)
      requires Valid() && view.InFile?
      modifies this`view
      ensures Valid() && view.InFile? && view.v.index == old(view.v.index)
      ensures view == old(view) ||
              (IsHunk(MetaOf(env.files[view.v.index]), view.v.cursor) && Visible(view.v, env.viewport))
    {
      var meta := MetaOf(env.files[view.v.index]);
      var row;
      if forward {
        row := NextHunk(meta, view.v.cursor);
      } else {
        row := PreviousHunk(meta, view.v.cursor);
      }
      if row >= 0 {
        FallbackNeverAnchors(env.files[view.v.index], row);
        MoveCursor(row);
      }
    }

    /** A key in file mode. A comment is anchored to the row the cursor is on. */
    method FileKey(key: Key) returns (action: Option<Action>)
      requires Valid() && view.InFile? && !searching
      modifies this
      ensures Valid() && (action != None ==> OnFile(action.value) && view == old(view))
      ensures action != None ==> action.value != Approve && action.value != Reject
      ensures action != None && action.value.Comment? ==>
                action.value.anchor == AnchorForRow(MetaOf(env.files[view.v.index]), view.v.cursor)
    {
      var file := env.files[view.v.index];
      action := None;
      if key == Down || key == Ch('j') {
        MoveCursor(Min(view.v.cursor + 1, Max(0, |file.lines| - 1)));
      } else if key == Up || key == Ch('k') {
        MoveCursor(Max(view.v.cursor - 1, 0));
      } else if key == PageDown || key == PageUp || key == Home || key == End {
        ScrollKey(key);
      } else if key == Escape || key == Ch('q') {
        view := Summary;
      } else if key == Ch('c') {
        action := Some(Comment(file.path, AnchorForRow(MetaOf(file), view.v.cursor)));
      } else if key == Ch('C') {
        action := Some(FileComment(file.path));
      } else if key == Ch('v') {
        action := Some(ViewComments);
      } else if key == Ch('e') {
        action := Some(Edit(file.path));
      } else if key == Ch(']') || key == Ch('[') {
        HunkKey(key == Ch(']'));
      } else if key == Ch('/') {
        search, searching := "", true;
      } else if key == Ch('n') || key == Ch('N') {
        Jump(if key == Ch('n') then Forward else Backward);
      }
    }

    method OpenGuideFile(digit: nat)
      requires Valid() && view == Summary && 1 <= digit
      modifies this`view
      ensures Valid()
    {
      if digit > |env.verify| || env.verify[digit - 1] == None {
        return;
      }
      for i := 0 to |env.files|
        invariant view == Summary
      {
        if env.files[i].path == env.verify[digit - 1].value {
          view := InFile(FileView(i, 0, 0));
          return;
        }
      }
    }

    /** A key at the summary. Only here can an approval or a rejection begin. */
    method SummaryKey(key: Key) returns (action: Option<Action>)
      requires Valid() && view == Summary
      modifies this
      ensures Valid() && (action != None ==> OnFile(action.value))
      ensures (action == Some(Approve) <==> key == Ch('a')) && (action == Some(Reject) <==> key == Ch('r'))
    {
      action := None;
      if key == Escape || key == Ch('q') {
        return;
      }
      if key.Ch? && '1' <= key.c <= '9' {
        OpenGuideFile(key.c as int - '0' as int);
      } else if key == Enter {
        if |env.files| > 0 {
          view := InFile(FileView(selected, 0, 0));
        }
      } else if key == Down || key == Ch('j') {
        selected := Min(selected + 1, |env.files| - 1);
      } else if key == Up || key == Ch('k') {
        selected := Max(selected - 1, 0);
      } else if key == Ch('v') {
        action := Some(ViewComments);
      } else if key == Ch('a') {
        action := Some(Approve);
      } else if key == Ch('r') {
        action := Some(Reject);
      } else if |env.files| > 0 && key == Ch('c') {
        action := Some(Comment(env.files[selected].path, None));
      } else if |env.files| > 0 && key == Ch(' ') {
        action := Some(ToggleReviewed(env.files[selected].path));
      } else if |env.files| > 0 && key == Ch('e') {
        action := Some(Edit(env.files[selected].path));
      }
    }

    method HandleInput(key: Key) returns (action: Option<Action>)
      requires Valid()
      modifies this
      ensures Valid() && (action != None ==> OnFile(action.value))
      ensures action == Some(Approve) || action == Some(Reject) ==> old(view) == Summary
    {
      if view == Summary {
        action := SummaryKey(key);
      } else if searching {
        SearchKey(key);
        action := None;
      } else {
        action := FileKey(key);
      }
    }

    /** Rendering clamps the viewport to the file; it never moves a valid cursor. */
    method ClampForRender()
      requires Valid() && view.InFile?
      modifies this`view
      ensures Valid() && view.InFile? && view.v.cursor == old(view.v.cursor) && view.v.index == old(view.v.index)
      ensures 0 <= view.v.scroll <= Max(0, |env.files[view.v.index].lines| - env.viewport)
      ensures Visible(old(view.v), env.viewport) && old(view.v.scroll) >= 0 ==> Visible(view.v, env.viewport)
    {
      var total := |env.files[view.v.index].lines|;
      var scroll := Min(Max(0, view.v.scroll), Max(0, total - env.viewport));
      view := InFile(view.v.(scroll := scroll, cursor := Min(Max(0, view.v.cursor), Max(0, total - 1))));
    }
  }
}
