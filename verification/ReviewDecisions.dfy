/** Comments and decisions of a review: at most one comment per place, and no decision without a
    confirmed prompt. */
module ReviewDecisions {
  import opened DiffRows
  import O = ReviewOverlay
  import opened Wrappers

  // ----- Comments

  /** A comment on a line of one side of a file, or, without an anchor, on the file. */
  datatype Annotation = Annotation(file: string, anchor: Option<Anchor>, body: string)

  predicate At(a: Annotation, file: string, anchor: Option<Anchor>) {
    a.file == file && a.anchor == anchor
  }

  ghost predicate OnePerPlace(annotations: seq<Annotation>) {
    forall i, j :: 0 <= i < j < |annotations| ==> !At(annotations[j], annotations[i].file, annotations[i].anchor)
  }

  /** The index of the first comment at a place, or the length. */
  function FindAnnotation(annotations: seq<Annotation>, file: string, anchor: Option<Anchor>): (r: nat)
    ensures r <= |annotations| && (r < |annotations| ==> At(annotations[r], file, anchor))
    ensures forall i :: 0 <= i < r ==> !At(annotations[i], file, anchor)
  {
    if annotations == [] then 0
    else if At(annotations[0], file, anchor) then 0
    else 1 + FindAnnotation(annotations[1..], file, anchor)
  }

  function BodyAt(annotations: seq<Annotation>, file: string, anchor: Option<Anchor>): Option<string> {
    var i := FindAnnotation(annotations, file, anchor);
    if i == |annotations| then None else Some(annotations[i].body)
  }

  /** What an edited comment does: text replaces or adds, no text removes. */
  function Put(annotations: seq<Annotation>, file: string, anchor: Option<Anchor>, text: Option<string>)
    : seq<Annotation>
  {
    var i := FindAnnotation(annotations, file, anchor);
    match text
    case None => if i == |annotations| then annotations else annotations[..i] + annotations[i + 1..]
    case Some(body) =>
      if i == |annotations| then annotations + [Annotation(file, anchor, body)]
      else annotations[i := annotations[i].(body := body)]
  }

  lemma FindIs(annotations: seq<Annotation>, file: string, anchor: Option<Anchor>, i: nat)
    requires OnePerPlace(annotations) && i < |annotations| && At(annotations[i], file, anchor)
    ensures FindAnnotation(annotations, file, anchor) == i
  {
    forall k | 0 <= k < i ensures !At(annotations[k], file, anchor) {
      assert !At(annotations[i], annotations[k].file, annotations[k].anchor);
    }
  }

  lemma FindNone(annotations: seq<Annotation>, file: string, anchor: Option<Anchor>)
    requires forall i :: 0 <= i < |annotations| ==> !At(annotations[i], file, anchor)
    ensures FindAnnotation(annotations, file, anchor) == |annotations|
  {
  }

  lemma PutKeepsOnePerPlace(annotations: seq<Annotation>, file: string, anchor: Option<Anchor>, text: Option<string>)
    requires OnePerPlace(annotations)
    ensures OnePerPlace(Put(annotations, file, anchor, text))
  {
    var i := FindAnnotation(annotations, file, anchor);
    var after := Put(annotations, file, anchor, text);
    if text == None && i < |annotations| {
      forall a, b | 0 <= a < b < |after| ensures !At(after[b], after[a].file, after[a].anchor) {
        var (x, y) := (if a < i then a else a + 1, if b < i then b else b + 1);
        assert after[a] == annotations[x] && after[b] == annotations[y];
      }
    }
  }

  /** The edited place then holds exactly the text given. */
  lemma PutThenGet(annotations: seq<Annotation>, file: string, anchor: Option<Anchor>, text: Option<string>)
    requires OnePerPlace(annotations)
    ensures BodyAt(Put(annotations, file, anchor, text), file, anchor) == text
  {
    var i := FindAnnotation(annotations, file, anchor);
    var after := Put(annotations, file, anchor, text);
    PutKeepsOnePerPlace(annotations, file, anchor, text);
    if text != None {
      FindIs(after, file, anchor, i);
    } else {
      forall k | 0 <= k < |after| ensures !At(after[k], file, anchor) {
        var x := if k < i then k else k + 1;
        assert after[k] == annotations[x];
        if i < x {
          assert !At(annotations[x], annotations[i].file, annotations[i].anchor);
        }
      }
      FindNone(after, file, anchor);
    }
  }

  /** And every other place holds what it held. */
  lemma PutKeepsOthers(annotations: seq<Annotation>, file: string, anchor: Option<Anchor>, text: Option<string>,
                       other: string, place: Option<Anchor>)
    requires OnePerPlace(annotations) && !(file == other && anchor == place)
    ensures BodyAt(Put(annotations, file, anchor, text), other, place) == BodyAt(annotations, other, place)
  {
    var i, k := FindAnnotation(annotations, file, anchor), FindAnnotation(annotations, other, place);
    var after := Put(annotations, file, anchor, text);
    PutKeepsOnePerPlace(annotations, file, anchor, text);
    if k < |annotations| {
      var x := if text == None && i < k then k - 1 else k;
      assert after[x] == annotations[k];
      FindIs(after, other, place, x);
    } else {
      forall j | 0 <= j < |after| ensures !At(after[j], other, place) {
        if text == None && i < |annotations| {
          assert after[j] == annotations[if j < i then j else j + 1];
        }
      }
      FindNone(after, other, place);
    }
  }

  // ----- The browser as a state machine

  datatype Verdict = Approved | Rejected

  datatype Payload = Payload(verdict: Verdict, annotations: seq<Annotation>, reviewed: set<string>)

  datatype CommentList = CommentList(selected: int, scroll: int)

  /** The comment editor fails to open, or hands back text (`None` when blank). */
  datatype Edited = EditorFailed(message: string) | EditedText(text: Option<string>)

  datatype Browser = Browser(
    annotations: seq<Annotation>, reviewed: set<string>, prompt: Option<Verdict>, list: Option<CommentList>,
    status: Option<string>, decisions: seq<Payload>)

  const REJECT_NEEDS_COMMENT := "reject requires at least one comment"

  const OPENED := Browser([], {}, None, None, None, [])

  predicate Confirms(key: O.Key) {
    key == O.Ch('y') || key == O.Enter
  }

  predicate Cancels(key: O.Key) {
    key == O.Ch('n') || key == O.Escape
  }

  function CommentOn(b: Browser, file: string, anchor: Option<Anchor>, edited: Edited): Browser {
    match edited
    case EditorFailed(message) => b.(status := Some(message))
    case EditedText(text) => b.(annotations := Put(b.annotations, file, anchor, text))
  }

  function Toggled(reviewed: set<string>, file: string): set<string> {
    if file in reviewed then reviewed - {file} else reviewed + {file}
  }

  function HandleAction(b: Browser, action: O.Action, edited: Edited): Browser {
    var c := b.(status := None);
    match action
    case Comment(file, anchor) => CommentOn(c, file, anchor, edited)
    case FileComment(file) => CommentOn(c, file, None, edited)
    case ToggleReviewed(file) => c.(reviewed := Toggled(c.reviewed, file))
    case ViewComments =>
      if c.annotations == [] then c.(status := Some("no comments yet")) else c.(list := Some(CommentList(0, 0)))
    case Edit(_) => if edited.EditorFailed? then c.(status := Some(edited.message)) else c
    case Reject =>
      if c.annotations == [] then c.(status := Some(REJECT_NEEDS_COMMENT)) else c.(prompt := Some(Rejected))
    case Approve => c.(prompt := Some(Approved))
  }

  function PromptKey(b: Browser, key: O.Key): Browser
    requires b.prompt != None
  {
    if Confirms(key) then
      b.(prompt := None, decisions := b.decisions + [Payload(b.prompt.value, b.annotations, b.reviewed)])
    else if Cancels(key) then b.(prompt := None)
    else b
  }

  function FollowSelection(l: CommentList, height: nat): CommentList {
    if l.selected < l.scroll then l.(scroll := l.selected)
    else if l.selected >= l.scroll + height then l.(scroll := l.selected - height + 1)
    else l
  }

  function ListKey(b: Browser, key: O.Key, height: nat): Browser
    requires b.list != None
  {
    var l := b.list.value;
    if key == O.Escape || key == O.Enter || key == O.Ch('q') then b.(list := None)
    else if b.annotations == [] then b
    else if key == O.Down || key == O.Ch('j') then
      b.(list := Some(FollowSelection(l.(selected := O.Min(l.selected + 1, |b.annotations| - 1)), height)))
    else if key == O.Up || key == O.Ch('k') then
      b.(list := Some(FollowSelection(l.(selected := O.Max(l.selected - 1, 0)), height)))
    else b
  }

  /** A key, the action the diff browser would answer it with, and what the editor would say. */
  datatype Input = Input(key: O.Key, action: Option<O.Action>, edited: Edited, height: nat)

  function Step(b: Browser, input: Input): Browser {
    if b.prompt != None then PromptKey(b, input.key)
    else if b.list != None then ListKey(b, input.key, input.height)
    else if input.action != None then HandleAction(b, input.action.value, input.edited)
    else b
  }

  function Run(inputs: seq<Input>): Browser {
    if inputs == [] then OPENED else Step(Run(inputs[..|inputs| - 1]), inputs[|inputs| - 1])
  }

  // ----- Safety of every run

  predicate PayloadOk(p: Payload) {
    p.verdict == Rejected ==> p.annotations != []
  }

  ghost predicate Safe(b: Browser) {
    && OnePerPlace(b.annotations)
    && (b.prompt == Some(Rejected) ==> b.annotations != [])
    && !(b.prompt != None && b.list != None)
    && (b.list != None ==> 0 <= b.list.value.selected < |b.annotations|)
    && forall i :: 0 <= i < |b.decisions| ==> PayloadOk(b.decisions[i]) && OnePerPlace(b.decisions[i].annotations)
  }

  lemma StepIsSafe(b: Browser, input: Input)
    requires Safe(b)
    ensures Safe(Step(b, input))
  {
    if b.prompt == None && b.list == None && input.action != None && input.edited.EditedText? {
      match input.action.value
      case Comment(file, anchor) => PutKeepsOnePerPlace(b.annotations, file, anchor, input.edited.text);
      case FileComment(file) => PutKeepsOnePerPlace(b.annotations, file, None, input.edited.text);
      case _ =>
    }
  }

  /** Whatever the keys: one comment per place at most, in the review and in every decision it
      sends; a rejection always carries a comment; prompt and comment list are never both open. */
  lemma {:induction false} RunIsSafe(inputs: seq<Input>)
    ensures Safe(Run(inputs))
  {
    if inputs != [] {
      RunIsSafe(inputs[..|inputs| - 1]);
      StepIsSafe(Run(inputs[..|inputs| - 1]), inputs[|inputs| - 1]);
    }
  }

  function AsksFor(action: Option<O.Action>): Option<Verdict> {
    if action == Some(O.Approve) then Some(Approved) else if action == Some(O.Reject) then Some(Rejected) else None
  }

  /** An open prompt was asked for, and nothing has answered it since. */
  ghost predicate AskedAt(inputs: seq<Input>, v: Verdict, j: int) {
    && 0 <= j < |inputs| && AsksFor(inputs[j].action) == Some(v)
    && forall k :: j < k < |inputs| ==> !Confirms(inputs[k].key) && !Cancels(inputs[k].key)
  }

  lemma {:induction false} PromptWasAskedFor(inputs: seq<Input>) returns (j: int)
    requires Run(inputs).prompt != None
    ensures AskedAt(inputs, Run(inputs).prompt.value, j)
    ensures Run(inputs).annotations == Run(inputs[..j]).annotations
  {
    var front, last := inputs[..|inputs| - 1], inputs[|inputs| - 1];
    var before := Run(front);
    if before.prompt != None {
      j := PromptWasAskedFor(front);
      assert inputs[..j] == front[..j];
      forall k | j < k < |inputs| ensures !Confirms(inputs[k].key) && !Cancels(inputs[k].key) {
        if k < |front| {
          assert inputs[k] == front[k];
        }
      }
      assert inputs[j] == front[j];
    } else {
      j := |front|;
      PromptNeedsAsking(before, last);
    }
  }

  lemma PromptNeedsAsking(b: Browser, input: Input)
    requires b.prompt == None && Step(b, input).prompt != None
    ensures AsksFor(input.action) == Step(b, input).prompt
    ensures Step(b, input).annotations == b.annotations
  {
  }

  /** A decision leaves exactly when a key confirms an open prompt: one that was asked for by the
      matching action, answered by nothing in between, with the comments unchanged since. */
  lemma DecisionsAreConfirmed(inputs: seq<Input>, last: Input)
    ensures |Run(inputs + [last]).decisions| == |Run(inputs).decisions| + 1 <==>
            Run(inputs).prompt != None && Confirms(last.key)
    ensures |Run(inputs + [last]).decisions| != |Run(inputs).decisions| ==>
              exists v, j :: && AskedAt(inputs, v, j) && Confirms(last.key)
                             && Run(inputs + [last]).decisions ==
                                Run(inputs).decisions + [Payload(v, Run(inputs[..j]).annotations, Run(inputs).reviewed)]
  {
    assert (inputs + [last])[..|inputs|] == inputs;
    if Run(inputs).prompt != None && Confirms(last.key) {
      var j := PromptWasAskedFor(inputs);
    }
  }

  // ----- The browser

  class ReviewBrowser {
    const overlay: O.Overlay
    var annotations: seq<Annotation>
    var reviewed: set<string>
    var activePrompt: Option<Verdict>
    var activeOverlay: Option<CommentList>
    var statusMessage: Option<string>
    /** The decisions handed to `onDecision`. */
    ghost var decisions: seq<Payload>

    ghost function Snapshot(): Browser
      reads this
    {
      Browser(annotations, reviewed, activePrompt, activeOverlay, statusMessage, decisions)
    }

    constructor (overlay: O.Overlay)
      ensures Snapshot() == OPENED && this.overlay == overlay
    {
      this.overlay := overlay;
      annotations, reviewed, activePrompt, activeOverlay, statusMessage, decisions := [], {}, None, None, None, [];
    }

    method Comment(file: string, anchor: Option<Anchor>, edited: Edited)
      modifies this`annotations, this`statusMessage
      ensures Snapshot() == CommentOn(old(Snapshot()), file, anchor, edited)
    {
      if edited.EditorFailed? {
        statusMessage := Some(edited.message);
        return;
      }
      var i := FindAnnotation(annotations, file, anchor);
      if edited.text == None {
        if i < |annotations| {
          annotations := annotations[..i] + annotations[i + 1..];
        }
      } else if i < |annotations| {
        annotations := annotations[i := annotations[i].(body := edited.text.value)];
      } else {
        annotations := annotations + [Annotation(file, anchor, edited.text.value)];
      }
    }

    method Act(action: O.Action, edited: Edited)
      modifies this
      ensures Snapshot() == HandleAction(old(Snapshot()), action, edited)
    {
      statusMessage := None;
      match action
      case Comment(file, anchor) => Comment(file, anchor, edited);
      case FileComment(file) => Comment(file, None, edited);
      case ToggleReviewed(file) => reviewed := if file in reviewed then reviewed - {file} else reviewed + {file};
      case ViewComments =>
        if annotations == [] {
          statusMessage := Some("no comments yet");
        } else {
          activeOverlay := Some(CommentList(0, 0));
        }
      case Edit(_) =>
        if edited.EditorFailed? {
          statusMessage := Some(edited.message);
        }
      case Reject =>
        if annotations == [] {
          statusMessage := Some(REJECT_NEEDS_COMMENT);
        } else {
          activePrompt := Some(Rejected);
        }
      case Approve => activePrompt := Some(Approved);
    }

    method AnswerPrompt(key: O.Key) returns (decision: Option<Payload>)
      requires activePrompt != None
      modifies this`activePrompt, this`decisions
      ensures Snapshot() == PromptKey(old(Snapshot()), key)
      ensures decisions == old(decisions) + if decision == None then [] else [decision.value]
    {
      decision := None;
      if Confirms(key) {
        decision := Some(Payload(activePrompt.value, annotations, reviewed));
        activePrompt, decisions := None, decisions + [decision.value];
      } else if Cancels(key) {
        activePrompt := None;
      }
    }

    method BrowseList(key: O.Key, height: nat)
      requires activeOverlay != None
      modifies this`activeOverlay
      ensures Snapshot() == ListKey(old(Snapshot()), key, height)
    {
      if key == O.Escape || key == O.Enter || key == O.Ch('q') {
        activeOverlay := None;
      } else if annotations != [] {
        var l := activeOverlay.value;
        if key == O.Down || key == O.Ch('j') {
          activeOverlay := Some(FollowSelection(l.(selected := O.Min(l.selected + 1, |annotations| - 1)), height));
        } else if key == O.Up || key == O.Ch('k') {
          activeOverlay := Some(FollowSelection(l.(selected := O.Max(l.selected - 1, 0)), height));
        }
      }
    }

    /** Keys go to the open prompt, else to the open comment list, else to the diff browser. */
    method HandleInput(key: O.Key, edited: Edited, height: nat) returns (ghost input: Input, decision: Option<Payload>)
      requires overlay.Valid()
      modifies this, overlay
      ensures overlay.Valid()
      ensures input.key == key && Snapshot() == Step(old(Snapshot()), input)
      ensures decisions == old(decisions) + if decision == None then [] else [decision.value]
    {
      input, decision := Input(key, None, edited, height), None;
      if activePrompt != None {
        decision := AnswerPrompt(key);
      } else if activeOverlay != None {
        BrowseList(key, height);
      } else {
        var action := overlay.HandleInput(key);
        input := input.(action := action);
        if action != None {
          Act(action.value, edited);
        }
      }
    }
  }

  // ----- The host's review loop

  /** One turn of `runReviewLoop`: the action, the editor's answer and the host's confirmation. */
  datatype Turn = Turn(action: O.Action, text: Option<string>, confirmed: bool)

  /** A turn that ends the review with a decision. */
  predicate Ends(t: Turn, annotations: seq<Annotation>) {
    t.confirmed && (t.action == O.Approve || (t.action == O.Reject && annotations != []))
  }

  function AfterTurn(annotations: seq<Annotation>, t: Turn): seq<Annotation> {
    match t.action
    case Comment(file, anchor) => if t.text == None then annotations else Put(annotations, file, anchor, t.text)
    case FileComment(file) => if t.text == None then annotations else Put(annotations, file, None, t.text)
    case _ => annotations
  }

  function CommentsAfter(turns: seq<Turn>): seq<Annotation> {
    if turns == [] then [] else AfterTurn(CommentsAfter(turns[..|turns| - 1]), turns[|turns| - 1])
  }

  /** The files marked reviewed. */
  function ReviewedAfter(turns: seq<Turn>): set<string> {
    if turns == [] then {}
    else
      var (before, last) := (ReviewedAfter(turns[..|turns| - 1]), turns[|turns| - 1].action);
      if last.ToggleReviewed? then Toggled(before, last.file) else before
  }

  function Toggles(turns: seq<Turn>, file: string): nat {
    if turns == [] then 0
    else Toggles(turns[..|turns| - 1], file) + if turns[|turns| - 1].action == O.ToggleReviewed(file) then 1 else 0
  }

  /** A file is marked exactly when it was toggled an odd number of times. */
  lemma {:induction false} ReviewedIsOdd(turns: seq<Turn>, file: string)
    ensures file in ReviewedAfter(turns) <==> Toggles(turns, file) % 2 == 1
  {
    if turns != [] {
      ReviewedIsOdd(turns[..|turns| - 1], file);
    }
  }

  /** No turn of these ended the review. */
  predicate NoneEnds(turns: seq<Turn>) {
    turns != [] ==>
      NoneEnds(turns[..|turns| - 1]) && !Ends(turns[|turns| - 1], CommentsAfter(turns[..|turns| - 1]))
  }

  lemma NextTurn(before: seq<Turn>, t: Turn, after: seq<Turn>)
    requires after == before + [t] && NoneEnds(before) && !Ends(t, CommentsAfter(before))
    ensures CommentsAfter(after) == AfterTurn(CommentsAfter(before), t) && NoneEnds(after)
    ensures ReviewedAfter(after) ==
            if t.action.ToggleReviewed? then Toggled(ReviewedAfter(before), t.action.file) else ReviewedAfter(before)
  {
    assert after[..|before|] == before;
  }

  /** What the loop has seen: turns none of which ended it, and what they made. */
  ghost predicate Gathered(turns: seq<Turn>, annotations: seq<Annotation>, reviewed: set<string>) {
    && NoneEnds(turns) && annotations == CommentsAfter(turns) && reviewed == ReviewedAfter(turns)
    && OnePerPlace(annotations)
  }

  method Decide(t: Turn, annotations: seq<Annotation>, reviewed: set<string>) returns (result: Option<Payload>)
    ensures result == None <==> !Ends(t, annotations)
    ensures result != None ==>
              result.value == Payload(if t.action == O.Approve then Approved else Rejected, annotations, reviewed)
              && PayloadOk(result.value)
  {
    if t.action == O.Approve && t.confirmed {
      return Some(Payload(Approved, annotations, reviewed));
    }
    if t.action == O.Reject && annotations != [] && t.confirmed {
      return Some(Payload(Rejected, annotations, reviewed));
    }
    result := None;
  }

  /** The loop returns at the first turn whose confirmed decision is allowed, with the comments
      made and the files marked up to it, one comment per place. */
  method RunReviewLoop(turns: seq<Turn>) returns (result: Option<Payload>, taken: nat)
    ensures taken <= |turns| && NoneEnds(turns[..taken]) && (result == None ==> taken == |turns|)
    ensures result != None ==>
              && taken < |turns| && Ends(turns[taken], CommentsAfter(turns[..taken]))
              && (result.value.verdict == Approved <==> turns[taken].action == O.Approve)
              && Gathered(turns[..taken], result.value.annotations, result.value.reviewed) && PayloadOk(result.value)
  {
    var annotations: seq<Annotation>, reviewed: set<string> := [], {};
    taken := 0;
    while taken < |turns|
      invariant taken <= |turns| && Gathered(turns[..taken], annotations, reviewed)
    {
      result := Decide(turns[taken], annotations, reviewed);
      if result != None {
        return;
      }
      assert turns[..taken + 1] == turns[..taken] + [turns[taken]];
      annotations, reviewed := TakeTurn(turns[..taken], turns[..taken + 1], annotations, reviewed, turns[taken]);
      taken := taken + 1;
    }
    result := None;
  }

  method TakeTurn(ghost before: seq<Turn>, ghost after: seq<Turn>, annotations: seq<Annotation>, reviewed: set<string>,
                  t: Turn)
    returns (comments: seq<Annotation>, files: set<string>)
    requires Gathered(before, annotations, reviewed) && !Ends(t, annotations) && after == before + [t]
    ensures Gathered(after, comments, files)
  {
    NextTurn(before, t, after);
    comments, files := annotations, reviewed;
    if t.action.ToggleReviewed? {
      files := Toggled(reviewed, t.action.file);
    } else if t.action.Comment? || t.action.FileComment? {
      var anchor := if t.action.Comment? then t.action.anchor else None;
      if t.text != None {
        PutKeepsOnePerPlace(annotations, t.action.file, anchor, t.text);
        comments := Put(annotations, t.action.file, anchor, t.text);
      }
    }
  }
}
