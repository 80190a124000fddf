/** The undo history of a document: two stacks of events, one for undoing and one for
    redoing, between which edits, undos and redos move changes. */
module History {
  import opened Wrappers
  import opened Text
  import opened Changes
  import opened Selections

  /** A remembered selection, or the changes that take an edit back (applied from the
      last to the first) with the generation number the document had before it. */
  datatype Event =
    | Sel(sel: Selection)
    | Edit(changes: seq<Change>, generation: nat)

  /** A document with its history.  An absent origin is "", an unlimited undo depth
      is None, and curOp is None when no editor is attached to the document (its
      operation number then equals no other, not even itself). */
  datatype State = State(
    text: Text, sel: Selection,
    done: seq<Event>, undone: seq<Event>, undoDepth: Option<nat>,
    curOp: Option<nat>, lastOp: Option<nat>, lastOrigin: string, lastSelOrigin: string,
    generation: nat, maxGeneration: nat, cleanGeneration: nat)

  /** The cursor a document begins with. */
  const TOP := Selection([Range(Pos(0, 0), Pos(0, 0))], 0)

  function Init(text: Text, withEditor: bool): State {
    State(text, TOP, [], [], None, if withEditor then Some(0) else None, None, "", "", 1, 1, 1)
  }

  function Top(stack: seq<Event>): Event
    requires |stack| > 0
  {
    stack[|stack| - 1]
  }

  function Pop(stack: seq<Event>): seq<Event>
    requires |stack| > 0
  {
    stack[..|stack| - 1]
  }

  // ----- recording edits

  function PushSel(stack: seq<Event>, sel: Selection): seq<Event> {
    if |stack| > 0 && Top(stack) == Sel(sel) then stack else stack + [Sel(sel)]
  }

  function ClearSelectionEvents(stack: seq<Event>): seq<Event> {
    if |stack| > 0 && Top(stack).Sel? then ClearSelectionEvents(Pop(stack)) else stack
  }

  /** The stack with the selections above the last edit gone as far as the caller may
      remove them, and whether an edit is on top of it then. */
  function LastChangeEvent(done: seq<Event>, force: bool): (seq<Event>, bool) {
    if force then
      var d := ClearSelectionEvents(done);
      (d, |d| > 0)
    else if |done| > 0 && Top(done).Edit? then (done, true)
    else if |done| > 1 && Top(Pop(done)).Edit? then (Pop(done), true)
    else (done, false)
  }

  predicate SameOp(s: State) {
    s.curOp.Some? && s.lastOp == s.curOp
  }

  /** May the edit join the previous one?  `recent` stands for the clock's verdict. */
  predicate MergeWanted(s: State, origin: string, recent: bool) {
    || SameOp(s)
    || (&& s.lastOrigin == origin && origin != ""
        && (origin[0] == '*' || (origin[0] == '+' && s.curOp.Some? && recent)))
  }

  function MergeChange(t: Text, changes: seq<Change>, c: Change): seq<Change>
    requires Valid(t, c) && |changes| > 0
  {
    var last := changes[|changes| - 1];
    if c.from == c.to == last.to then changes[..|changes| - 1] + [last.(to := ChangeEnd(c))]
    else changes + [HistoryChange(t, c)]
  }

  function Trim(done: seq<Event>, depth: Option<nat>): seq<Event> {
    if depth == None || |done| <= depth.value then done
    else if |done| > 1 && done[1].Edit? then Trim(done[2..], depth)
    else Trim(done[1..], depth)
  }

  function Merging(s: State, origin: string, recent: bool): (seq<Event>, bool) {
    if MergeWanted(s, origin, recent) then LastChangeEvent(s.done, SameOp(s)) else (s.done, false)
  }

  predicate Mergeable(s: State, origin: string, recent: bool) {
    var (done, merge) := Merging(s, origin, recent);
    merge ==> |done| > 0 && Top(done).Edit? && |Top(done).changes| > 0
  }

  function Recorded(s: State, c: Change, origin: string, recent: bool): seq<Event>
    requires Valid(s.text, c) && Mergeable(s, origin, recent)
  {
    var (done, merge) := Merging(s, origin, recent);
    if merge then
      Pop(done) + [Top(done).(changes := MergeChange(s.text, Top(done).changes, c))]
    else
      var before := if |done| > 0 && Top(done).Sel? then done else PushSel(done, s.sel);
      Trim(before + [Edit([HistoryChange(s.text, c)], s.generation)], s.undoDepth)
  }

  function MakeChange(s: State, c: Change, selAfter: Selection, origin: string, recent: bool): State
    requires Valid(s.text, c) && Mergeable(s, origin, recent)
  {
    if c.text == EMPTY && c.from == c.to then s
    else s.(
      text := Apply(s.text, c), sel := selAfter, undone := [],
      done := Recorded(s, c, origin, recent) + [Sel(selAfter)],
      generation := s.maxGeneration + 1, maxGeneration := s.maxGeneration + 1,
      lastOp := s.curOp, lastOrigin := origin, lastSelOrigin := origin)
  }

  // ----- recording selections

  /** `similar` stands for the comparison of times and shapes of the selections.  In an
      empty stack the write over the top goes to the place in front of the first, which
      is no event. */
  function SetSelection(s: State, sel: Selection, origin: string, similar: bool, clearRedo: bool): State {
    var overwrite := SameOp(s) || (origin != "" && s.lastSelOrigin == origin && similar);
    s.(
      sel := sel,
      done := if !overwrite then PushSel(s.done, sel)
              else if |s.done| > 0 then Pop(s.done) + [Sel(sel)] else s.done,
      undone := if clearRedo then ClearSelectionEvents(s.undone) else s.undone,
      lastOp := s.curOp, lastSelOrigin := origin)
  }

  function SetSelectionReplaceHistory(s: State, sel: Selection): State {
    if |s.done| > 0 && Top(s.done).Sel? then s.(sel := sel, done := Pop(s.done) + [Sel(sel)])
    else SetSelection(s, sel, "", false, false)
  }

  // ----- undo and redo

  /** The changes can be applied one after the other, from the last to the first. */
  predicate Revertible(t: Text, changes: seq<Change>)
    decreases |changes|
  {
    |changes| > 0 ==>
      var last := changes[|changes| - 1];
      Valid(t, last) && Revertible(Apply(t, last), changes[..|changes| - 1])
  }

  function Revert(t: Text, changes: seq<Change>): Text
    requires Revertible(t, changes)
    decreases |changes|
  {
    if |changes| == 0 then t
    else Revert(Apply(t, changes[|changes| - 1]), changes[..|changes| - 1])
  }

  /** The changes kept while reverting: they are reverted to do the edit again. */
  function AntiChanges(t: Text, changes: seq<Change>): seq<Change>
    requires Revertible(t, changes)
    decreases |changes|
  {
    if |changes| == 0 then []
    else
      var last := changes[|changes| - 1];
      [HistoryChange(t, last)] + AntiChanges(Apply(t, last), changes[..|changes| - 1])
  }

  /** With selections only, an event counts when it is a selection other than the
      current one; otherwise when it is an edit. */
  predicate Counts(e: Event, sel: Selection, selOnly: bool) {
    if selOnly then e.Sel? && e.sel != sel else e.Edit?
  }

  predicate Usable(source: seq<Event>, sel: Selection, selOnly: bool) {
    exists i :: 0 <= i < |source| && Counts(source[i], sel, selOnly)
  }

  datatype Popped = Popped(source: seq<Event>, dest: seq<Event>, selAfter: Selection, event: Event)

  /** Move selections from source to dest until the event that counts, or an edit. */
  function PopTo(source: seq<Event>, dest: seq<Event>, selAfter: Selection, sel: Selection, selOnly: bool)
    : (p: Popped)
    requires Usable(source, sel, selOnly)
    ensures p.event.Sel? ==> selOnly && p.event.sel != sel && |p.dest| > 0 && Top(p.dest) == p.event
  {
    var e, rest := Top(source), Pop(source);
    if e.Edit? then Popped(rest, dest, selAfter, e)
    else if selOnly && e.sel != sel then Popped(rest, PushSel(dest, e.sel), selAfter, e)
    else
      assert Usable(rest, sel, selOnly) by {
        var i :| 0 <= i < |source| && Counts(source[i], sel, selOnly);
        assert Counts(rest[i], sel, selOnly);
      }
      PopTo(rest, PushSel(dest, e.sel), e.sel, sel, selOnly)
  }

  function Source(s: State, undo: bool): seq<Event> {
    if undo then s.done else s.undone
  }

  function Dest(s: State, undo: bool): seq<Event> {
    if undo then s.undone else s.done
  }

  function WithStacks(s: State, undo: bool, source: seq<Event>, dest: seq<Event>): State {
    if undo then s.(done := source, undone := dest) else s.(done := dest, undone := source)
  }

  /** What an undo or redo relies on: the event it reaches can be reverted, and a
      selection lies directly below it. */
  predicate Revertable(s: State, undo: bool, selOnly: bool) {
    Usable(Source(s, undo), s.sel, selOnly) ==>
      var p := PopTo(Source(s, undo), Dest(s, undo), s.sel, s.sel, selOnly);
      p.event.Edit? ==>
        Revertible(s.text, p.event.changes) && |p.source| > 0 && Top(p.source).Sel?
  }

  function MakeChangeFromHistory(s: State, undo: bool, selOnly: bool): State
    requires Revertable(s, undo, selOnly)
  {
    if !Usable(Source(s, undo), s.sel, selOnly) then s
    else
      var p := PopTo(Source(s, undo), Dest(s, undo), s.sel, s.sel, selOnly);
      var q := s.(lastOrigin := "", lastSelOrigin := "");
      match p.event
      case Sel(sel) => SetSelection(WithStacks(q, undo, p.source, p.dest), sel, "", false, false)
      case Edit(changes, generation) =>
        var event := Edit(AntiChanges(s.text, changes), s.generation);
        WithStacks(q, undo, p.source, PushSel(p.dest, p.selAfter) + [event]).(
          text := Revert(s.text, changes), sel := Top(p.source).sel,
          generation := if generation != 0 then generation else s.maxGeneration + 1,
          maxGeneration := if generation != 0 then s.maxGeneration else s.maxGeneration + 1)
  }

  // ----- operations and the clean mark

  function BeginOperation(s: State): State {
    if s.curOp.Some? then s.(curOp := Some(s.curOp.value + 1)) else s
  }

  function MarkClean(s: State): State {
    s.(lastOp := None, lastOrigin := "", cleanGeneration := s.generation)
  }

  predicate IsClean(s: State) {
    s.generation == s.cleanGeneration
  }
}
