/** Whole runs of edits, selections, undos and redos, in any order. */
module HistoryRuns {
  import opened Wrappers
  import opened Text
  import opened Changes
  import opened Selections
  import opened History
  import opened HistoryProofs

  /** What can happen to a document.  Booleans stand for the clock's verdicts.  Any of
      them may share an operation, except for an undo or redo that spoils the history;
      none does in an operation of its own. */
  datatype Step =
    | DoEdit(c: Change, selAfter: Selection, origin: string, recent: bool)
    | DoSelect(sel: Selection, origin: string, similar: bool, clearRedo: bool)
    | DoSelectReplacing(sel: Selection)
    | DoUndo(selOnly: bool)
    | DoRedo(selOnly: bool)
    | DoMarkClean
    | DoBeginOperation
    | DoSetUndoDepth(depth: Option<nat>)

  predicate Possible(s: State, step: Step) {
    match step
    case DoEdit(c, selAfter, _, _) => Editable(s, c, selAfter)
    case DoSelect(sel, _, _, _) => SelectionIn(s.text, sel)
    case DoSelectReplacing(sel) => SelectionIn(s.text, sel)
    case DoUndo(selOnly) => !Spoils(s, true, selOnly)
    case DoRedo(selOnly) => !Spoils(s, false, selOnly)
    case _ => true
  }

  function Next(s: State, step: Step): (q: State)
    requires Inv(s) && Possible(s, step)
    ensures Inv(q)
  {
    match step
    case DoEdit(c, selAfter, origin, recent) => Edited(s, c, selAfter, origin, recent)
    case DoSelect(sel, origin, similar, clearRedo) => Selected(s, sel, origin, similar, clearRedo)
    case DoSelectReplacing(sel) => Reselected(s, sel)
    case DoUndo(selOnly) => Stepping(s, true, selOnly)
    case DoRedo(selOnly) => Stepping(s, false, selOnly)
    case _ => Marked(s, step)
  }

  function Edited(s: State, c: Change, selAfter: Selection, origin: string, recent: bool): (q: State)
    requires Inv(s) && Editable(s, c, selAfter)
    ensures Inv(q)
  {
    MakeChangeKeeps(s, c, selAfter, origin, recent);
    MakeChange(s, c, selAfter, origin, recent)
  }

  function Selected(s: State, sel: Selection, origin: string, similar: bool, clearRedo: bool): (q: State)
    requires Inv(s) && SelectionIn(s.text, sel)
    ensures Inv(q)
  {
    SetSelectionKeeps(s, sel, origin, similar, clearRedo);
    SetSelection(s, sel, origin, similar, clearRedo)
  }

  function Reselected(s: State, sel: Selection): (q: State)
    requires Inv(s) && SelectionIn(s.text, sel)
    ensures Inv(q)
  {
    SetSelectionReplaceHistoryKeeps(s, sel);
    SetSelectionReplaceHistory(s, sel)
  }

  function Stepping(s: State, undo: bool, selOnly: bool): (q: State)
    requires Inv(s) && !Spoils(s, undo, selOnly)
    ensures Inv(q)
  {
    FromHistoryKeeps(s, undo, selOnly);
    MakeChangeFromHistory(s, undo, selOnly)
  }

  function Marked(s: State, step: Step): (q: State)
    requires Inv(s)
    ensures Inv(q)
  {
    match step
    case DoMarkClean => MarkClean(s)
    case DoBeginOperation => BeginOperation(s)
    case DoSetUndoDepth(depth) => s.(undoDepth := depth)
    case _ => s
  }

  /** An undo or redo in an operation of its own. */
  function HistoryStep(s: State, undo: bool, selOnly: bool): (q: State)
    requires Inv(s)
    ensures Inv(q)
  {
    FromHistoryKeeps(BeginOperation(s), undo, selOnly);
    MakeChangeFromHistory(BeginOperation(s), undo, selOnly)
  }

  predicate Runnable(s: State, steps: seq<Step>)
    requires Inv(s)
    decreases |steps|
  {
    |steps| > 0 ==> Possible(s, steps[0]) && Runnable(Next(s, steps[0]), steps[1..])
  }

  /** The state after all steps.  That it is good is part of what is proved: over every
      run both stacks stay good for the current text. */
  function Run(s: State, steps: seq<Step>): (q: State)
    requires Inv(s) && Runnable(s, steps)
    ensures Inv(q)
    decreases |steps|
  {
    if |steps| == 0 then s else Run(Next(s, steps[0]), steps[1..])
  }

  // ----- undoing and redoing

  /** k undos, or k redos. */
  function Repeat(s: State, undo: bool, k: nat): (q: State)
    requires Inv(s)
    ensures Inv(q)
    decreases k
  {
    if k == 0 then s else Repeat(HistoryStep(s, undo, false), undo, k - 1)
  }

  lemma StepMoves(s: State, undo: bool, selOnly: bool)
    requires Inv(s)
    ensures var q := HistoryStep(s, undo, selOnly);
            && q.maxGeneration == s.maxGeneration
            && (Stepped(s, q, undo) || SameVersions(s, q))
            && (!selOnly ==> if From(s, undo) == [] then q == BeginOperation(s) else Stepped(s, q, undo))
  {
    hide MakeChangeFromHistory, GoodStack, Versions, PopTo, Usable, FitsWithout, Revertible, Revert;
    var b := BeginOperation(s);
    FromHistoryKeeps(b, undo, selOnly);
    assert SameVersions(s, b) && From(b, undo) == From(s, undo) && From(b, !undo) == From(s, !undo);
  }

  /** The same text and the same versions on both sides, though other selections may have
      been set since. */
  predicate Alike(s: State, t: State)
    requires Inv(s) && Inv(t)
  {
    SameVersions(s, t) && Lows(s, true) == Lows(t, true) && Lows(s, false) == Lows(t, false)
  }

  lemma AlikeStep(s: State, t: State, undo: bool)
    requires Inv(s) && Inv(t) && Alike(s, t)
    ensures var q, r := HistoryStep(s, undo, false), HistoryStep(t, undo, false);
            Alike(q, r) && (From(s, undo) != [] ==> q.sel == r.sel == From(s, undo)[0].sel)
  {
    hide HistoryStep, Inv, Past, Future, Lowest;
    StepMoves(s, undo, false);
    StepMoves(t, undo, false);
    assert From(s, undo) == From(t, undo) && From(s, !undo) == From(t, !undo);
    assert Lows(s, undo) == Lows(t, undo) && Lows(s, !undo) == Lows(t, !undo);
  }

  /** k undos reach exactly the k-th version of the past, with its selection; k redos
      after them bring back the text, its generation, and everything there was to undo and
      to redo.  The selection is then the first one the version had. */
  lemma {:induction false} UndoThenRedo(s: State, k: nat)
    requires Inv(s) && k <= |Past(s)|
    ensures Now(Repeat(s, true, k)) == ([Now(s)] + Past(s))[k]
    ensures var back := Repeat(Repeat(s, true, k), false, k);
            Alike(s, back) && back.sel == if k == 0 then s.sel else Lows(s, true)[0]
    decreases k
  {
    hide HistoryStep, Inv, Past, Future, Lowest;
    if k > 0 {
      var q := HistoryStep(s, true, false);
      StepMoves(s, true, false);
      UndoThenRedo(q, k - 1);
      var back := Repeat(Repeat(s, true, k), false, k - 1);
      RepeatAtEnd(Repeat(s, true, k), false, k);
      AlikeStep(q, back, false);
      ThereAndBack(s, true);
    }
  }

  /** A step and the step back. */
  lemma ThereAndBack(s: State, undo: bool)
    requires Inv(s) && From(s, undo) != []
    ensures var q := HistoryStep(s, undo, false);
            var back := HistoryStep(q, !undo, false);
            && Now(q) == From(s, undo)[0] && From(q, !undo) == [Now(back)] + From(s, !undo)
            && Alike(s, back) && back.sel == Lows(s, undo)[0]
  {
    hide HistoryStep, Inv, Past, Future, Lowest;
    var q := HistoryStep(s, undo, false);
    StepMoves(s, undo, false);
    StepMoves(q, !undo, false);
    assert From(q, !undo)[1..] == From(s, !undo);
    assert [Now(q).(sel := q.sel)] + From(q, undo) == From(s, undo);
    assert [Lows(s, undo)[0]] + Lows(q, undo) == Lows(s, undo);
    assert Lows(q, !undo)[1..] == Lows(s, !undo);
  }

  /** Undoing an edit brings back the version the edit was made in, with the selection it
      had then, or, if the edit joined the latest event, the version that one was made in;
      redoing it brings back the text and the selection right after the edit. */
  lemma EditUndoneAndRedone(s: State, c: Change, selAfter: Selection, origin: string, recent: bool)
    requires Inv(s) && Editable(s, c, selAfter) && !(c.text == EMPTY && c.from == c.to)
    requires s.undoDepth == None || Past(Edited(s, c, selAfter, origin, recent)) != []
    ensures var q := Edited(s, c, selAfter, origin, recent);
            var undone := HistoryStep(q, true, false);
            var redone := HistoryStep(undone, false, false);
            && q.sel == selAfter
            && [Now(undone)] <= (if Joins(s, origin, recent) then Past(s) else [Now(s)] + Past(s))
            && Now(redone) == Now(q) && Alike(q, redone)
  {
    hide HistoryStep, Inv, Past, Future, Lowest, MakeChange, Joins, Editable, Valid, RecordsEdit, Alike;
    MakeChangeKeeps(s, c, selAfter, origin, recent);
    var q := Edited(s, c, selAfter, origin, recent);
    NearestVersion(s, q, origin, recent);
    ThereAndBack(q, true);
    SameNow(q, HistoryStep(HistoryStep(q, true, false), false, false));
  }

  lemma NearestVersion(s: State, q: State, origin: string, recent: bool)
    requires Inv(s) && Inv(q) && RecordsEdit(s, q, origin, recent) && (s.undoDepth == None || Past(q) != [])
    ensures Past(q) != [] && [Past(q)[0]] <= if Joins(s, origin, recent) then Past(s) else [Now(s)] + Past(s)
  {
    hide Inv, Past, Future, Joins;
    HasPast(s, origin, recent);
  }

  lemma SameNow(s: State, t: State)
    requires Inv(s) && Inv(t) && Alike(s, t) && t.sel == s.sel
    ensures Now(t) == Now(s)
  {
  }

  // ----- which edits are undone together

  /** After an edit that is still to be undone, the next one joins it in the same operation;
      in a later one exactly if it comes with the same origin, and this begins with '*', or
      with '+' and the edits are close together in an editor. */
  lemma NextEditJoins(s: State, c: Change, selAfter: Selection, origin: string, recent: bool, next: string, soon: bool)
    requires Inv(s) && Editable(s, c, selAfter) && !(c.text == EMPTY && c.from == c.to)
    requires s.undoDepth == None || Past(Edited(s, c, selAfter, origin, recent)) != []
    ensures var q := Edited(s, c, selAfter, origin, recent);
            var again := |next| > 0 && next == origin && (next[0] == '*' || (next[0] == '+' && q.curOp.Some? && soon));
            && (Joins(BeginOperation(q), next, soon) <==> again)
            && (Joins(q, next, soon) <==> q.curOp.Some? || again)
  {
    hide GoodStack, Versions, Lowest, Valid, Apply, SelectionIn, Recorded, Joins;
    MergingKeeps(s, origin, recent);
    MakeChangeKeeps(s, c, selAfter, origin, recent);
    var q := Edited(s, c, selAfter, origin, recent);
    NearestVersion(s, q, origin, recent);
    EditIsOnTop(s, c, selAfter, origin, recent);
    JoinsNearEdit(q, next, soon);
    JoinsNearEdit(BeginOperation(q), next, soon);
  }

  lemma JoinsNearEdit(s: State, origin: string, recent: bool)
    requires EditNearTop(s.done)
    ensures Joins(s, origin, recent) <==>
      || SameOp(s)
      || (&& |origin| > 0 && s.lastOrigin == origin
          && (origin[0] == '*' || (origin[0] == '+' && s.curOp.Some? && recent)))
  {
    assert HasEdit(s.done) by {
      assert s.done[|s.done| - 1].Edit? || s.done[|s.done| - 2].Edit?;
    }
  }

  lemma EditIsOnTop(s: State, c: Change, selAfter: Selection, origin: string, recent: bool)
    requires Inv(s) && Editable(s, c, selAfter) && !(c.text == EMPTY && c.from == c.to)
    requires Past(Edited(s, c, selAfter, origin, recent)) != []
    ensures EditNearTop(Edited(s, c, selAfter, origin, recent).done)
  {
    hide GoodStack, Valid, Apply, SelectionIn, Recorded;
    MergingKeeps(s, origin, recent);
    RecordedKeeps(s, c, origin, recent);
    var r := Recorded(s, c, origin, recent);
    assert Edited(s, c, selAfter, origin, recent).done == r + [Sel(selAfter)];
    assert |r| == 0 ==> r + [Sel(selAfter)] == [Sel(selAfter)];
    OnlySelection(selAfter, Apply(s.text, c));
  }

  lemma OnlySelection(sel: Selection, t: Text)
    ensures GoodStack([Sel(sel)], t) ==> Versions([Sel(sel)], t) == []
  {
  }

  lemma NearTop(stack: seq<Event>, sel: Selection)
    requires |stack| > 0 && Top(stack).Sel?
    ensures EditNearTop(Pop(stack) + [Sel(sel)]) <==> EditNearTop(stack)
    ensures Top(stack).sel != sel ==> !EditNearTop(PushSel(stack, sel))
  {
  }

  lemma NotSameOp(s: State, origin: string, recent: bool)
    requires !SameOp(s)
    ensures Joins(s, origin, recent) <==>
      && EditNearTop(s.done) && |origin| > 0 && s.lastOrigin == origin
      && (origin[0] == '*' || (origin[0] == '+' && s.curOp.Some? && recent))
  {
  }

  /** Another selection in between, in an operation of its own, separates edits; one that
      is set with the origin of the last one, and is similar, does not. */
  lemma SelectionSeparates(s: State, sel: Selection, selOrigin: string, similar: bool, clearRedo: bool,
    origin: string, recent: bool)
    requires Inv(s) && SelectionIn(s.text, sel) && |s.done| > 0 && Top(s.done).Sel? && sel != s.sel
    ensures var b := BeginOperation(s);
            var q := Selected(b, sel, selOrigin, similar, clearRedo);
            Joins(BeginOperation(q), origin, recent) <==>
              selOrigin != "" && s.lastSelOrigin == selOrigin && similar && Joins(b, origin, recent)
  {
    hide GoodStack, Versions, SelectionIn, ClearSelectionEvents, EditNearTop, HasEdit;
    var b := BeginOperation(s);
    var q := Selected(b, sel, selOrigin, similar, clearRedo);
    NearTop(s.done, sel);
    NotSameOp(b, origin, recent);
    NotSameOp(BeginOperation(q), origin, recent);
  }

  /** The first selection after an edit takes the place of the one the edit left in the same
      operation, or with the edit's origin if it is similar. */
  lemma SelectionAfterEdit(s: State, c: Change, selAfter: Selection, origin: string, recent: bool, sel: Selection,
    selOrigin: string, similar: bool)
    requires Inv(s) && Editable(s, c, selAfter) && !(c.text == EMPTY && c.from == c.to)
    ensures var q := Edited(s, c, selAfter, origin, recent);
      var r, late := SetSelection(q, sel, selOrigin, similar, true),
                     SetSelection(BeginOperation(q), sel, selOrigin, similar, true);
      var again := selOrigin != "" && selOrigin == origin && similar;
      && |q.done| > 0 && Top(q.done) == Sel(selAfter)
      && (forall i: nat :: StopsAt(r.done, sel, i) <==>
            StopsAt(if q.curOp.Some? || again then Pop(q.done) else q.done, sel, i))
      && (forall i: nat :: StopsAt(late.done, sel, i) <==> StopsAt(if again then Pop(q.done) else q.done, sel, i))
  {
    var q := Edited(s, c, selAfter, origin, recent);
    LeftByEdit(s, c, selAfter, origin, recent);
    hide Inv, StopsAt, SetSelection, Edited;
    NewOperation(q);
    SelectionIsRecorded(q, sel, selOrigin, similar, true);
    SelectionIsRecorded(BeginOperation(q), sel, selOrigin, similar, true);
  }

  lemma LeftByEdit(s: State, c: Change, selAfter: Selection, origin: string, recent: bool)
    requires Inv(s) && Editable(s, c, selAfter) && !(c.text == EMPTY && c.from == c.to)
    ensures var q := Edited(s, c, selAfter, origin, recent);
      |q.done| > 0 && Top(q.done) == Sel(selAfter) && q.lastOp == q.curOp && q.lastSelOrigin == origin
  {
    MergingKeeps(s, origin, recent);
    hide Inv, Valid, Apply, Recorded;
    var r := Recorded(s, c, origin, recent);
    assert Top(r + [Sel(selAfter)]) == Sel(selAfter);
  }

  lemma NotEmptied(s: State, sel: Selection, origin: string, similar: bool)
    requires |s.done| > 0
    ensures |SetSelection(s, sel, origin, similar, true).done| > 0
  {
  }

  /** A selection with the origin of the last one, and similar, takes its place. */
  lemma NextSelectionReplaces(s: State, a: Selection, b: Selection, origin: string, similar: bool)
    requires Inv(s) && SelectionIn(s.text, a) && origin != "" && |s.done| > 0
    ensures var q := Selected(s, a, origin, similar, true);
            var r := SetSelection(BeginOperation(q), b, origin, true, true);
            |q.done| > 0 && forall i: nat :: StopsAt(r.done, b, i) <==> StopsAt(Pop(q.done), b, i)
  {
    hide Inv, StopsAt;
    NewOperation(Selected(s, a, origin, similar, true));
    SelectionIsRecorded(BeginOperation(Selected(s, a, origin, similar, true)), b, origin, true, true);
    NotEmptied(s, a, origin, similar);
  }

  /** After an undo or redo that did something, the next edit, in a later operation, is an
      event of its own; and so it is after the mark for a clean document. */
  lemma HistorySeparates(s: State, undo: bool, selOnly: bool, origin: string, recent: bool)
    requires Inv(s)
    ensures !Joins(MarkClean(s), origin, recent)
    ensures var q := HistoryStep(s, undo, selOnly);
            q == BeginOperation(s) || !Joins(BeginOperation(q), origin, recent)
  {
    FromHistoryKeeps(BeginOperation(s), undo, selOnly);
    hide Inv, PopTo, Usable;
  }

  lemma {:induction false} RepeatAtEnd(s: State, undo: bool, k: nat)
    requires Inv(s) && k > 0
    ensures Repeat(s, undo, k) == HistoryStep(Repeat(s, undo, k - 1), undo, false)
    decreases k
  {
    hide HistoryStep, Inv;
    if k > 1 {
      RepeatAtEnd(HistoryStep(s, undo, false), undo, k - 1);
    }
  }

  lemma {:induction false} PopToAboveSel(source: seq<Event>, dest: seq<Event>, selAfter: Selection, sel: Selection)
    requires Usable(source, sel, true) && PopTo(source, dest, selAfter, sel, true).event.Sel?
    requires Top(source) == Sel(sel) || (|dest| > 0 && Top(dest) == Sel(sel))
    ensures var p := PopTo(source, dest, selAfter, sel, true);
            |p.dest| > 1 && p.dest[|p.dest| - 2] == Sel(sel)
    decreases |source|
  {
    if Top(source) == Sel(sel) {
      assert Usable(Pop(source), sel, true) by {
        var i :| 0 <= i < |source| && Counts(source[i], sel, true);
        assert Counts(Pop(source)[i], sel, true);
      }
      PopToAboveSel(Pop(source), PushSel(dest, sel), sel, sel);
    }
  }

  lemma SelectionThere(s: State, undo: bool, i: nat)
    requires Inv(s) && StopsAt(Source(s, undo), s.sel, i)
    ensures var q := HistoryStep(s, undo, true);
      var other := Source(q, !undo);
      && SameVersions(s, q) && q.sel == Source(s, undo)[i].sel
      && |other| > 1 && other[|other| - 2] == Sel(s.sel) && StopsAt(other, q.sel, |other| - 2)
  {
    hide GoodStack, Versions, PopTo, Usable, Lowest, SameVersions, MakeChangeFromHistory, Inv, Past, StopsAt;
    NewOperation(s);
    SelectionOrStep(BeginOperation(s), undo);
    AboveOne(s, undo, i);
    StopsBack(Source(s, undo), Dest(s, undo), s.sel, i);
    StoppedDest(BeginOperation(s), undo);
    SameOperation(s, HistoryStep(s, undo, true));
  }

  /** The current selection is on top of one of the stacks. */
  lemma AboveOne(s: State, undo: bool, i: nat)
    requires Pending(s) && StopsAt(Source(s, undo), s.sel, i)
    ensures Top(Source(s, undo)) == Sel(s.sel) || (|Dest(s, undo)| > 0 && Top(Dest(s, undo)) == Sel(s.sel))
  {
  }

  lemma StopsBack(source: seq<Event>, dest: seq<Event>, sel: Selection, i: nat)
    requires StopsAt(source, sel, i) && (Top(source) == Sel(sel) || (|dest| > 0 && Top(dest) == Sel(sel)))
    ensures Usable(source, sel, true)
    ensures var p := PopTo(source, dest, sel, sel, true);
      && source[i].Sel? && p.event == source[i] && |p.dest| > 1 && p.dest[|p.dest| - 2] == Sel(sel)
      && StopsAt(p.dest, source[i].sel, |p.dest| - 2)
  {
    hide PopTo;
    StopIsUsable(source, sel, i);
    PopToStops(source, dest, sel, sel);
    PopToAboveSel(source, dest, sel, sel);
  }

  lemma NewOperation(s: State)
    requires Inv(s)
    ensures Inv(BeginOperation(s)) && !SameOp(BeginOperation(s)) && Pending(s)
  {
  }

  lemma StoppedDest(s: State, undo: bool)
    requires Revertable(s, undo, true) && !SameOp(s) && Usable(Source(s, undo), s.sel, true)
    requires PopTo(Source(s, undo), Dest(s, undo), s.sel, s.sel, true).event.Sel?
    ensures Source(MakeChangeFromHistory(s, undo, true), !undo) ==
            PopTo(Source(s, undo), Dest(s, undo), s.sel, s.sel, true).dest
  {
    hide PopTo, Usable;
  }

  lemma SameOperation(s: State, q: State)
    requires Inv(s) && Inv(q) && SameVersions(BeginOperation(s), q)
    ensures SameVersions(s, q)
  {
  }

  lemma SameAgain(s: State, q: State, r: State)
    requires Inv(s) && Inv(q) && Inv(r) && SameVersions(s, q) && SameVersions(q, r)
    ensures SameVersions(s, r)
  {
  }

  /** Undoing (or redoing) the selection, and then the opposite: the selection goes to the
      nearest other one and comes back. */
  lemma SelectionThereAndBack(s: State, undo: bool, i: nat)
    requires Inv(s) && StopsAt(Source(s, undo), s.sel, i)
    ensures var q := HistoryStep(s, undo, true);
            var back := HistoryStep(q, !undo, true);
            && SameVersions(s, q) && q.sel == Source(s, undo)[i].sel
            && SameVersions(s, back) && back.sel == s.sel
  {
    hide HistoryStep, Inv, Past, Future, SameVersions, StopsAt;
    SelectionThere(s, undo, i);
    var q := HistoryStep(s, undo, true);
    SelectionThere(q, !undo, |Source(q, !undo)| - 2);
    SameAgain(s, q, HistoryStep(q, !undo, true));
  }

  lemma StopIsUsable(source: seq<Event>, sel: Selection, i: nat)
    requires StopsAt(source, sel, i)
    ensures Usable(source, sel, true)
  {
    assert Counts(source[i], sel, true);
  }

  // ----- undoing and redoing in an operation that recorded something already

  lemma SelectionOver(stack: seq<Event>, sel: Selection)
    ensures |stack| > 0 && Top(stack).Edit? ==> Edits(Pop(stack) + [Sel(sel)]) == Edits(stack) - 1
  {
    if |stack| > 0 && Top(stack).Edit? {
      EditOverwritten(stack, Sel(sel));
    }
  }

  lemma PushedEvent(stack: seq<Event>, sel: Selection)
    ensures Edits(PushSel(stack, sel)) == Edits(stack)
  {
    assert Pop(stack + [Sel(sel)]) == stack;
  }

  /** After a redo, the next selection overwrites the edit just redone, so that it can
      never be undone again, exactly when the operation has recorded an edit or a
      selection already. */
  lemma RedoLosesEdit(s: State, sel: Selection)
    requires Inv(s) && Future(s) != []
    ensures Revertable(s, false, false) && (Spoils(s, false, false) <==> SameOp(s))
    ensures var q := MakeChangeFromHistory(s, false, false);
            var r := SetSelection(q, sel, "", false, false);
            Edits(r.done) == if SameOp(s) then Edits(q.done) - 1 else Edits(q.done)
  {
    hide PopTo, Versions, GoodStack, SelectionIn, PushSel, Usable, Revert, Revertible, AntiChanges;
    EditsAreVersions(s.undone, s.text, s.sel);
    PopToKeeps(s.undone, s.done, s.sel, s.sel, false, s.text);
    var p := PopTo(s.undone, s.done, s.sel, s.sel, false);
    TopEdit(p.source, p.event, s.text);
    var q := MakeChangeFromHistory(s, false, false);
    var r := SetSelection(q, sel, "", false, false);
    SelectionOver(q.done, sel);
    PushedEvent(q.done, sel);
  }

  const BEHIND := Selection([Range(Pos(0, 1), Pos(0, 1))], 0)
  const X := Change(Pos(0, 0), Pos(0, 0), ["x"])
  const NO_X := Change(Pos(0, 0), Pos(0, 1), EMPTY)
  const TYPE_X := DoEdit(X, BEHIND, "", false)
  const SET_CURSOR := DoSelect(TOP, "", false, true)

  /** An empty document. */
  function Fresh(): State {
    Init(EMPTY, true)
  }

  /** Something was typed in it. */
  function Typed(): State {
    State(["x"], BEHIND, [Sel(TOP), Edit([NO_X], 1), Sel(BEHIND)], [], None, Some(0), Some(0), "", "", 2, 2, 1)
  }

  /** After that, in the next operation, the cursor was set. */
  function Moved(): State {
    Typed().(sel := TOP, done := Typed().done + [Sel(TOP)], curOp := Some(1), lastOp := Some(1))
  }

  /** Instead of that, in the next operation, the typing was undone and the cursor set. */
  function Undone(): State {
    State(EMPTY, TOP, [Sel(TOP)], [Sel(BEHIND), Edit([X], 2)], None, Some(1), Some(1), "", "", 1, 2, 1)
  }

  lemma TypedText()
    ensures Valid(EMPTY, X) && Apply(EMPTY, X) == ["x"] && HistoryChange(EMPTY, X) == NO_X
  {
    assert Before(EMPTY, Pos(0, 0)) == EMPTY == After(EMPTY, Pos(0, 0)) == Between(EMPTY, Pos(0, 0), Pos(0, 0));
    assert Last(EMPTY) + "x" == "x" && "x" + EMPTY[0] == "x";
    assert Cat(["x"], EMPTY) == ["x"] && Cat(EMPTY, ["x"]) == ["x"];
    assert Advance(Pos(0, 0), ["x"]) == Pos(0, 1);
  }

  lemma TypedEvents()
    requires Valid(EMPTY, X) && HistoryChange(EMPTY, X) == NO_X
    ensures Mergeable(Fresh(), "", false) && Recorded(Fresh(), X, "", false) == [Sel(TOP), Edit([NO_X], 1)]
  {
    hide Valid, HistoryChange;
    assert Merging(Fresh(), "", false) == ([], false);
    assert [] + [Sel(TOP)] == [Sel(TOP)] && [Sel(TOP)] + [Edit([NO_X], 1)] == [Sel(TOP), Edit([NO_X], 1)];
  }

  lemma Typing()
    ensures Inv(Fresh()) && Possible(Fresh(), TYPE_X) && Next(Fresh(), TYPE_X) == Typed()
  {
    hide Apply, Valid, HistoryChange, Recorded, Mergeable, PopTo, MakeChangeFromHistory, SetSelection,
      SetSelectionReplaceHistory;
    TypedText();
    TypedEvents();
    assert [Sel(TOP), Edit([NO_X], 1)] + [Sel(BEHIND)] == Typed().done;
  }

  lemma Untyping()
    ensures Revertible(["x"], [NO_X]) && Revert(["x"], [NO_X]) == EMPTY && AntiChanges(["x"], [NO_X]) == [X]
  {
    assert "x"[..0] == "" == "x"[1..] && Before(["x"], Pos(0, 0)) == EMPTY == After(["x"], Pos(0, 1));
    assert Last(EMPTY) + EMPTY[0] == "" && Cat(EMPTY, EMPTY) == EMPTY;
    assert "x"[0..1] == "x" == "x"[..1] && Between(["x"], Pos(0, 0), Pos(0, 1)) == ["x"];
    assert Advance(Pos(0, 0), EMPTY) == Pos(0, 0);
    assert [NO_X][..0] == [];
  }

  lemma RunFirst(s: State, step: Step, steps: seq<Step>)
    requires Inv(s) && Possible(s, step) && Runnable(Next(s, step), steps)
    ensures Runnable(s, [step] + steps) && Run(s, [step] + steps) == Run(Next(s, step), steps)
  {
    hide Next, Inv, Possible;
    assert ([step] + steps)[1..] == steps;
  }

  /** After typing, a new operation. */
  function Begun(): State {
    Typed().(curOp := Some(1))
  }

  lemma Beginning()
    requires Inv(Typed())
    ensures Possible(Typed(), DoBeginOperation) && Next(Typed(), DoBeginOperation) == Begun()
  {
    hide Inv, MakeChange, MakeChangeFromHistory, SetSelection, SetSelectionReplaceHistory;
  }

  lemma SettingCursor(s: State)
    requires Inv(s)
    ensures Possible(s, SET_CURSOR) && Next(s, SET_CURSOR) == SetSelection(s, TOP, "", false, true)
  {
    hide Inv, MakeChange, MakeChangeFromHistory, SetSelection, SetSelectionReplaceHistory, BeginOperation;
  }

  lemma Moving()
    requires Inv(Begun())
    ensures Next(Begun(), SET_CURSOR) == Moved()
  {
    hide Inv, Next;
    SettingCursor(Begun());
  }

  /** Type something; then, in one operation, set the cursor and undo the selection: the
      text stays, and no edit is left to undo or redo. */
  lemma SelectionUndoLosesEdit()
    ensures var steps := [TYPE_X] + ([DoBeginOperation] + ([SET_CURSOR] + []));
            Inv(Fresh()) && Runnable(Fresh(), steps) && Run(Fresh(), steps) == Moved()
    ensures Revertable(Moved(), true, true) && Spoils(Moved(), true, true)
    ensures var q := MakeChangeFromHistory(Moved(), true, true);
            q.text == ["x"] && Edits(Moved().done) == 1 && Edits(q.done) == 0 && Edits(q.undone) == 0
  {
    hide Next, Inv, MakeChangeFromHistory, Spoils, Revertable, Edits;
    Typing();
    Beginning();
    SettingCursor(Begun());
    Moving();
    RunFirst(Begun(), SET_CURSOR, []);
    RunFirst(Typed(), DoBeginOperation, [SET_CURSOR] + []);
    RunFirst(Fresh(), TYPE_X, [DoBeginOperation] + ([SET_CURSOR] + []));
    UndoOfMove();
  }

  lemma UndoOfMove()
    ensures Revertable(Moved(), true, true) && Spoils(Moved(), true, true)
    ensures var q := MakeChangeFromHistory(Moved(), true, true);
            q.text == ["x"] && Edits(Moved().done) == 1 && Edits(q.done) == 0 && Edits(q.undone) == 0
  {
    assert Counts(Moved().done[2], TOP, true);
    var p := PopTo(Moved().done, [], TOP, TOP, true);
    assert p == Popped([Sel(TOP), Edit([NO_X], 1)], [Sel(TOP), Sel(BEHIND)], TOP, Sel(BEHIND));
    hide PopTo;
    var q := MakeChangeFromHistory(Moved(), true, true);
    assert q.done == [Sel(TOP), Sel(BEHIND)] && q.undone == p.dest;
  }

  /** Type something; then, in one operation, undo it, set the cursor and redo. */
  lemma SharedRedoSpoils()
    ensures var steps := [TYPE_X] + ([DoBeginOperation] + ([DoUndo(false)] + ([SET_CURSOR] + [])));
            Inv(Fresh()) && Runnable(Fresh(), steps) && Run(Fresh(), steps) == Undone()
    ensures Future(Undone()) != [] && Spoils(Undone(), false, false)
  {
    hide Next, Inv, Possible, Spoils, Future;
    Typing();
    Beginning();
    UndoTyping();
    SettingCursor(Back());
    SettingBack();
    RunFirst(Back(), SET_CURSOR, []);
    RunFirst(Begun(), DoUndo(false), [SET_CURSOR] + []);
    RunFirst(Typed(), DoBeginOperation, [DoUndo(false)] + ([SET_CURSOR] + []));
    RunFirst(Fresh(), TYPE_X, [DoBeginOperation] + ([DoUndo(false)] + ([SET_CURSOR] + [])));
    RedoOfUndone();
  }

  lemma RedoOfUndone()
    requires Inv(Undone())
    ensures Future(Undone()) != [] && Spoils(Undone(), false, false)
  {
    VersionPerEdit(Undone().undone, EMPTY);
    RedoLosesEdit(Undone(), TOP);
  }

  /** After undoing what was typed. */
  function Back(): State {
    Undone().(lastOp := Some(0))
  }

  lemma PoppedTyping()
    ensures Usable(Begun().done, BEHIND, false)
    ensures PopTo(Begun().done, [], BEHIND, BEHIND, false) ==
      Popped([Sel(TOP)], [Sel(BEHIND)], BEHIND, Edit([NO_X], 1))
  {
    assert Counts(Begun().done[1], BEHIND, false);
    assert Pop(Begun().done) == [Sel(TOP), Edit([NO_X], 1)] && Pop(Pop(Begun().done)) == [Sel(TOP)];
  }

  lemma TypingTakenBack()
    ensures Revertable(Begun(), true, false) && MakeChangeFromHistory(Begun(), true, false) == Back()
  {
    hide PopTo, Usable, Revert, Revertible, AntiChanges;
    PoppedTyping();
    Untyping();
  }

  lemma UndoTyping()
    requires Inv(Begun())
    ensures Possible(Begun(), DoUndo(false)) && Next(Begun(), DoUndo(false)) == Back()
  {
    hide Inv, MakeChange, MakeChangeFromHistory, SetSelection, SetSelectionReplaceHistory, BeginOperation, PopTo,
      Usable;
    TypingTakenBack();
  }

  lemma SettingBack()
    requires Inv(Back())
    ensures Next(Back(), SET_CURSOR) == Undone()
  {
    hide Inv, Next;
    SettingCursor(Back());
  }

  // ----- generations

  /** M knows the text of every generation in reach, and no generation yet to come. */
  predicate Known(s: State, M: map<nat, Text>) {
    && Inv(s)
    && Knows(M, Now(s))
    && AllKnown(M, Past(s))
    && AllKnown(M, Future(s))
    && (forall g :: g in M ==> g <= s.maxGeneration)
  }

  predicate Knows(M: map<nat, Text>, v: Version) {
    v.generation in M && M[v.generation] == v.text
  }

  predicate AllKnown(M: map<nat, Text>, vs: seq<Version>) {
    forall i :: 0 <= i < |vs| ==> Knows(M, vs[i])
  }

  function Learn(M: map<nat, Text>, s: State): map<nat, Text> {
    M[s.generation := s.text]
  }

  predicate Extends(M: map<nat, Text>, N: map<nat, Text>) {
    forall g :: g in M ==> g in N && N[g] == M[g]
  }

  lemma StepLearns(s: State, step: Step, M: map<nat, Text>)
    requires Known(s, M) && Possible(s, step)
    ensures Known(Next(s, step), Learn(M, Next(s, step)))
    ensures Extends(M, Learn(M, Next(s, step)))
  {
    hide Known, Learn, Extends, Edited, Selected, Reselected, Stepping, Marked, Spoils, Editable, SelectionIn;
    KnownIsGood(s, M);
    match step
    case DoEdit(c, selAfter, origin, recent) => EditedLearns(s, c, selAfter, origin, recent, M);
    case DoSelect(sel, origin, similar, clearRedo) => SelectedLearns(s, sel, origin, similar, clearRedo, M);
    case DoSelectReplacing(sel) => ReselectedLearns(s, sel, M);
    case DoUndo(selOnly) => SteppingLearns(s, true, selOnly, M);
    case DoRedo(selOnly) => SteppingLearns(s, false, selOnly, M);
    case _ => MarkedLearns(s, step, M);
  }

  lemma KnownIsGood(s: State, M: map<nat, Text>)
    requires Known(s, M)
    ensures Inv(s)
  {
  }

  lemma EditedLearns(s: State, c: Change, selAfter: Selection, origin: string, recent: bool, M: map<nat, Text>)
    requires Known(s, M) && Editable(s, c, selAfter)
    ensures var q := Edited(s, c, selAfter, origin, recent); Known(q, Learn(M, q)) && Extends(M, Learn(M, q))
  {
    hide Known, Learn, Extends, Editable, MakeChange, Inv, Past, Future;
    KnownIsGood(s, M);
    MakeChangeKeeps(s, c, selAfter, origin, recent);
    EditLearns(s, Edited(s, c, selAfter, origin, recent), M);
  }

  lemma SelectedLearns(s: State, sel: Selection, origin: string, similar: bool, clearRedo: bool, M: map<nat, Text>)
    requires Known(s, M) && SelectionIn(s.text, sel)
    ensures var q := Selected(s, sel, origin, similar, clearRedo); Known(q, Learn(M, q)) && Extends(M, Learn(M, q))
  {
    SetSelectionKeeps(s, sel, origin, similar, clearRedo);
    hide Known, Learn, Extends, SelectionIn, Inv, Past, Future;
    SameVersionsLearns(s, Selected(s, sel, origin, similar, clearRedo), M);
  }

  lemma ReselectedLearns(s: State, sel: Selection, M: map<nat, Text>)
    requires Known(s, M) && SelectionIn(s.text, sel)
    ensures var q := Reselected(s, sel); Known(q, Learn(M, q)) && Extends(M, Learn(M, q))
  {
    SetSelectionReplaceHistoryKeeps(s, sel);
    hide Known, Learn, Extends, SelectionIn, Inv, Past, Future;
    SameVersionsLearns(s, Reselected(s, sel), M);
  }

  lemma SteppingLearns(s: State, undo: bool, selOnly: bool, M: map<nat, Text>)
    requires Known(s, M) && !Spoils(s, undo, selOnly)
    ensures var q := Stepping(s, undo, selOnly); Known(q, Learn(M, q)) && Extends(M, Learn(M, q))
  {
    hide Known, Learn, Extends, Spoils, FitsWithout, HistoryMoves, MakeChangeFromHistory, Inv, Past, Future;
    KnownIsGood(s, M);
    FromHistoryKeeps(s, undo, selOnly);
    MovedLearns(s, Stepping(s, undo, selOnly), undo, M);
  }

  lemma MarkedLearns(s: State, step: Step, M: map<nat, Text>)
    requires Known(s, M)
    ensures var q := Marked(s, step); Known(q, Learn(M, q)) && Extends(M, Learn(M, q))
  {
    SameVersionsLearns(s, Marked(s, step), M);
  }

  lemma EditLearns(s: State, q: State, M: map<nat, Text>)
    requires Known(s, M) && Inv(q)
    requires q == s || (q.generation == q.maxGeneration == s.maxGeneration + 1 && Future(q) == [] &&
                        (Past(q) <= Past(s) || Past(q) <= [Now(s)] + Past(s)))
    ensures Known(q, Learn(M, q)) && Extends(M, Learn(M, q))
  {
  }

  lemma SameVersionsLearns(s: State, q: State, M: map<nat, Text>)
    requires Known(s, M) && Inv(q) && SameVersions(s, q) && q.maxGeneration == s.maxGeneration
    ensures Known(q, Learn(M, q)) && Extends(M, Learn(M, q))
  {
  }

  lemma MovedLearns(s: State, q: State, undo: bool, M: map<nat, Text>)
    requires Known(s, M) && HistoryMoves(s, q, undo) && q.maxGeneration == s.maxGeneration
    ensures Known(q, Learn(M, q)) && Extends(M, Learn(M, q))
  {
    hide Inv, Past, Future;
    if Stepped(s, q, undo) {
      assert AllKnown(M, From(s, undo)) && AllKnown(M, From(s, !undo));
      assert Knows(M, From(s, undo)[0]);
      assert Learn(M, q) == M;
      assert AllKnown(M, From(q, undo)) && AllKnown(M, From(q, !undo));
    } else {
      SameVersionsLearns(s, q, M);
    }
  }

  lemma {:induction false} RunLearns(s: State, steps: seq<Step>, M: map<nat, Text>) returns (N: map<nat, Text>)
    requires Known(s, M) && Runnable(s, steps)
    ensures Known(Run(s, steps), N) && Extends(M, N)
    decreases |steps|
  {
    N := M;
    if |steps| > 0 {
      StepLearns(s, steps[0], M);
      N := RunLearns(Next(s, steps[0]), steps[1..], Learn(M, Next(s, steps[0])));
    }
  }

  lemma InitIsGood(text: Text, withEditor: bool)
    ensures Known(Init(text, withEditor), map[1 := text])
  {
  }

  /** Over all runs, with what was undone and redone, the selection lies in the text. */
  lemma SelectionStaysIn(text: Text, withEditor: bool, steps: seq<Step>)
    requires Runnable(Init(text, withEditor), steps)
    ensures var s := Run(Init(text, withEditor), steps); SelectionIn(s.text, s.sel)
  {
  }

  /** Over all runs, equal generation numbers mean equal texts. */
  lemma GenerationDeterminesText(text: Text, withEditor: bool, before: seq<Step>, between: seq<Step>)
    requires Runnable(Init(text, withEditor), before)
    requires Runnable(Run(Init(text, withEditor), before), between)
    ensures var s := Run(Init(text, withEditor), before);
            var t := Run(s, between);
            s.generation == t.generation ==> s.text == t.text
  {
    var init := Init(text, withEditor);
    InitIsGood(text, withEditor);
    var M := RunLearns(init, before, map[1 := text]);
    var s := Run(init, before);
    var N := RunLearns(s, between, M);
    var t := Run(s, between);
  }

  lemma StepKeepsMark(s: State, step: Step)
    requires Inv(s) && Possible(s, step) && !step.DoMarkClean?
    ensures Next(s, step).cleanGeneration == s.cleanGeneration
  {
  }

  lemma {:induction false} CleanMarkStays(s: State, steps: seq<Step>)
    requires Inv(s) && Runnable(s, steps) && DoMarkClean !in steps
    ensures Run(s, steps).cleanGeneration == s.cleanGeneration
    decreases |steps|
  {
    hide Next, Inv;
    if |steps| > 0 {
      StepKeepsMark(s, steps[0]);
      CleanMarkStays(Next(s, steps[0]), steps[1..]);
    }
  }

  /** A document is clean when it is marked so, and from then on exactly when it is back at
      that version; it has the text it had then. */
  lemma CleanMeansUnchanged(text: Text, withEditor: bool, before: seq<Step>, after: seq<Step>)
    requires Runnable(Init(text, withEditor), before)
    requires Runnable(MarkClean(Run(Init(text, withEditor), before)), after)
    requires DoMarkClean !in after
    ensures var marked := MarkClean(Run(Init(text, withEditor), before));
            && IsClean(marked) && (IsClean(Run(marked, after)) ==> Run(marked, after).text == marked.text)
            && (IsClean(Run(marked, after)) <==> Run(marked, after).generation == marked.generation)
  {
    var s := Run(Init(text, withEditor), before);
    assert [DoMarkClean][1..] == [];
    GenerationDeterminesText(text, withEditor, before, [DoMarkClean] + after);
    assert ([DoMarkClean] + after)[1..] == after;
    CleanMarkStays(MarkClean(s), after);
  }
}
