/** What the history promises over whole runs: it never gets out of step with the text,
    undo and redo walk back and forth over the same versions of the document, and a
    generation number stands for one text. */
module HistoryProofs {
  import opened Wrappers
  import opened Text
  import opened Changes
  import opened Selections
  import opened History

  /** A state of the document an undo or redo can bring back. */
  datatype Version = Version(text: Text, generation: nat, sel: Selection)

  /** Starting from the text, the edits on the stack can be taken back one by one; each
      of them makes some change and lies directly above a selection.  Each selection lies
      in the text that is reached when the edits above it are taken back. */
  predicate GoodStack(stack: seq<Event>, t: Text) {
    |stack| > 0 ==>
      match Top(stack)
      case Sel(sel) => SelectionIn(t, sel) && GoodStack(Pop(stack), t)
      case Edit(changes, generation) =>
        && |changes| > 0 && generation > 0 && Revertible(t, changes)
        && |stack| > 1 && Top(Pop(stack)).Sel?
        && GoodStack(Pop(stack), Revert(t, changes))
  }

  /** The versions the stack leads back to, the nearest first: each comes with the
      selection that lies directly below the edit. */
  function Versions(stack: seq<Event>, t: Text): (vs: seq<Version>)
    requires GoodStack(stack, t)
  {
    if |stack| == 0 then []
    else
      match Top(stack)
      case Sel(_) => Versions(Pop(stack), t)
      case Edit(changes, generation) =>
        [Version(Revert(t, changes), generation, Top(Pop(stack)).sel)] + Versions(Pop(stack), Revert(t, changes))
  }

  /** For the current version, and then for each the stack leads back to: the selection
      lowest on the stack of those that belong to it, or `sel` if there is none. */
  function Lowest(stack: seq<Event>, sel: Selection): (sels: seq<Selection>)
    ensures |sels| > 0
  {
    if |stack| == 0 then [sel]
    else
      match Top(stack)
      case Sel(lower) => Lowest(Pop(stack), lower)
      case Edit(_, _) => [sel] + Lowest(Pop(stack), sel)
  }

  lemma {:induction false} EditLiesOnSelection(stack: seq<Event>, t: Text, i: nat)
    requires GoodStack(stack, t) && i < |stack| && stack[i].Edit?
    ensures i > 0 && stack[i - 1].Sel?
    decreases |stack|
  {
    if i < |stack| - 1 {
      match Top(stack)
      case Sel(_) => EditLiesOnSelection(Pop(stack), t, i);
      case Edit(changes, _) => EditLiesOnSelection(Pop(stack), Revert(t, changes), i);
    }
  }

  // ----- stacks

  lemma PushKeeps(stack: seq<Event>, sel: Selection, t: Text)
    requires GoodStack(stack, t) && SelectionIn(t, sel)
    ensures GoodStack(PushSel(stack, sel), t) && GoodStack(stack + [Sel(sel)], t)
    ensures Versions(PushSel(stack, sel), t) == Versions(stack + [Sel(sel)], t) == Versions(stack, t)
  {
  }

  lemma PushEdit(stack: seq<Event>, t: Text, e: Event)
    requires e.Edit? && |e.changes| > 0 && e.generation > 0 && Revertible(t, e.changes)
    requires GoodStack(stack, Revert(t, e.changes)) && |stack| > 0 && Top(stack).Sel?
    ensures GoodStack(stack + [e], t)
    ensures Versions(stack + [e], t) ==
      [Version(Revert(t, e.changes), e.generation, Top(stack).sel)] + Versions(stack, Revert(t, e.changes))
  {
  }

  lemma {:induction false} ClearKeeps(stack: seq<Event>, t: Text)
    requires GoodStack(stack, t)
    ensures var d := ClearSelectionEvents(stack);
            GoodStack(d, t) && Versions(d, t) == Versions(stack, t) && (|d| > 0 ==> Top(d).Edit?)
    decreases |stack|
  {
    if |stack| > 0 && Top(stack).Sel? {
      ClearKeeps(Pop(stack), t);
    }
  }

  lemma LastChangeEventKeeps(done: seq<Event>, force: bool, t: Text)
    requires GoodStack(done, t)
    ensures var (d, found) := LastChangeEvent(done, force);
            GoodStack(d, t) && Versions(d, t) == Versions(done, t) && (found ==> |d| > 0 && Top(d).Edit?)
  {
  }

  /** Dropping the oldest events forgets only the oldest versions. */
  lemma {:induction false} DropOldest(stack: seq<Event>, k: nat, t: Text)
    requires GoodStack(stack, t) && k <= |stack| && (k < |stack| ==> stack[k].Sel?)
    ensures GoodStack(stack[k..], t) && Versions(stack[k..], t) <= Versions(stack, t)
    decreases |stack|
  {
    hide Revert, Revertible;
    if k < |stack| {
      assert Pop(stack[k..]) == Pop(stack)[k..];
      match Top(stack)
      case Sel(_) => DropOldest(Pop(stack), k, t);
      case Edit(changes, _) => DropOldest(Pop(stack), k, Revert(t, changes));
    }
  }

  predicate Fits(stack: seq<Event>, depth: Option<nat>) {
    depth.None? || |stack| <= depth.value
  }

  /** Trimming to the undo depth drops the oldest events, never separating an edit from
      the selection below it. */
  lemma {:induction false} TrimKeeps(stack: seq<Event>, depth: Option<nat>, t: Text)
    requires GoodStack(stack, t)
    ensures var d := Trim(stack, depth);
            && GoodStack(d, t) && Versions(d, t) <= Versions(stack, t) && Fits(d, depth)
            && (Fits(stack, depth) ==> d == stack) && (|d| > 0 ==> Top(d) == Top(stack))
    decreases |stack|
  {
    if !Fits(stack, depth) {
      var k := if |stack| > 1 && stack[1].Edit? then 2 else 1;
      if k == 2 < |stack| && stack[2].Edit? {
        EditLiesOnSelection(stack, t, 2);
      }
      DropOldest(stack, k, t);
      TrimKeeps(stack[k..], depth, t);
    }
  }

  /** Trimming keeps as many of the latest events as the depth allows, but for an edit
      that would be left without the selection below it. */
  lemma {:induction false} TrimKeepsMost(stack: seq<Event>, depth: nat, t: Text)
    requires GoodStack(stack, t) && |stack| > depth
    ensures var k := |stack| - depth;
            Trim(stack, Some(depth)) == stack[if depth > 0 && stack[k].Edit? then k + 1 else k..]
    decreases |stack|
  {
    hide GoodStack, Versions;
    FrontIsSelection(stack, t);
    var k := if |stack| > 1 && stack[1].Edit? then 2 else 1;
    if k == 2 < |stack| && stack[2].Edit? {
      EditLiesOnSelection(stack, t, 2);
    }
    DropOldest(stack, k, t);
    if |stack| - k > depth {
      TrimKeepsMost(stack[k..], depth, t);
    }
  }

  lemma FrontIsSelection(stack: seq<Event>, t: Text)
    requires GoodStack(stack, t) && |stack| > 0
    ensures stack[0].Sel?
  {
  }

  // ----- changes

  /** Reverting the changes kept while reverting brings the text back. */
  lemma {:induction false} AntiChangesRestore(t: Text, changes: seq<Change>)
    requires Revertible(t, changes)
    ensures |AntiChanges(t, changes)| == |changes|
    ensures Revertible(Revert(t, changes), AntiChanges(t, changes))
    ensures Revert(Revert(t, changes), AntiChanges(t, changes)) == t
    decreases |changes|
  {
    if |changes| > 0 {
      var last, init := changes[|changes| - 1], changes[..|changes| - 1];
      AntiChangesRestore(Apply(t, last), init);
      HistoryChangeInverts(t, last);
      RevertFirst(Revert(t, changes), HistoryChange(t, last), AntiChanges(Apply(t, last), init));
    }
  }

  lemma {:induction false} RevertFirst(t: Text, first: Change, rest: seq<Change>)
    requires Revertible(t, rest) && Valid(Revert(t, rest), first)
    ensures Revertible(t, [first] + rest)
    ensures Revert(t, [first] + rest) == Apply(Revert(t, rest), first)
    decreases |rest|
  {
    var all := [first] + rest;
    if |rest| == 0 {
      assert all == [first] && all[..0] == [];
    } else {
      assert all[..|all| - 1] == [first] + rest[..|rest| - 1];
      RevertFirst(Apply(t, rest[|rest| - 1]), first, rest[..|rest| - 1]);
    }
  }

  /** An edit that joins the previous event is taken back with it: the event leads from
      the new text to where it led from the old one.  Typing on adds no change to it. */
  lemma MergeChangeReverts(t: Text, changes: seq<Change>, c: Change)
    requires Revertible(t, changes) && |changes| > 0 && Valid(t, c)
    ensures var merged := MergeChange(t, changes, c);
            && Revertible(Apply(t, c), merged) && Revert(Apply(t, c), merged) == Revert(t, changes)
            && |merged| == |changes| + if c.from == c.to == changes[|changes| - 1].to then 0 else 1
  {
    var last, init := changes[|changes| - 1], changes[..|changes| - 1];
    var merged := MergeChange(t, changes, c);
    if c.from == c.to == last.to {
      ExtendedChangeRestores(t, last, c);
      assert merged[..|merged| - 1] == init;
    } else {
      HistoryChangeInverts(t, c);
      assert merged[..|merged| - 1] == changes;
    }
  }

  // ----- states

  function Now(s: State): Version {
    Version(s.text, s.generation, s.sel)
  }

  /** The selection on top of done is the current one; without one there, it is the one
      on top of undone. */
  predicate Pending(s: State) {
    if |s.done| > 0 && Top(s.done).Sel? then Top(s.done).sel == s.sel
    else |s.undone| > 0 && Top(s.undone).Sel? ==> Top(s.undone).sel == s.sel
  }

  predicate Inv(s: State) {
    && GoodStack(s.done, s.text)
    && GoodStack(s.undone, s.text)
    && SelectionIn(s.text, s.sel) && Pending(s)
    && s.generation > 0
    && (s.curOp.Some? && s.lastOp.Some? ==> s.lastOp.value <= s.curOp.value)
    // what may be overwritten by the next selection is a selection
    && (SameOp(s) || s.lastSelOrigin != "" ==> |s.done| > 0 && Top(s.done).Sel?)
  }

  function Past(s: State): seq<Version>
    requires Inv(s)
  {
    Versions(s.done, s.text)
  }

  function Future(s: State): seq<Version>
    requires Inv(s)
  {
    Versions(s.undone, s.text)
  }

  predicate HasEdit(stack: seq<Event>) {
    exists i :: 0 <= i < |stack| && stack[i].Edit?
  }

  /** An edit is on top, or only one selection is above it. */
  predicate EditNearTop(stack: seq<Event>) {
    || (|stack| > 0 && stack[|stack| - 1].Edit?)
    || (|stack| > 1 && stack[|stack| - 2].Edit?)
  }

  /** When an edit joins the latest event: when the operation has recorded something
      already, or when it comes with the origin of the last edit, that origin begins with
      '*', or with '+' and the last edit in this editor was recent, and only one selection
      was recorded since. */
  predicate Joins(s: State, origin: string, recent: bool) {
    || (s.curOp.Some? && s.lastOp == s.curOp && HasEdit(s.done))
    || (&& |origin| > 0 && s.lastOrigin == origin && EditNearTop(s.done)
        && (origin[0] == '*' || (origin[0] == '+' && s.curOp.Some? && recent)))
  }

  lemma {:induction false} ClearFindsEdit(stack: seq<Event>)
    ensures |ClearSelectionEvents(stack)| > 0 <==> HasEdit(stack)
    decreases |stack|
  {
    if |stack| > 0 {
      if Top(stack).Sel? {
        ClearFindsEdit(Pop(stack));
        assert forall i :: 0 <= i < |stack| - 1 ==> Pop(stack)[i] == stack[i];
      } else {
        assert stack[|stack| - 1].Edit?;
      }
    }
  }

  /** The search for an edit to join finds one exactly when the edit joins. */
  lemma MergingIsJoining(s: State, origin: string, recent: bool)
    ensures Merging(s, origin, recent).1 <==> Joins(s, origin, recent)
  {
    ClearFindsEdit(s.done);
    if EditNearTop(s.done) {
      assert HasEdit(s.done) by {
        assert s.done[|s.done| - 1].Edit? || s.done[|s.done| - 2].Edit?;
      }
    }
  }

  lemma MergingKeeps(s: State, origin: string, recent: bool)
    requires Inv(s)
    ensures Mergeable(s, origin, recent)
    ensures var (d, merge) := Merging(s, origin, recent);
            && GoodStack(d, s.text) && Versions(d, s.text) == Past(s)
            && (if merge then |d| > 0 && Top(d).Edit? else |d| > 0 && Top(d).Sel? ==> Top(d).sel == s.sel)
  {
    LastChangeEventKeeps(s.done, SameOp(s), s.text);
    var (d, merge) := Merging(s, origin, recent);
  }

  /** The change is one of the text, and the selection lies in what the text becomes. */
  predicate Editable(s: State, c: Change, selAfter: Selection) {
    Valid(s.text, c) && (!(c.text == EMPTY && c.from == c.to) ==> SelectionIn(Apply(s.text, c), selAfter))
  }

  /** An edit that joins the latest event leaves the versions to undo to as they are; any
      other adds the version before it, with its selection, forgetting at most the oldest
      ones, and none without an undo depth. */
  predicate RecordsEdit(s: State, q: State, origin: string, recent: bool)
    requires Inv(s) && Inv(q)
  {
    var joins := Joins(s, origin, recent);
    var before := if joins then Past(s) else [Now(s)] + Past(s);
    && q.generation == q.maxGeneration == s.maxGeneration + 1 && Future(q) == []
    && Past(q) <= before && (joins || s.undoDepth == None ==> Past(q) == before)
  }

  lemma MakeChangeKeeps(s: State, c: Change, selAfter: Selection, origin: string, recent: bool)
    requires Inv(s) && Editable(s, c, selAfter)
    ensures Mergeable(s, origin, recent)
    ensures var q := MakeChange(s, c, selAfter, origin, recent);
            && Inv(q) && q.text == Apply(s.text, c)
            && if c.text == EMPTY && c.from == c.to then q == s
               else q.sel == selAfter == Lows(q, true)[0] && RecordsEdit(s, q, origin, recent)
  {
    hide GoodStack, Versions, SelectionIn, Recorded, Lowest, Joins, Merging;
    MergingKeeps(s, origin, recent);
    MergingIsJoining(s, origin, recent);
    if c.text == EMPTY && c.from == c.to {
      CatEmpty(After(s.text, c.to));
      SplitAt(s.text, c.to);
    } else {
      RecordedKeeps(s, c, origin, recent);
      var r := Recorded(s, c, origin, recent);
      PushKeeps(r, selAfter, Apply(s.text, c));
      LowestOfPushed(r, selAfter);
      EmptyIsGood(Apply(s.text, c));
    }
  }

  lemma LowestOfPushed(stack: seq<Event>, sel: Selection)
    requires |stack| > 0 ==> Top(stack).Edit?
    ensures Top(stack + [Sel(sel)]) == Sel(sel) && Lowest(stack + [Sel(sel)], sel)[0] == sel
  {
    assert Pop(stack + [Sel(sel)]) == stack;
  }

  lemma EmptyIsGood(t: Text)
    ensures GoodStack([], t) && Versions([], t) == []
  {
  }

  lemma RecordedKeeps(s: State, c: Change, origin: string, recent: bool)
    requires Inv(s) && Valid(s.text, c) && Mergeable(s, origin, recent)
    ensures var r, t := Recorded(s, c, origin, recent), Apply(s.text, c);
            var before := if Merging(s, origin, recent).1 then Past(s) else [Now(s)] + Past(s);
            && GoodStack(r, t)
            && Versions(r, t) <= before
            && (Merging(s, origin, recent).1 || s.undoDepth == None ==> Versions(r, t) == before)
            && (|r| > 0 ==> Top(r).Edit?)
  {
    MergingKeeps(s, origin, recent);
    var (d, merge) := Merging(s, origin, recent);
    if merge {
      MergeIntoTop(d, s.text, c);
    } else {
      NewEventKeeps(s, d, c);
    }
  }

  lemma MergeIntoTop(d: seq<Event>, t: Text, c: Change)
    requires GoodStack(d, t) && |d| > 0 && Top(d).Edit? && Valid(t, c)
    ensures var r := Pop(d) + [Top(d).(changes := MergeChange(t, Top(d).changes, c))];
            GoodStack(r, Apply(t, c)) && Versions(r, Apply(t, c)) == Versions(d, t)
  {
    MergeChangeReverts(t, Top(d).changes, c);
    PushEdit(Pop(d), Apply(t, c), Top(d).(changes := MergeChange(t, Top(d).changes, c)));
  }

  lemma OneChangeReverts(t: Text, c: Change)
    requires Valid(t, c)
    ensures Revertible(Apply(t, c), [HistoryChange(t, c)])
    ensures Revert(Apply(t, c), [HistoryChange(t, c)]) == t
  {
    HistoryChangeInverts(t, c);
    assert [HistoryChange(t, c)][..0] == [];
  }

  /** The stack with the current selection on top, on which a new edit goes. */
  lemma BeforeKeeps(d: seq<Event>, sel: Selection, t: Text)
    requires GoodStack(d, t) && SelectionIn(t, sel) && (|d| > 0 && Top(d).Sel? ==> Top(d).sel == sel)
    ensures var before := if |d| > 0 && Top(d).Sel? then d else PushSel(d, sel);
      |before| > 0 && Top(before) == Sel(sel) && GoodStack(before, t) && Versions(before, t) == Versions(d, t)
  {
    hide GoodStack, Versions, PushSel, SelectionIn;
    PushKeeps(d, sel, t);
    PushTop(d, sel);
  }

  lemma NewEventKeeps(s: State, d: seq<Event>, c: Change)
    requires Inv(s) && Valid(s.text, c) && GoodStack(d, s.text)
    requires |d| > 0 && Top(d).Sel? ==> Top(d).sel == s.sel
    ensures var before := if |d| > 0 && Top(d).Sel? then d else PushSel(d, s.sel);
            var full := before + [Edit([HistoryChange(s.text, c)], s.generation)];
            var r, t := Trim(full, s.undoDepth), Apply(s.text, c);
            && GoodStack(r, t) && Versions(r, t) <= [Now(s)] + Versions(d, s.text)
            && (s.undoDepth == None ==> Versions(r, t) == [Now(s)] + Versions(d, s.text))
            && (|r| > 0 ==> Top(r).Edit?)
  {
    hide Revert, Revertible, Apply, HistoryChange, Trim, GoodStack, Versions, PushSel;
    BeforeKeeps(d, s.sel, s.text);
    var before := if |d| > 0 && Top(d).Sel? then d else PushSel(d, s.sel);
    var e := Edit([HistoryChange(s.text, c)], s.generation);
    OneChangeReverts(s.text, c);
    PushEdit(before, Apply(s.text, c), e);
    TrimKeeps(before + [e], s.undoDepth, Apply(s.text, c));
  }

  lemma SetSelectionKeeps(s: State, sel: Selection, origin: string, similar: bool, clearRedo: bool)
    requires Inv(s) && SelectionIn(s.text, sel)
    ensures var q := SetSelection(s, sel, origin, similar, clearRedo);
            Inv(q) && SameVersions(s, q) && q.sel == sel
  {
    PushKeeps(s.done, sel, s.text);
    ClearKeeps(s.undone, s.text);
    if |s.done| > 0 && Top(s.done).Sel? {
      PushKeeps(Pop(s.done), sel, s.text);
    }
  }

  lemma SetSelectionReplaceHistoryKeeps(s: State, sel: Selection)
    requires Inv(s) && SelectionIn(s.text, sel)
    ensures var q := SetSelectionReplaceHistory(s, sel);
            Inv(q) && SameVersions(s, q) && q.sel == sel
  {
    if |s.done| > 0 && Top(s.done).Sel? {
      PushKeeps(Pop(s.done), sel, s.text);
    } else {
      SetSelectionKeeps(s, sel, "", false, false);
    }
  }

  lemma {:induction false} PopToKeeps(source: seq<Event>, dest: seq<Event>, selAfter: Selection,
                                      sel: Selection, selOnly: bool, t: Text)
    requires GoodStack(source, t) && GoodStack(dest, t) && SelectionIn(t, selAfter) && Usable(source, sel, selOnly)
    ensures var p := PopTo(source, dest, selAfter, sel, selOnly);
            && SelectionIn(t, p.selAfter) && GoodStack(p.dest, t) && Versions(p.dest, t) == Versions(dest, t)
            && GoodStack(p.source + [p.event], t) && Versions(p.source + [p.event], t) == Versions(source, t)
    decreases |source|
  {
    hide PushSel, Revertible, SelectionIn;
    assert source == Pop(source) + [Top(source)];
    if Top(source).Sel? {
      PushKeeps(dest, Top(source).sel, t);
      if !(selOnly && Top(source).sel != sel) {
        var i :| 0 <= i < |source| && Counts(source[i], sel, selOnly);
        assert Counts(Pop(source)[i], sel, selOnly);
        PopToKeeps(Pop(source), PushSel(dest, Top(source).sel), Top(source).sel, sel, selOnly, t);
      }
    }
  }

  function From(s: State, undo: bool): seq<Version>
    requires Inv(s)
  {
    if undo then Past(s) else Future(s)
  }

  predicate SameVersions(s: State, q: State)
    requires Inv(s) && Inv(q)
  {
    q.text == s.text && q.generation == s.generation && Past(q) == Past(s) && Future(q) == Future(s)
  }

  /** The selections lowest on one side, from the current version on. */
  function Lows(s: State, undo: bool): (sels: seq<Selection>)
    ensures |sels| > 0
  {
    Lowest(Source(s, undo), s.sel)
  }

  /** One step back (or forth): the nearest version on one side becomes the current one,
      with its selection, and the current one the nearest on the other side, with the
      selection that was lowest on this side. */
  predicate Stepped(s: State, q: State, undo: bool)
    requires Inv(s) && Inv(q)
  {
    && |From(s, undo)| > 0
    && Now(q) == From(s, undo)[0] && From(q, undo) == From(s, undo)[1..]
    && From(q, !undo) == [Now(s).(sel := Lows(s, undo)[0])] + From(s, !undo)
    && Lows(q, undo) == Lows(s, undo)[1..] && Lows(q, !undo) == [q.sel] + Lows(s, !undo)
  }

  /** The operation has recorded something already, so that the next selection overwrites
      what is on top of done; and what comes there is no selection: the edit a redo did
      again, or what an undo that stops at a selection leaves there, which it overwrites
      itself. */
  predicate Spoils(s: State, undo: bool, selOnly: bool) {
    && SameOp(s) && Usable(Source(s, undo), s.sel, selOnly)
    && var p := PopTo(Source(s, undo), Dest(s, undo), s.sel, s.sel, selOnly);
       if p.event.Edit? then !undo else undo && (|p.source| == 0 || Top(p.source).Edit?)
  }

  /** The events further down happen to fit the text without the edit that was overwritten. */
  predicate FitsWithout(s: State, undo: bool, selOnly: bool) {
    && undo && Usable(s.done, s.sel, selOnly)
    && var p := PopTo(s.done, s.undone, s.sel, s.sel, selOnly);
       p.event.Sel? && |p.source| > 0 && GoodStack(Pop(p.source), s.text)
  }

  /** The history is good after the step and leads to the versions it should. */
  predicate HistoryMoves(s: State, q: State, undo: bool)
    requires Inv(s)
  {
    Inv(q) && (Stepped(s, q, undo) || SameVersions(s, q))
  }

  /** An undo or redo takes one step whenever there is a version to step to; one that may
      stop at a selection takes one step or none.  This is so exactly when the step does
      not spoil the history; a spoiled history is no good any more unless by accident. */
  lemma FromHistoryKeeps(s: State, undo: bool, selOnly: bool)
    requires Inv(s)
    ensures Revertable(s, undo, selOnly)
    ensures var q := MakeChangeFromHistory(s, undo, selOnly);
            && q.maxGeneration == s.maxGeneration
            && (HistoryMoves(s, q, undo) <==> !Spoils(s, undo, selOnly))
            && (Inv(q) <==> !Spoils(s, undo, selOnly) || FitsWithout(s, undo, selOnly))
            && (!selOnly && !Spoils(s, undo, selOnly) ==>
                  if From(s, undo) == [] then q == s else Stepped(s, q, undo))
  {
    var source, dest := Source(s, undo), Dest(s, undo);
    hide PopTo, GoodStack, Versions, Revert, Revertible, AntiChanges, PushSel, SetSelection;
    if Usable(source, s.sel, selOnly) {
      PopToKeeps(source, dest, s.sel, s.sel, selOnly, s.text);
      var p := PopTo(source, dest, s.sel, s.sel, selOnly);
      assert Pop(p.source + [p.event]) == p.source;
      if p.event.Edit? {
        PopToCarries(s, undo, selOnly);
        FromHistoryEdit(s, undo, p);
      } else if Spoils(s, undo, selOnly) {
        SpoiledSelection(s, selOnly);
      } else {
        FromHistorySel(s, undo, p);
      }
    }
    if !selOnly {
      EditsAreVersions(source, s.text, s.sel);
    }
  }

  /** A new selection takes the place of the last one when the operation has recorded
      something already, or when it comes with the same origin and is similar; otherwise
      it goes on top of it.  Setting it takes back the redoing of selections, unless the
      caller does not want that. */
  lemma SelectionIsRecorded(s: State, sel: Selection, origin: string, similar: bool, clearRedo: bool)
    requires Inv(s)
    ensures var q := SetSelection(s, sel, origin, similar, clearRedo);
      var instead := (s.curOp.Some? && s.lastOp == s.curOp) || (origin != "" && s.lastSelOrigin == origin && similar);
      && (forall i: nat :: StopsAt(q.done, sel, i) <==> StopsAt(if instead then Pop(s.done) else s.done, sel, i))
      && (if clearRedo then forall i: nat :: !StopsAt(q.undone, sel, i) else q.undone == s.undone)
  {
    hide GoodStack, Versions, SelectionIn, StopsAt, ClearSelectionEvents;
    PushStops(s.done, sel);
    ClearKeeps(s.undone, s.text);
    NoStops(ClearSelectionEvents(s.undone), sel);
    if |s.done| > 0 {
      PushStops(Pop(s.done), sel);
    }
  }

  lemma NoStops(stack: seq<Event>, sel: Selection)
    ensures |stack| == 0 || Top(stack).Edit? ==> forall i: nat :: !StopsAt(stack, sel, i)
  {
  }

  /** So does a selection that replaces the last one without regard to the history; nothing
      else changes then. */
  lemma ReplacedSelectionIsGone(s: State, sel: Selection)
    requires |s.done| > 0 && Top(s.done).Sel?
    ensures var q := SetSelectionReplaceHistory(s, sel);
            && q == s.(sel := sel, done := q.done) && |q.done| == |s.done| && Pop(q.done) == Pop(s.done)
            && forall i: nat :: StopsAt(q.done, sel, i) <==> StopsAt(Pop(s.done), sel, i)
  {
    PushStops(Pop(s.done), sel);
  }

  lemma PushStops(stack: seq<Event>, sel: Selection)
    ensures forall i: nat :: StopsAt(stack + [Sel(sel)], sel, i) <==> StopsAt(stack, sel, i)
    ensures forall i: nat :: StopsAt(PushSel(stack, sel), sel, i) <==> StopsAt(stack, sel, i)
  {
    var pushed := stack + [Sel(sel)];
    forall i: nat ensures StopsAt(pushed, sel, i) <==> StopsAt(stack, sel, i) {
      assert forall j :: 0 <= j < |stack| ==> pushed[j] == stack[j];
    }
  }

  // ----- undoing and redoing selections

  /** Event i is a selection other than the given one, with only that one above it. */
  predicate StopsAt(source: seq<Event>, sel: Selection, i: nat) {
    && i < |source| && source[i].Sel? && source[i].sel != sel
    && forall j :: i < j < |source| ==> source[j] == Sel(sel)
  }

  lemma {:induction false} PopToStops(source: seq<Event>, dest: seq<Event>, selAfter: Selection, sel: Selection)
    requires Usable(source, sel, true)
    ensures var p := PopTo(source, dest, selAfter, sel, true);
      if p.event.Edit? then forall i: nat :: !StopsAt(source, sel, i)
      else StopsAt(source, sel, |p.source|) && p.event == source[|p.source|] && p.source == source[..|p.source|]
    decreases |source|
  {
    hide PushSel;
    if Top(source) == Sel(sel) {
      assert Usable(Pop(source), sel, true) by {
        var i :| 0 <= i < |source| && Counts(source[i], sel, true);
        assert Counts(Pop(source)[i], sel, true);
      }
      PopToStops(Pop(source), PushSel(dest, sel), sel, sel);
      forall i: nat ensures StopsAt(source, sel, i) <==> StopsAt(Pop(source), sel, i) {
        assert forall j :: 0 <= j < |source| - 1 ==> Pop(source)[j] == source[j];
      }
    } else {
      assert !StopsAt(source, sel, |source| - 1) <==> Top(source).Edit?;
    }
  }

  /** An undo or redo that may stop at a selection goes to the nearest selection other
      than the current one if no edit lies in between; otherwise, if there is any such
      selection at all, it takes a step; and otherwise it does nothing. */
  lemma SelectionOrStep(s: State, undo: bool)
    requires Inv(s) && !Spoils(s, undo, true)
    ensures Revertable(s, undo, true)
    ensures var q, source := MakeChangeFromHistory(s, undo, true), Source(s, undo);
      && Inv(q)
      && (forall i: nat :: StopsAt(source, s.sel, i) ==> SameVersions(s, q) && q.sel == source[i].sel)
      && (if forall i | 0 <= i < |source| && source[i].Sel? :: source[i].sel == s.sel then q == s
          else (forall i: nat :: !StopsAt(source, s.sel, i)) ==> Stepped(s, q, undo))
  {
    var source, dest := Source(s, undo), Dest(s, undo);
    hide PopTo, GoodStack, Versions, Revert, Revertible, AntiChanges, PushSel, SetSelection, Stepped, SameVersions;
    FromHistoryKeeps(s, undo, true);
    if Usable(source, s.sel, true) {
      var p := PopTo(source, dest, s.sel, s.sel, true);
      PopToStops(source, dest, s.sel, s.sel);
      PopToKeeps(source, dest, s.sel, s.sel, true, s.text);
      assert Pop(p.source + [p.event]) == p.source;
      if p.event.Edit? {
        PopToCarries(s, undo, true);
        FromHistoryEdit(s, undo, p);
      } else {
        FromHistorySel(s, undo, p);
        forall i: nat | StopsAt(source, s.sel, i) ensures i == |p.source| {
        }
      }
    }
  }

  lemma TopEdit(rest: seq<Event>, e: Event, t: Text)
    requires GoodStack(rest + [e], t) && e.Edit?
    ensures |e.changes| > 0 && e.generation > 0 && Revertible(t, e.changes) && |rest| > 0 && Top(rest).Sel?
    ensures GoodStack(rest, Revert(t, e.changes)) && SelectionIn(Revert(t, e.changes), Top(rest).sel)
    ensures Versions(rest + [e], t) ==
      [Version(Revert(t, e.changes), e.generation, Top(rest).sel)] + Versions(rest, Revert(t, e.changes))
  {
    hide SelectionIn, Revert, Revertible;
    assert Pop(rest + [e]) == rest;
  }

  lemma TopSel(rest: seq<Event>, e: Event, t: Text)
    requires e.Sel?
    ensures GoodStack(rest + [e], t) <==> SelectionIn(t, e.sel) && GoodStack(rest, t)
    ensures GoodStack(rest + [e], t) ==> Versions(rest + [e], t) == Versions(rest, t)
  {
    hide SelectionIn, Revert, Revertible;
    assert Pop(rest + [e]) == rest;
  }

  lemma PushTop(stack: seq<Event>, sel: Selection)
    ensures |PushSel(stack, sel)| > 0 && Top(PushSel(stack, sel)) == Sel(sel)
  {
  }

  lemma PushLowest(stack: seq<Event>, sel: Selection, below: Selection)
    ensures Lowest(PushSel(stack, sel), below) == Lowest(stack, sel)
  {
    assert Pop(stack + [Sel(sel)]) == stack;
  }

  /** Moving selections to the other stack: the last one moved is the lowest of this
      stack, and those already on the other one stay below. */
  lemma {:induction false} PopToLowest(source: seq<Event>, dest: seq<Event>, selAfter: Selection,
                                       sel: Selection, selOnly: bool)
    requires Usable(source, sel, selOnly) && PopTo(source, dest, selAfter, sel, selOnly).event.Edit?
    ensures var p := PopTo(source, dest, selAfter, sel, selOnly);
      && Lowest(source, selAfter) == [p.selAfter] + Lowest(p.source, p.selAfter)
      && Lowest(PushSel(p.dest, p.selAfter), p.selAfter) ==
         Lowest(dest, if Top(source).Sel? then Top(source).sel else selAfter)
    decreases |source|
  {
    hide PushSel;
    if Top(source).Sel? {
      assert Usable(Pop(source), sel, selOnly) by {
        var i :| 0 <= i < |source| && Counts(source[i], sel, selOnly);
        assert Counts(Pop(source)[i], sel, selOnly);
      }
      PopToLowest(Pop(source), PushSel(dest, Top(source).sel), Top(source).sel, sel, selOnly);
      PushLowest(dest, Top(source).sel, if Top(Pop(source)).Sel? then Top(Pop(source)).sel else Top(source).sel);
    } else {
      PushLowest(dest, selAfter, selAfter);
    }
  }

  /** What the popped stacks say of the selections lowest on both sides. */
  predicate Carried(s: State, undo: bool, p: Popped) {
    && Lows(s, undo) == [p.selAfter] + Lowest(p.source, p.selAfter)
    && Lowest(PushSel(p.dest, p.selAfter), p.selAfter) == Lows(s, !undo)
  }

  lemma PopToCarries(s: State, undo: bool, selOnly: bool)
    requires Pending(s) && Usable(Source(s, undo), s.sel, selOnly)
    requires PopTo(Source(s, undo), Dest(s, undo), s.sel, s.sel, selOnly).event.Edit?
    ensures Carried(s, undo, PopTo(Source(s, undo), Dest(s, undo), s.sel, s.sel, selOnly))
  {
    hide PopTo, PushSel;
    PopToLowest(Source(s, undo), Dest(s, undo), s.sel, s.sel, selOnly);
  }

  lemma LowestOfTop(stack: seq<Event>, sel: Selection, other: Selection)
    requires |stack| > 0 && Top(stack).Sel?
    ensures Lowest(stack, sel) == Lowest(stack, other)
  {
  }

  lemma LowestOfEdit(stack: seq<Event>, e: Event, sel: Selection)
    requires e.Edit?
    ensures Lowest(stack + [e], sel) == [sel] + Lowest(stack, sel)
  {
    assert Pop(stack + [e]) == stack;
  }

  lemma FromHistorySel(s: State, undo: bool, p: Popped)
    requires Inv(s) && p.event.Sel? && |p.dest| > 0 && Top(p.dest) == p.event
    requires SameOp(s) && undo ==> |p.source| > 0 && Top(p.source).Sel?
    requires GoodStack(p.source + [p.event], s.text) && Versions(p.source + [p.event], s.text) == From(s, undo)
    requires GoodStack(p.dest, s.text) && Versions(p.dest, s.text) == From(s, !undo)
    ensures var q := WithStacks(s.(lastOrigin := "", lastSelOrigin := ""), undo, p.source, p.dest);
            var r := SetSelection(q, p.event.sel, "", false, false);
            Inv(r) && SameVersions(s, r) && r.sel == p.event.sel && r.maxGeneration == s.maxGeneration
  {
    assert Pop(p.source + [p.event]) == p.source;
    var q := WithStacks(s.(lastOrigin := "", lastSelOrigin := ""), undo, p.source, p.dest);
    var pending := if |q.done| > 0 && Top(q.done).Sel? then Top(q.done).sel else p.event.sel;
    SetSelectionKeeps(q.(sel := pending), p.event.sel, "", false, false);
  }

  function Edits(stack: seq<Event>): nat {
    if |stack| == 0 then 0 else Edits(Pop(stack)) + if Top(stack).Edit? then 1 else 0
  }

  lemma {:induction false} VersionPerEdit(stack: seq<Event>, t: Text)
    requires GoodStack(stack, t)
    ensures |Versions(stack, t)| == Edits(stack)
    decreases |stack|
  {
    hide Revert, Revertible;
    if |stack| > 0 {
      match Top(stack)
      case Sel(_) => VersionPerEdit(Pop(stack), t);
      case Edit(changes, _) => VersionPerEdit(Pop(stack), Revert(t, changes));
    }
  }

  lemma EditOverwritten(stack: seq<Event>, e: Event)
    requires |stack| > 0 && Top(stack).Edit? && e.Sel?
    ensures Edits(Pop(stack) + [e]) == Edits(stack) - 1
  {
    assert Pop(Pop(stack) + [e]) == Pop(stack);
  }

  /** An undo that stops at a selection and overwrites what lies below it: the text stays,
      and either nothing is left to overwrite or an edit is gone for good.  What is left
      then is a good history only if the events further down happen to fit the text. */
  lemma SpoiledSelection(s: State, selOnly: bool)
    requires Inv(s) && Usable(s.done, s.sel, selOnly)
    requires PopTo(s.done, s.undone, s.sel, s.sel, selOnly).event.Sel? && Spoils(s, true, selOnly)
    ensures var rest := PopTo(s.done, s.undone, s.sel, s.sel, selOnly).source;
            var q := MakeChangeFromHistory(s, true, selOnly);
            && q.text == s.text && q.generation == s.generation && q.sel != s.sel
            && q.maxGeneration == s.maxGeneration && !HistoryMoves(s, q, true)
            && (Inv(q) <==> |rest| > 0 && GoodStack(Pop(rest), s.text))
            && Edits(q.undone) == Edits(s.undone)
            && if |rest| == 0 then q.done == [] else Edits(q.done) == Edits(s.done) - 1
  {
    hide PopTo, GoodStack, Versions, SelectionIn, PushSel, Usable, Edits;
    var p := PopTo(s.done, s.undone, s.sel, s.sel, selOnly);
    PopToKeeps(s.done, s.undone, s.sel, s.sel, selOnly, s.text);
    TopSel(p.source, p.event, s.text);
    VersionPerEdit(s.done, s.text);
    VersionPerEdit(s.undone, s.text);
    VersionPerEdit(p.dest, s.text);
    VersionPerEdit(p.source, s.text);
    var q := MakeChangeFromHistory(s, true, selOnly);
    if |p.source| > 0 {
      assert q.done == Pop(p.source) + [p.event];
      EditOverwritten(p.source, p.event);
      TopSel(Pop(p.source), p.event, s.text);
      if Inv(q) {
        VersionPerEdit(q.done, s.text);
      }
    }
  }

  lemma {:induction false} EditsAreVersions(stack: seq<Event>, t: Text, sel: Selection)
    requires GoodStack(stack, t)
    ensures Usable(stack, sel, false) <==> Versions(stack, t) != []
    decreases |stack|
  {
    if |stack| > 0 {
      if Top(stack).Edit? {
        assert Counts(stack[|stack| - 1], sel, false);
      } else {
        EditsAreVersions(Pop(stack), t, sel);
        assert forall i :: 0 <= i < |stack| - 1 ==> Pop(stack)[i] == stack[i];
        assert Usable(stack, sel, false) <==> Usable(Pop(stack), sel, false);
      }
    }
  }

  /** An edit that joins needs one to join, and in an operation that has recorded
      something already that is enough. */
  lemma HasPast(s: State, origin: string, recent: bool)
    requires Inv(s)
    ensures Joins(s, origin, recent) ==> Past(s) != []
    ensures SameOp(s) && Past(s) != [] ==> Joins(s, origin, recent)
  {
    hide GoodStack, Versions, SelectionIn;
    EditsAreVersions(s.done, s.text, s.sel);
    if Joins(s, origin, recent) {
      var i :| 0 <= i < |s.done| && s.done[i].Edit?;
      assert Counts(s.done[i], s.sel, false);
    }
    if Usable(s.done, s.sel, false) {
      var i :| 0 <= i < |s.done| && Counts(s.done[i], s.sel, false);
      assert s.done[i].Edit?;
    }
  }

  lemma FromHistoryEdit(s: State, undo: bool, p: Popped)
    requires Inv(s) && p.event.Edit?
    requires GoodStack(p.source + [p.event], s.text) && Versions(p.source + [p.event], s.text) == From(s, undo)
    requires GoodStack(p.dest, s.text) && Versions(p.dest, s.text) == From(s, !undo) && SelectionIn(s.text, p.selAfter)
    requires Carried(s, undo, p)
    ensures Revertible(s.text, p.event.changes) && |p.source| > 0 && Top(p.source).Sel?
    ensures var event := Edit(AntiChanges(s.text, p.event.changes), s.generation);
            var q := WithStacks(s.(lastOrigin := "", lastSelOrigin := ""), undo, p.source,
                                PushSel(p.dest, p.selAfter) + [event]).(
                       text := Revert(s.text, p.event.changes), sel := Top(p.source).sel,
                       generation := p.event.generation);
            && p.event.generation > 0 && q.maxGeneration == s.maxGeneration
            && (Inv(q) <==> !SameOp(s) || undo) && (Inv(q) ==> Stepped(s, q, undo))
  {
    hide GoodStack, Versions, SelectionIn, Revert, Revertible, AntiChanges, PushSel, Lowest;
    TopEdit(p.source, p.event, s.text);
    AntiChangesRestore(s.text, p.event.changes);
    PushKeeps(p.dest, p.selAfter, s.text);
    PushTop(p.dest, p.selAfter);
    var event := Edit(AntiChanges(s.text, p.event.changes), s.generation);
    PushEdit(PushSel(p.dest, p.selAfter), Revert(s.text, p.event.changes), event);
    LowestOfTop(p.source, p.selAfter, Top(p.source).sel);
    LowestOfTop(PushSel(p.dest, p.selAfter), p.selAfter, Top(p.source).sel);
    LowestOfEdit(PushSel(p.dest, p.selAfter), event, Top(p.source).sel);
  }
}
