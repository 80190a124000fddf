/** A document object with its history: the methods that change it in place.  Each is
    proved to do what the functions of module History say, in every state of a run. */
module Document {
  import opened Wrappers
  import opened Text
  import opened Changes
  import opened Selections
  import opened Replacing
  import opened History
  import opened HistoryProofs

  /** Pop all selections off the end of a stack. */
  method DropSelections(stack: seq<Event>) returns (rest: seq<Event>)
    ensures rest == ClearSelectionEvents(stack)
  {
    rest := stack;
    while |rest| > 0
      invariant ClearSelectionEvents(rest) == ClearSelectionEvents(stack)
      decreases |rest|
    {
      if Top(rest).Edit? {
        break;
      }
      rest := Pop(rest);
    }
  }

  /** Shift events off the front until the stack fits.  With an edit on top there is
      always another event behind the one shifted off to look at. */
  method TrimToDepth(stack: seq<Event>, depth: Option<nat>, ghost t: Text) returns (rest: seq<Event>)
    requires GoodStack(stack, t) && |stack| > 0 && Top(stack).Edit?
    ensures rest == Trim(stack, depth)
  {
    rest := stack;
    while depth.Some? && |rest| > depth.value
      invariant GoodStack(rest, t) && (|rest| > 0 ==> Top(rest).Edit?)
      invariant Trim(rest, depth) == Trim(stack, depth)
      decreases |rest|
    {
      FrontIsSelection(rest, t);
      ghost var k := if rest[1].Edit? then 2 else 1;
      if k == 2 < |rest| && rest[2].Edit? {
        EditLiesOnSelection(rest, t, 2);
      }
      DropOldest(rest, k, t);
      ghost var whole := rest;
      rest := rest[1..];
      if rest[0].Edit? {
        rest := rest[1..];
      }
      assert rest == whole[k..];
    }
  }

  /** Is there an event to go to, so that selections are not popped for nothing? */
  method FindUsable(source: seq<Event>, sel: Selection, selOnly: bool) returns (usable: bool)
    ensures usable <==> Usable(source, sel, selOnly)
  {
    for i := 0 to |source|
      invariant forall j :: 0 <= j < i ==> !Counts(source[j], sel, selOnly)
    {
      if Counts(source[i], sel, selOnly) {
        return true;
      }
    }
    return false;
  }

  method PopEvents(source: seq<Event>, dest: seq<Event>, sel: Selection, selOnly: bool) returns (p: Popped)
    requires Usable(source, sel, selOnly)
    ensures p == PopTo(source, dest, sel, sel, selOnly)
  {
    var rest, moved, selAfter := source, dest, sel;
    while true
      invariant Usable(rest, sel, selOnly)
      invariant PopTo(rest, moved, selAfter, sel, selOnly) == PopTo(source, dest, sel, sel, selOnly)
      decreases |rest|
    {
      var event := Top(rest);
      assert Counts(event, sel, selOnly) || Usable(Pop(rest), sel, selOnly) by {
        var i :| 0 <= i < |rest| && Counts(rest[i], sel, selOnly);
        assert i < |rest| - 1 ==> Counts(Pop(rest)[i], sel, selOnly);
      }
      rest := Pop(rest);
      match event {
        case Sel(s) =>
          moved := PushSel(moved, s);
          if selOnly && s != sel {
            return Popped(rest, moved, selAfter, event);
          }
          selAfter := s;
        case Edit(_, _) =>
          return Popped(rest, moved, selAfter, event);
      }
    }
  }

  predicate HasPrimary(sel: Selection) {
    0 <= sel.prim < |sel.ranges|
  }

  /** The selection after the change: the adjusted ranges, normalized. */
  ghost predicate SelAfter(sel: Selection, c: Change, out: Selection)
    requires HasPrimary(sel)
  {
    Normalized(AdjustedRanges(sel.ranges, c), sel.prim, out)
  }

  method ComputeSelAfterChange(sel: Selection, c: Change) returns (out: Selection)
    requires HasPrimary(sel)
    ensures SelAfter(sel, c, out)
  {
    var adjusted: seq<Range> := [];
    for i := 0 to |sel.ranges|
      invariant adjusted == AdjustedRanges(sel.ranges[..i], c)
    {
      var r := sel.ranges[i];
      adjusted := adjusted + [Range(AdjustForChange(r.anchor, c), AdjustForChange(r.head, c))];
    }
    assert sel.ranges[..|sel.ranges|] == sel.ranges;
    out := NormalizeSelection(adjusted, sel.prim);
  }

  /** A selection in the text becomes one in the text after the change. */
  lemma SelAfterIsIn(t: Text, sel: Selection, c: Change, out: Selection)
    requires SelectionIn(t, sel) && Changes.Valid(t, c) && SelAfter(sel, c, out)
    ensures SelectionIn(Apply(t, c), out)
  {
    hide SameCover, Apply, AdjustForChange;
    var rs := AdjustedRanges(sel.ranges, c);
    forall p | IsEnd(rs, p) ensures ValidPos(Apply(t, c), p) {
      var i :| 0 <= i < |rs| && (rs[i].anchor == p || rs[i].head == p);
      assert ValidSpan(t, sel.ranges[i].From(), sel.ranges[i].To());
      AdjustIsOffsetMap(t, c, sel.ranges[i].anchor);
      AdjustIsOffsetMap(t, c, sel.ranges[i].head);
    }
    forall k | 0 <= k < |out.ranges| ensures ValidSpan(Apply(t, c), out.ranges[k].From(), out.ranges[k].To()) {
      assert IsEnd(rs, out.ranges[k].anchor) && IsEnd(rs, out.ranges[k].head);
    }
  }

  /** A change keeps the direction of selections: where one is left, not empty, it starts
      where the change takes the start of one of the same direction. */
  lemma ChangeKeepsDirections(t: Text, sel: Selection, c: Change, out: Selection, k: nat)
    requires SelectionIn(t, sel) && Changes.Valid(t, c) && SelAfter(sel, c, out) && k < |out.ranges|
    requires !out.ranges[k].Empty()
    ensures exists i :: 0 <= i < |sel.ranges| && MovedTo(sel.ranges[i], c, out.ranges[k])
  {
    hide SelectionIn, SameCover, AdjustForChange;
    var rs := AdjustedRanges(sel.ranges, c);
    assert Led(rs, out.ranges[k]);
    var i :| 0 <= i < |rs| && Leads(rs[i], out.ranges[k]);
    AdjustIsMonotone(t, c, sel.ranges[i].From(), sel.ranges[i].To());
    assert MovedTo(sel.ranges[i], c, out.ranges[k]);
  }

  /** The change takes the start of the one range to the start of the other, and they have
      the same direction. */
  predicate MovedTo(r: Range, c: Change, s: Range) {
    !r.Empty() && s.From() == AdjustForChange(r.From(), c) && (s.Inverted() <==> r.Inverted())
  }

  function AdjustedRanges(rs: seq<Range>, c: Change): (out: seq<Range>)
    ensures |out| == |rs|
  {
    seq(|rs|, i requires 0 <= i < |rs| =>
      Range(AdjustForChange(rs[i].anchor, c), AdjustForChange(rs[i].head, c)))
  }

  datatype Collapse = AtStart | Around | AtEnd

  function Replacements(ranges: seq<Range>, code: seq<Text>): (cs: seq<Change>)
    requires |ranges| == |code|
    ensures |cs| == |ranges|
  {
    seq(|ranges|, i requires 0 <= i < |ranges| => Change(ranges[i].From(), ranges[i].To(), code[i]))
  }

  lemma ReplacementsOrdered(t: Text, sel: Selection, code: seq<Text>)
    requires SelectionIn(t, sel) && |code| == |sel.ranges|
    ensures Ordered(t, Replacements(sel.ranges, code), Pos(0, 0))
    ensures Partly(t, Replacements(sel.ranges, code), |code|, t)
  {
    var cs := Replacements(sel.ranges, code);
    OrderedFrom(t, cs, 0);
    assert cs[0..] == cs && cs[|cs|..] == [];
    SplitAt(t, Base(cs, |cs|));
  }

  /** The selection around the new texts, or in front of them, lies in the new text. */
  lemma ReplacedIsIn(t: Text, sel: Selection, code: seq<Text>, around: bool)
    requires SelectionIn(t, sel) && |code| == |sel.ranges|
    ensures var cs := Replacements(sel.ranges, code);
      && Ordered(t, cs, Pos(0, 0))
      && SelectionIn(Simultaneous(t, cs, Pos(0, 0)),
           Selection(ReplacedRanges(cs, sel.ranges, 0, Pos(0, 0), Pos(0, 0), around), sel.prim))
  {
    hide Simultaneous, ReplacedRanges, Ordered;
    var cs := Replacements(sel.ranges, code);
    ReplacementsOrdered(t, sel, code);
    ReplacedApart(cs, sel.ranges, 0, Pos(0, 0), Pos(0, 0), around);
    ReplacedRangesArePlaced(t, cs, sel.ranges, around);
  }

  function Cursors(ps: seq<Pos>): (rs: seq<Range>)
    ensures |rs| == |ps|
  {
    seq(|ps|, k requires 0 <= k < |ps| => Range(ps[k], ps[k]))
  }

  function RangeEnds(rs: seq<Range>): (ps: seq<Pos>)
    ensures |ps| == |rs|
  {
    seq(|rs|, k requires 0 <= k < |rs| => rs[k].To())
  }

  /** The changes are the ones that replace these ranges. */
  predicate Replaces(cs: seq<Change>, ranges: seq<Range>) {
    && |cs| == |ranges| && Gaps(cs)
    && forall i :: 0 <= i < |cs| ==> cs[i].from == ranges[i].From() && cs[i].to == ranges[i].To()
  }

  /** The ranges once those from i on are replaced: these have become cursors behind the
      new texts, the earlier ones are as they were. */
  function PartlyReplaced(ranges: seq<Range>, cs: seq<Change>, i: nat): (rs: seq<Range>)
    requires i <= |cs| == |ranges|
    ensures |rs| == |ranges|
  {
    ranges[..i] + Cursors(EndsFrom(cs, i))
  }

  lemma PartlyApart(ranges: seq<Range>, cs: seq<Change>, i: nat)
    requires Replaces(cs, ranges) && i <= |cs|
    ensures Apart(PartlyReplaced(ranges, cs, i), |cs|)
  {
    hide EndsFrom;
    EndsAscend(cs, i);
    var rs, ends := PartlyReplaced(ranges, cs, i), EndsFrom(cs, i);
    forall j, k | 0 <= j < k < |rs| ensures Cmp(rs[j].To(), rs[k].From()) < 0 {
      GapBetween(cs, j, k);
      if j < i <= k {
        GapBetween(cs, j, i);
        assert Le(cs[i].from, ends[k - i]);
      } else if i <= j {
        assert Cmp(ends[j - i], ends[k - i]) < 0;
      }
    }
  }

  lemma {:induction false} GapBetween(cs: seq<Change>, j: nat, k: nat)
    requires Gaps(cs) && j < k < |cs|
    ensures Cmp(cs[j].to, cs[k].from) < 0
    decreases k - j
  {
    if j + 1 < k {
      GapBetween(cs, j + 1, k);
    }
  }

  lemma InFront(r: Range, c: Change)
    requires Cmp(r.To(), c.from) < 0
    ensures AdjustForChange(r.anchor, c) == r.anchor && AdjustForChange(r.head, c) == r.head
  {
  }

  lemma Covered(r: Range, c: Change)
    requires c.from == r.From() && c.to == r.To()
    ensures AdjustForChange(r.anchor, c) == ChangeEnd(c) == AdjustForChange(r.head, c)
  {
  }

  /** What the change makes of a range not yet replaced, or of the one it replaces. */
  lemma NextRange(ranges: seq<Range>, cs: seq<Change>, i: nat, k: nat)
    requires Replaces(cs, ranges) && i < |cs| && k < |cs|
    ensures k < i ==>
      AdjustForChange(ranges[k].anchor, cs[i]) == ranges[k].anchor
        && AdjustForChange(ranges[k].head, cs[i]) == ranges[k].head
    ensures k == i ==>
      AdjustForChange(ranges[k].anchor, cs[i]) == ChangeEnd(cs[i]) == AdjustForChange(ranges[k].head, cs[i])
  {
    hide AdjustForChange, ChangeEnd, Cmp;
    if k < i {
      GapBetween(cs, k, i);
      InFront(ranges[k], cs[i]);
    } else if k == i {
      Covered(ranges[k], cs[i]);
    }
  }

  /** The next change to be made, the one before, leaves a cursor behind its text. */
  lemma NextCursor(ranges: seq<Range>, cs: seq<Change>, i: nat)
    requires Replaces(cs, ranges) && i < |cs|
    ensures AdjustedRanges(PartlyReplaced(ranges, cs, i + 1), cs[i]) == PartlyReplaced(ranges, cs, i)
  {
    hide AdjustForChange, ChangeEnd, Cmp;
    var rs, ss := PartlyReplaced(ranges, cs, i + 1), PartlyReplaced(ranges, cs, i);
    forall k | 0 <= k < |cs|
      ensures Range(AdjustForChange(rs[k].anchor, cs[i]), AdjustForChange(rs[k].head, cs[i])) == ss[k]
    {
      NextRange(ranges, cs, i, k);
      if k > i {
        assert EndsFrom(cs, i)[k - i] == AdjustForChange(EndsFrom(cs, i + 1)[k - i - 1], cs[i]);
      }
    }
  }

  /** Adjusting for a change that changes nothing. */
  lemma NothingAdjusted(ranges: seq<Range>, c: Change)
    requires c.text == EMPTY && c.from == c.to
    ensures AdjustedRanges(ranges, c) == ranges
  {
  }

  /** After a change, the selection the changes made so far must leave. */
  lemma CursorLeft(ranges: seq<Range>, cs: seq<Change>, i: nat, prim: int, out: Selection)
    requires Replaces(cs, ranges) && i < |cs| && 0 <= prim < |cs|
    requires var before := Selection(PartlyReplaced(ranges, cs, i + 1), prim);
      if cs[i].text == EMPTY && cs[i].from == cs[i].to then out == before else SelAfter(before, cs[i], out)
    ensures out == Selection(PartlyReplaced(ranges, cs, i), prim)
  {
    hide AdjustedRanges, PartlyReplaced, Normalized;
    NextCursor(ranges, cs, i);
    PartlyApart(ranges, cs, i);
    if cs[i].text == EMPTY && cs[i].from == cs[i].to {
      NothingAdjusted(out.ranges, cs[i]);
    } else {
      ApartStays(PartlyReplaced(ranges, cs, i), prim, out);
    }
  }

  /** With all of them replaced, the cursors are at the ends of the ranges around the new
      texts. */
  lemma CursorsAtEnds(t: Text, sel: Selection, code: seq<Text>)
    requires SelectionIn(t, sel) && |code| == |sel.ranges|
    ensures var cs := Replacements(sel.ranges, code);
      && Replaces(cs, sel.ranges)
      && PartlyReplaced(sel.ranges, cs, |cs|) == sel.ranges
      && PartlyReplaced(sel.ranges, cs, 0) ==
         Cursors(RangeEnds(ReplacedRanges(cs, sel.ranges, 0, Pos(0, 0), Pos(0, 0), true)))
  {
    var cs := Replacements(sel.ranges, code);
    assert Replaces(cs, sel.ranges);
    hide SelectionIn, ReplacedRanges, Replaces, Replacements;
    forall k | 0 <= k < |cs|
      ensures EndsFrom(cs, 0)[k] == ReplacedRanges(cs, sel.ranges, 0, Pos(0, 0), Pos(0, 0), true)[k].To()
    {
      EndsAreReplaced(cs, sel.ranges, 0, Pos(0, 0), Pos(0, 0), k);
    }
  }

  /** The place change i follows: the end of the one before it. */
  function Base(cs: seq<Change>, i: nat): Pos
    requires i <= |cs|
  {
    if i == 0 then Pos(0, 0) else cs[i - 1].to
  }

  lemma {:induction false} OrderedFrom(t: Text, cs: seq<Change>, i: nat)
    requires i <= |cs|
    requires forall k :: 0 <= k < |cs| ==> Changes.Valid(t, cs[k])
    requires forall j, k :: 0 <= j < k < |cs| ==> Cmp(cs[j].to, cs[k].from) < 0
    ensures Ordered(t, cs[i..], Base(cs, i))
    decreases |cs| - i
  {
    if i < |cs| {
      OrderedFrom(t, cs, i + 1);
      assert cs[i..][1..] == cs[i + 1..];
    }
  }

  /** The changes from i on have been applied to t, the last one first. */
  predicate Partly(t: Text, cs: seq<Change>, i: nat, now: Text)
    requires i <= |cs|
  {
    && Ordered(t, cs[i..], Base(cs, i)) && now == FromLast(t, cs[i..], Base(cs, i))
    && (forall k :: 0 <= k < |cs| ==> Changes.Valid(t, cs[k]))
    && (forall j, k :: 0 <= j < k < |cs| ==> Cmp(cs[j].to, cs[k].from) < 0)
  }

  lemma NextReplacement(t: Text, cs: seq<Change>, i: nat, now: Text)
    requires i < |cs| && Partly(t, cs, i + 1, now)
    ensures Changes.Valid(now, cs[i]) && Partly(t, cs, i, Apply(now, cs[i]))
  {
    OrderedFrom(t, cs, i);
    assert cs[i..][1..] == cs[i + 1..];
    EarlierStays(t, now, cs[i..], Base(cs, i));
  }

  lemma AllReplaced(t: Text, cs: seq<Change>, now: Text)
    requires Partly(t, cs, 0, now)
    ensures Ordered(t, cs, Pos(0, 0)) && now == Simultaneous(t, cs, Pos(0, 0))
  {
    assert cs[0..] == cs;
    FromLastIsSimultaneous(t, cs);
  }

  /** At most one version more to undo to than before. */
  predicate OneMoreAtMost(s: State, q: State) {
    Inv(s) && Inv(q) && (Past(q) == Past(s) || Past(q) == [Now(s)] + Past(s))
  }

  /** Nothing recorded since s, or everything recorded joined in one event. */
  predicate OneEvent(s: State, q: State) {
    OneMoreAtMost(s, q) && (q == s || (SameOp(q) && Past(q) != []))
  }

  lemma JoinsOperation(s: State, q: State, c: Change, selAfter: Selection, origin: string, recent: bool)
    requires Inv(q) && Editable(q, c, selAfter)
    ensures Mergeable(q, origin, recent)
    ensures q.curOp.Some? && q.undoDepth == None && OneEvent(s, q) ==>
              OneEvent(s, History.MakeChange(q, c, selAfter, origin, recent))
  {
    hide Inv, Past, Future, Editable, HasEdit, EditNearTop, Merging, Mergeable;
    MakeChangeKeeps(q, c, selAfter, origin, recent);
    HasPast(q, origin, recent);
  }

  lemma NothingRecorded(s: State)
    ensures Inv(s) ==> OneEvent(s, s)
  {
  }

  lemma OneEventIsOneMore(s: State, q: State)
    ensures OneEvent(s, q) ==> OneMoreAtMost(s, q)
    ensures forall r :: OneMoreAtMost(s, q) && Inv(r) && SameVersions(q, r) ==> OneMoreAtMost(s, r)
  {
  }

  class Doc {
    var text: Text
    var sel: Selection
    var done: seq<Event>
    var undone: seq<Event>
    var undoDepth: Option<nat>
    var curOp: Option<nat>
    var lastOp: Option<nat>
    var lastOrigin: string
    var lastSelOrigin: string
    var generation: nat
    var maxGeneration: nat
    var cleanGeneration: nat

    function Snapshot(): State
      reads this
    {
      State(text, sel, done, undone, undoDepth, curOp, lastOp, lastOrigin, lastSelOrigin,
                  generation, maxGeneration, cleanGeneration)
    }

    predicate Valid()
      reads this
    {
      Inv(Snapshot())
    }

    constructor (text: Text, withEditor: bool)
      ensures Snapshot() == Init(text, withEditor) && Valid()
    {
      this.text, sel, done, undone := text, TOP, [], [];
      undoDepth, curOp, lastOp := None, if withEditor then Some(0) else None, None;
      lastOrigin, lastSelOrigin := "", "";
      generation, maxGeneration, cleanGeneration := 1, 1, 1;
    }

    /** Bring the last edit to the top of the stack, if the selections above it may go. */
    method TakeLastChangeEvent(force: bool) returns (found: bool)
      modifies this`done
      ensures (done, found) == LastChangeEvent(old(done), force)
    {
      hide ClearSelectionEvents;
      found := false;
      if force {
        done := DropSelections(done);
        found := |done| > 0;
      } else if |done| > 0 && Top(done).Edit? {
        found := true;
      } else if |done| > 1 && done[|done| - 2].Edit? {
        done := Pop(done);
        found := true;
      }
    }

    /** Add a change to the edit on top, or move the end of its last change. */
    method MergeIntoLast(c: Change)
      requires Changes.Valid(text, c) && |done| > 0 && Top(done).Edit? && |Top(done).changes| > 0
      modifies this`done
      ensures done == Pop(old(done)) + [Top(old(done)).(changes := MergeChange(text, Top(old(done)).changes, c))]
    {
      hide Changes.Valid, HistoryChange;
      var cur := Top(done);
      var last := cur.changes[|cur.changes| - 1];
      if c.from == c.to == last.to {
        last := last.(to := ChangeEnd(c));
        cur := cur.(changes := cur.changes[..|cur.changes| - 1] + [last]);
      } else {
        cur := cur.(changes := cur.changes + [HistoryChange(text, c)]);
      }
      done := Pop(done) + [cur];
    }

    method AddChangeToHistory(c: Change, selAfter: Selection, origin: string, recent: bool)
      requires Valid() && Changes.Valid(text, c)
      modifies this`done, this`undone, this`generation, this`maxGeneration, this`lastOp,
               this`lastOrigin, this`lastSelOrigin
      ensures Mergeable(old(Snapshot()), origin, recent)
      ensures done == Recorded(old(Snapshot()), c, origin, recent) + [Sel(selAfter)] && undone == []
      ensures generation == maxGeneration == old(maxGeneration) + 1
      ensures lastOp == curOp && lastOrigin == lastSelOrigin == origin
      ensures !(c.text == EMPTY && c.from == c.to) && SelectionIn(Apply(text, c), selAfter) ==>
                var q := Snapshot().(text := Apply(text, c), sel := selAfter);
                Inv(q) && RecordsEdit(old(Snapshot()), q, origin, recent)
    {
      hide Apply, Changes.Valid, Inv, SelectionIn, RecordsEdit, Recorded, Mergeable;
      ghost var s := Snapshot();
      MergingKeeps(s, origin, recent);
      undone := [];
      RecordChange(c, s, origin, recent);
      done := done + [Sel(selAfter)];
      maxGeneration := maxGeneration + 1;
      generation := maxGeneration;
      lastOp := curOp;
      lastOrigin, lastSelOrigin := origin, origin;
      EditIsRecorded(s, Snapshot(), c, selAfter, origin, recent);
    }

    /** Let the change join the last event, or start a new one. */
    method RecordChange(c: Change, ghost s: State, origin: string, recent: bool)
      requires Inv(s) && Changes.Valid(text, c) && Mergeable(s, origin, recent) && Snapshot() == s.(undone := [])
      modifies this`done
      ensures done == Recorded(s, c, origin, recent)
    {
      hide Apply, Changes.Valid, HistoryChange, ClearSelectionEvents, Revert, Revertible, Trim, GoodStack, Versions,
        Past, PushSel, Inv;
      MergingKeeps(s, origin, recent);
      var merge := false;
      if MergeWanted(Snapshot(), origin, recent) {
        merge := TakeLastChangeEvent(SameOp(Snapshot()));
      }
      assert (done, merge) == Merging(s, origin, recent);
      if merge {
        MergeIntoLast(c);
      } else {
        StartEvent(c, s, origin, recent);
      }
    }

    method StartEvent(c: Change, ghost s: State, origin: string, recent: bool)
      requires Inv(s) && Mergeable(s, origin, recent) && (done, false) == Merging(s, origin, recent)
      requires s.text == text && s.sel == sel && s.generation == generation && s.undoDepth == undoDepth
      requires Changes.Valid(text, c)
      modifies this`done
      ensures done == Recorded(s, c, origin, recent)
    {
      hide Inv, Merging, GoodStack, Versions, Apply, Changes.Valid, HistoryChange, Trim, Past;
      MergingKeeps(s, origin, recent);
      NewEventIsGood(s, done, c);
      if |done| == 0 || Top(done).Edit? {
        done := PushSel(done, sel);
      }
      done := done + [Edit([HistoryChange(text, c)], generation)];
      done := TrimToDepth(done, undoDepth, Apply(text, c));
    }

    lemma SelectionIsIn()
      requires Valid()
      ensures SelectionIn(text, sel) && HasPrimary(sel)
    {
    }

    method MakeChange(c: Change, origin: string, recent: bool) returns (ghost selAfter: Selection)
      requires Valid() && Changes.Valid(text, c)
      modifies this
      ensures Mergeable(old(Snapshot()), origin, recent)
      ensures Snapshot() == History.MakeChange(old(Snapshot()), c, selAfter, origin, recent)
      ensures Valid() && text == Apply(old(text), c)
      ensures if c.text == EMPTY && c.from == c.to then sel == old(sel)
        else sel == selAfter && SelAfter(old(sel), c, sel)
      ensures Editable(old(Snapshot()), c, selAfter)
      ensures !(c.text == EMPTY && c.from == c.to) ==> RecordsEdit(old(Snapshot()), Snapshot(), origin, recent)
      ensures curOp == old(curOp) && undoDepth == old(undoDepth)
    {
      hide SelectionIn, SelAfter, Inv, Recorded, Mergeable, Merging, Apply, Changes.Valid, Past, Future, Now;
      SelectionIsIn();
      ghost var s := Snapshot();
      if c.text == EMPTY && c.from == c.to {
        selAfter := sel;
        MakeChangeKeeps(s, c, selAfter, origin, recent);
        return;
      }
      var newSel := ComputeSelAfterChange(sel, c);
      selAfter := newSel;
      SelAfterIsIn(text, sel, c, newSel);
      MakeChangeKeeps(s, c, selAfter, origin, recent);
      AddChangeToHistory(c, newSel, origin, recent);
      text := Apply(text, c);
      sel := newSel;
    }

    method SetSelection(sel: Selection, origin: string, similar: bool, clearRedo: bool)
      modifies this
      ensures Snapshot() == History.SetSelection(old(Snapshot()), sel, origin, similar, clearRedo)
      ensures old(Valid()) && SelectionIn(text, sel) ==> Valid() && SameVersions(old(Snapshot()), Snapshot())
    {
      hide SelectionIn, GoodStack, ClearSelectionEvents, Past, Future;
      ghost var s := Snapshot();
      if Inv(s) && SelectionIn(text, sel) {
        SetSelectionKeeps(s, sel, origin, similar, clearRedo);
      }
      this.sel := sel;
      if SameOp(Snapshot()) || (origin != "" && lastSelOrigin == origin && similar) {
        if |done| > 0 {
          done := done[|done| - 1 := Sel(sel)];
        }
      } else {
        done := PushSel(done, sel);
      }
      lastSelOrigin := origin;
      lastOp := curOp;
      if clearRedo {
        undone := DropSelections(undone);
      }
    }

    method SetSelectionReplaceHistory(sel: Selection)
      requires Valid() && SelectionIn(text, sel)
      modifies this
      ensures Snapshot() == History.SetSelectionReplaceHistory(old(Snapshot()), sel)
      ensures Valid() && SameVersions(old(Snapshot()), Snapshot())
    {
      SetSelectionReplaceHistoryKeeps(Snapshot(), sel);
      if |done| > 0 && Top(done).Sel? {
        done := done[|done| - 1 := Sel(sel)];
        this.sel := sel;
      } else {
        SetSelection(sel, "", false, false);
      }
    }

    /** Replace every range of the selection by its text, as edits of one operation. */
    method ReplaceSelections(code: seq<Text>, collapse: Collapse, origin: string, recent: bool)
      requires Valid() && |code| == |sel.ranges|
      modifies this
      ensures Valid()
      ensures var cs := Replacements(old(sel.ranges), code);
              && Ordered(old(text), cs, Pos(0, 0))
              && text == Simultaneous(old(text), cs, Pos(0, 0))
              && var placed := ReplacedRanges(cs, old(sel.ranges), 0, Pos(0, 0), Pos(0, 0), collapse != AtStart);
                 sel == Selection(if collapse == AtEnd then Cursors(RangeEnds(placed)) else placed, old(sel.prim))
      ensures curOp.Some? && undoDepth == None ==>
                OneMoreAtMost(old(Snapshot()), Snapshot())
    {
      hide SelectionIn, Inv, Partly, OneEvent, OneMoreAtMost, Past, ReplacedRanges, Simultaneous, Ordered, Replacements,
        Replaces, PartlyReplaced, Cursors, RangeEnds;
      SelectionIsIn();
      ghost var s0 := Snapshot();
      var changes := Replacements(sel.ranges, code);
      ReplacementsOrdered(text, sel, code);
      var newSel := ComputeReplacedSel(sel, changes, collapse == Around);
      CursorsAtEnds(text, sel, code);
      MakeChangesFromLast(changes, origin, recent, text);
      AllReplaced(s0.text, changes, text);
      OneEventIsOneMore(s0, Snapshot());
      ReplacedIsIn(s0.text, s0.sel, code, collapse == Around);
      if collapse != AtEnd {
        SetSelectionReplaceHistory(newSel);
      }
    }

    method MakeChangesFromLast(changes: seq<Change>, origin: string, recent: bool, ghost t: Text)
      requires Valid() && Partly(t, changes, |changes|, text)
      requires Replaces(changes, sel.ranges) && PartlyReplaced(sel.ranges, changes, |changes|) == sel.ranges
      modifies this
      ensures Valid() && Partly(t, changes, 0, text)
      ensures sel == Selection(PartlyReplaced(old(sel.ranges), changes, 0), old(sel.prim))
      ensures curOp == old(curOp) && undoDepth == old(undoDepth)
      ensures curOp.Some? && undoDepth == None ==> OneEvent(old(Snapshot()), Snapshot())
    {
      hide Inv, Partly, OneEvent, History.MakeChange, Mergeable, Apply, Changes.Valid, SelAfter, Editable, Past,
        SelectionIn, PartlyReplaced, RecordsEdit;
      SelectionIsIn();
      NothingRecorded(Snapshot());
      ghost var s0 := Snapshot();
      var i := |changes|;
      while i > 0
        invariant 0 <= i <= |changes| && Valid()
        invariant Partly(t, changes, i, text)
        invariant sel == Selection(PartlyReplaced(s0.sel.ranges, changes, i), s0.sel.prim)
        invariant curOp == s0.curOp && undoDepth == s0.undoDepth
        invariant curOp.Some? && undoDepth == None ==> OneEvent(s0, Snapshot())
      {
        i := i - 1;
        NextReplacement(t, changes, i, text);
        ghost var q := Snapshot();
        ghost var selAfter := MakeChange(changes[i], origin, recent);
        CursorLeft(s0.sel.ranges, changes, i, s0.sel.prim, sel);
        JoinsOperation(s0, q, changes[i], selAfter, origin, recent);
      }
    }

    /** Apply the changes of an event from the last to the first, keeping the reverse of
        each of them. */
    method RevertChanges(changes: seq<Change>) returns (anti: seq<Change>)
      requires Revertible(text, changes)
      modifies this`text
      ensures text == Revert(old(text), changes) && anti == AntiChanges(old(text), changes)
    {
      hide Apply, HistoryChange, Changes.Valid;
      anti := [];
      var i := |changes|;
      assert changes[..|changes|] == changes;
      while i > 0
        invariant 0 <= i <= |changes|
        invariant Revertible(text, changes[..i])
        invariant Revert(text, changes[..i]) == Revert(old(text), changes)
        invariant anti + AntiChanges(text, changes[..i]) == AntiChanges(old(text), changes)
      {
        i := i - 1;
        var change := changes[i];
        assert changes[..i + 1][i] == change && changes[..i + 1][..i] == changes[..i];
        anti := anti + [HistoryChange(text, change)];
        text := Apply(text, change);
      }
    }

    method MakeChangeFromHistory(undo: bool, selOnly: bool)
      requires Valid()
      modifies this
      ensures Revertable(old(Snapshot()), undo, selOnly)
      ensures Snapshot() == History.MakeChangeFromHistory(old(Snapshot()), undo, selOnly)
      ensures HistoryMoves(old(Snapshot()), Snapshot(), undo) <==> !Spoils(old(Snapshot()), undo, selOnly)
    {
      hide GoodStack, PopTo, Revert, Revertible, AntiChanges, Versions, Past, Future, Inv, PushSel, Usable, SelectionIn,
        Stepped, SameVersions, HistoryProofs.From, History.SetSelection, Spoils, HistoryMoves, FitsWithout;
      ghost var s := Snapshot();
      FromHistoryKeeps(s, undo, selOnly);
      var source, dest := if undo then done else undone, if undo then undone else done;
      var usable := FindUsable(source, sel, selOnly);
      if !usable {
        return;
      }
      lastOrigin, lastSelOrigin := "", "";
      var p := PopEvents(source, dest, sel, selOnly);
      match p.event {
        case Sel(event) =>
          PutStacks(undo, p.source, p.dest);
          SetSelection(event, "", false, false);
        case Edit(changes, gen) =>
          RevertEvent(undo, p);
      }
    }

    method RevertEvent(undo: bool, p: Popped)
      requires p.event.Edit? && Revertible(text, p.event.changes) && |p.source| > 0 && Top(p.source).Sel?
      modifies this
      ensures var s, gen := old(Snapshot()), p.event.generation;
        Snapshot() == WithStacks(s, undo, p.source,
            PushSel(p.dest, p.selAfter) + [Edit(AntiChanges(s.text, p.event.changes), s.generation)]).(
          text := Revert(s.text, p.event.changes), sel := Top(p.source).sel,
          generation := if gen != 0 then gen else s.maxGeneration + 1,
          maxGeneration := if gen != 0 then s.maxGeneration else s.maxGeneration + 1)
    {
      hide Revert, Revertible, AntiChanges, PushSel;
      var anti := RevertChanges(p.event.changes);
      PutStacks(undo, p.source, PushSel(p.dest, p.selAfter) + [Edit(anti, generation)]);
      RestoreGeneration(p.event.generation);
      sel := Top(p.source).sel;
    }

    method RestoreGeneration(gen: nat)
      modifies this`generation, this`maxGeneration
      ensures maxGeneration == if gen != 0 then old(maxGeneration) else old(maxGeneration) + 1
      ensures generation == if gen != 0 then gen else maxGeneration
    {
      if gen != 0 {
        generation := gen;
      } else {
        maxGeneration := maxGeneration + 1;
        generation := maxGeneration;
      }
    }

    method PutStacks(undo: bool, source: seq<Event>, dest: seq<Event>)
      modifies this`done, this`undone
      ensures Snapshot() == WithStacks(old(Snapshot()), undo, source, dest)
    {
      if undo {
        done, undone := source, dest;
      } else {
        done, undone := dest, source;
      }
    }

    method BeginOperation()
      requires Valid()
      modifies this`curOp
      ensures Snapshot() == History.BeginOperation(old(Snapshot())) && Valid() && !SameOp(Snapshot())
    {
      if curOp.Some? {
        curOp := Some(curOp.value + 1);
      }
    }

    method MarkClean()
      requires Valid()
      modifies this
      ensures Snapshot() == History.MarkClean(old(Snapshot())) && Valid()
    {
      lastOp, lastOrigin := None, "";
      cleanGeneration := generation;
    }
  }

  lemma EditIsRecorded(s: State, q: State, c: Change, selAfter: Selection, origin: string, recent: bool)
    requires Inv(s) && Changes.Valid(s.text, c) && Mergeable(s, origin, recent)
    requires q == s.(done := Recorded(s, c, origin, recent) + [Sel(selAfter)], undone := [],
                     generation := s.maxGeneration + 1, maxGeneration := s.maxGeneration + 1,
                     lastOp := s.curOp, lastOrigin := origin, lastSelOrigin := origin)
    ensures !(c.text == EMPTY && c.from == c.to) && SelectionIn(Apply(s.text, c), selAfter) ==>
              var r := q.(text := Apply(s.text, c), sel := selAfter);
              Inv(r) && RecordsEdit(s, r, origin, recent)
  {
    hide Apply, Changes.Valid, Inv, SelectionIn, RecordsEdit, Recorded, Mergeable;
    if !(c.text == EMPTY && c.from == c.to) && SelectionIn(Apply(s.text, c), selAfter) {
      MakeChangeKeeps(s, c, selAfter, origin, recent);
    }
  }

  lemma NewEventIsGood(s: State, d: seq<Event>, c: Change)
    requires Inv(s) && Changes.Valid(s.text, c) && GoodStack(d, s.text)
    ensures var before := if |d| > 0 && Top(d).Sel? then d else PushSel(d, s.sel);
            GoodStack(before + [Edit([HistoryChange(s.text, c)], s.generation)], Apply(s.text, c))
  {
    PushKeeps(d, s.sel, s.text);
    var before := if |d| > 0 && Top(d).Sel? then d else PushSel(d, s.sel);
    OneChangeReverts(s.text, c);
    hide Revert, Revertible, Apply, HistoryChange;
    PushEdit(before, Apply(s.text, c), Edit([HistoryChange(s.text, c)], s.generation));
  }
}
