/** The cache of drawn lines: a window on the document's line objects that is adjusted when
    the document is edited or the visible range moves, and patched when it is drawn. */
module View {
  import opened Wrappers
  import opened Text
  import opened Changes
  import opened LineGraph
  import opened LineTree
  import opened DocLines
  import opened Updates

  datatype ChangeType = TextChange | GutterChange | ClassChange | WidgetChange

  /** One drawn line.  `shown` is the text its page element shows, when it has one. */
  class LineView {
    const line: Line
    const size: nat
    var shown: Option<string>
    var changes: seq<ChangeType>

    constructor (line: Line)
      ensures this.line == line && size == 1 && shown == None && changes == []
    {
      this.line, size, shown, changes := line, 1, None, [];
    }
  }

  ghost function Entries(view: seq<LineView>): set<LineView> {
    set v | v in view
  }

  /** Entry i of the view is the line object number `from + i`. */
  ghost predicate Window(view: seq<LineView>, from: nat, to: nat, ls: seq<Line>) {
    && from <= to <= |ls| && |view| == to - from
    && forall i :: 0 <= i < |view| ==> view[i].line == ls[from + i] && view[i].size == 1
  }

  /** What is drawn is the text of the line, unless a change of it is waiting. */
  ghost predicate Current(v: LineView)
    reads v, v.line
  {
    v.shown.Some? && TextChange !in v.changes ==> v.shown.value == v.line.text
  }

  /** From the lines `ls` to the lines `now`, those in front of `from` and those from `to`
      on stay, the latter shifted by `lendiff`. */
  ghost predicate Moved(ls: seq<Line>, now: seq<Line>, from: nat, to: nat, lendiff: int) {
    && from <= to <= |ls| && |now| == |ls| + lendiff && from <= to + lendiff
    && (forall k :: 0 <= k < from ==> now[k] == ls[k])
    && (forall k :: to <= k < |ls| ==> now[k + lendiff] == ls[k])
  }

  predicate EntryAt(view: seq<LineView>, i: int, v: LineView) {
    0 <= i < |view| && view[i] == v
  }

  /** No entry of a line outside the changed range is lost, and lines in it are in view only
      if the view goes beyond it on both sides. */
  ghost predicate NoneLost(was: seq<LineView>, wasFrom: nat, view: seq<LineView>, viewFrom: nat,
    from: nat, to: nat, lendiff: int)
  {
    && (forall j :: 0 <= j < |was| && !(from <= wasFrom + j < to) ==>
          EntryAt(view, wasFrom + j + (if wasFrom + j < from then 0 else lendiff) - viewFrom, was[j]))
    && (from < to + lendiff && |view| > 0 && from < viewFrom + |view| && viewFrom < to + lendiff ==>
          wasFrom < from && to < wasFrom + |was|)
  }

  /** A line outside the changed range that is in view now has the entry it had before. */
  ghost predicate EntriesKept(was: seq<LineView>, wasFrom: nat, view: seq<LineView>, viewFrom: nat,
    from: nat, to: nat, lendiff: int)
  {
    forall i :: 0 <= i < |view| && !(from <= viewFrom + i < to + lendiff) ==>
      EntryAt(was, viewFrom + i - (if viewFrom + i < from then 0 else lendiff) - wasFrom, view[i])
  }

  /** New entries for a range of lines. */
  method BuildViewArray(doc: LineDoc, from: nat, to: nat) returns (view: seq<LineView>)
    requires doc.Valid() && from <= to <= |doc.Lines()|
    ensures doc.Valid() && Window(view, from, to, doc.Lines())
    ensures forall i :: 0 <= i < |view| ==> fresh(view[i]) && view[i].shown == None
  {
    hide WF, HeapOk, Bounded, Sum, NoDup;
    view := [];
    var pos: nat := from;
    while pos < to
      invariant doc.Valid() && pos <= to && Window(view, from, pos, doc.Lines())
      invariant forall i :: 0 <= i < |view| ==> fresh(view[i]) && view[i].shown == None
    {
      var line := doc.GetLine(pos);
      var entry := NewEntry(doc, line);
      view := view + [entry];
      pos := pos + entry.size;
    }
  }

  method NewEntry(doc: LineDoc, line: Line) returns (entry: LineView)
    requires doc.Valid()
    ensures doc.Valid() && fresh(entry) && entry.line == line && entry.size == 1 && entry.shown == None
  {
    hide WF, Bounded, Sum;
    entry := new LineView(line);
  }

  /** The middle of a window replaced by a window on the lines that are there now. */
  lemma MiddleReplaced(view: seq<LineView>, viewFrom: nat, viewTo: nat, middle: seq<LineView>,
    ls: seq<Line>, now: seq<Line>, from: nat, to: nat, lendiff: int)
    requires Window(view, viewFrom, viewTo, ls) && Moved(ls, now, from, to, lendiff)
    requires viewFrom < from <= to < viewTo && Window(middle, from, to + lendiff, now)
    ensures var w := view[..from - viewFrom] + middle + view[to - viewFrom..];
      && Window(w, viewFrom, viewTo + lendiff, now) && EntriesKept(view, viewFrom, w, viewFrom, from, to, lendiff)
      && forall i :: 0 <= i < |w| && from <= viewFrom + i < to + lendiff ==> w[i] == middle[viewFrom + i - from]
  {
  }

  lemma MiddleLosesNone(view: seq<LineView>, viewFrom: nat, viewTo: nat, middle: seq<LineView>,
    from: nat, to: nat, lendiff: int)
    requires viewFrom < from <= to < viewTo && viewTo == viewFrom + |view| && |middle| == to + lendiff - from
    ensures NoneLost(view, viewFrom, view[..from - viewFrom] + middle + view[to - viewFrom..], viewFrom,
              from, to, lendiff)
  {
    var head, tail := view[..from - viewFrom], view[to - viewFrom..];
    var w := head + middle + tail;
    forall j | 0 <= j < |view| && !(from <= viewFrom + j < to)
      ensures EntryAt(w, viewFrom + j + (if viewFrom + j < from then 0 else lendiff) - viewFrom, view[j])
    {
      if viewFrom + j < from {
        assert w[j] == head[j];
      } else {
        assert w[j + lendiff] == tail[j + viewFrom - to];
      }
    }
  }

  /** Before and after a change that does not lie within the view, but for one of its ends. */
  ghost predicate Follows(was: seq<LineView>, wasFrom: nat, view: seq<LineView>, viewFrom: nat,
    from: nat, to: nat, lendiff: int)
  {
    && EntriesKept(was, wasFrom, view, viewFrom, from, to, lendiff)
    && NoneLost(was, wasFrom, view, viewFrom, from, to, lendiff)
    && (from < to + lendiff && |view| > 0 ==> !(from < viewFrom + |view| && viewFrom < to + lendiff))
  }

  lemma Stays(view: seq<LineView>, viewFrom: nat, from: nat, to: nat, lendiff: int)
    requires viewFrom + |view| <= from <= to && from <= to + lendiff
    ensures Follows(view, viewFrom, view, viewFrom, from, to, lendiff)
  {
  }

  lemma MovesOn(view: seq<LineView>, viewFrom: nat, from: nat, to: nat, lendiff: int)
    requires from <= to <= viewFrom && from <= to + lendiff
    ensures Follows(view, viewFrom, view, viewFrom + lendiff, from, to, lendiff)
  {
    hide EntriesKept, NoneLost;
    MovedKeeps(view, viewFrom, from, to, lendiff);
    MovedLosesNone(view, viewFrom, from, to, lendiff);
  }

  lemma MovedKeeps(view: seq<LineView>, viewFrom: nat, from: nat, to: nat, lendiff: int)
    requires from <= to <= viewFrom && from <= to + lendiff
    ensures EntriesKept(view, viewFrom, view, viewFrom + lendiff, from, to, lendiff)
  {
  }

  lemma MovedLosesNone(view: seq<LineView>, viewFrom: nat, from: nat, to: nat, lendiff: int)
    requires from <= to <= viewFrom && from <= to + lendiff
    ensures NoneLost(view, viewFrom, view, viewFrom + lendiff, from, to, lendiff)
  {
    forall j | 0 <= j < |view|
      ensures EntryAt(view, viewFrom + j + (if viewFrom + j < from then 0 else lendiff) - (viewFrom + lendiff), view[j])
    {
    }
  }

  lemma Emptied(was: seq<LineView>, wasFrom: nat, from: nat, to: nat, lendiff: int)
    requires from <= wasFrom && to >= wasFrom + |was|
    ensures Follows(was, wasFrom, [], 0, from, to, lendiff)
  {
  }

  lemma CutOffTop(was: seq<LineView>, wasFrom: nat, from: nat, to: nat, lendiff: int)
    requires from <= wasFrom < to < wasFrom + |was| && from <= to + lendiff
    ensures Follows(was, wasFrom, was[to - wasFrom..], to + lendiff, from, to, lendiff)
  {
  }

  lemma CutOffBottom(was: seq<LineView>, wasFrom: nat, from: nat, to: nat, lendiff: int)
    requires wasFrom < from < wasFrom + |was| <= to
    ensures Follows(was, wasFrom, was[..from - wasFrom], wasFrom, from, to, lendiff)
  {
  }

  /** A window behind the change is one on the lines that are there now. */
  lemma WindowMoves(view: seq<LineView>, viewFrom: nat, viewTo: nat, ls: seq<Line>, now: seq<Line>,
    from: nat, to: nat, lendiff: int)
    requires Window(view, viewFrom, viewTo, ls) && Moved(ls, now, from, to, lendiff) && to <= viewFrom
    ensures 0 <= viewFrom + lendiff && 0 <= viewTo + lendiff && Window(view, viewFrom + lendiff, viewTo + lendiff, now)
  {
  }

  lemma WindowStays(view: seq<LineView>, viewFrom: nat, viewTo: nat, ls: seq<Line>, now: seq<Line>,
    from: nat, to: nat, lendiff: int)
    requires Window(view, viewFrom, viewTo, ls) && Moved(ls, now, from, to, lendiff) && viewTo <= from
    ensures Window(view, viewFrom, viewTo, now)
  {
  }

  lemma MovedBounds(ls: seq<Line>, now: seq<Line>, from: nat, to: nat, lendiff: int)
    requires Moved(ls, now, from, to, lendiff)
    ensures from <= to <= |ls| && from <= to + lendiff
  {
  }

  /** A part of a window. */
  lemma WindowPart(view: seq<LineView>, viewFrom: nat, viewTo: nat, ls: seq<Line>, a: nat, b: nat)
    requires Window(view, viewFrom, viewTo, ls) && viewFrom <= a <= b <= viewTo
    ensures Window(view[a - viewFrom..b - viewFrom], a, b, ls)
  {
  }

  lemma NothingWithin(was: seq<LineView>, wasFrom: nat, view: seq<LineView>, viewFrom: nat,
    from: nat, to: nat, lendiff: int)
    requires Follows(was, wasFrom, view, viewFrom, from, to, lendiff)
    ensures EntriesKept(was, wasFrom, view, viewFrom, from, to, lendiff)
    ensures NoneLost(was, wasFrom, view, viewFrom, from, to, lendiff)
    ensures to + lendiff <= from || |view| == 0 || viewFrom + |view| <= from || to + lendiff <= viewFrom
  {
  }

  class Display {
    var view: seq<LineView>
    var viewFrom: nat
    var viewTo: nat

    constructor ()
      ensures view == [] && viewFrom == viewTo == 0
    {
      view, viewFrom, viewTo := [], 0, 0;
    }

    /** The view is a window on these lines. */
    ghost predicate On(ls: seq<Line>)
      reads this
    {
      Window(view, viewFrom, viewTo, ls)
    }

    /** Nothing drawn is out of date without being marked so. */
    ghost predicate UpToDate()
      reads this, view, set v | v in view :: v.line
    {
      forall v :: v in view ==> Current(v)
    }

    method ResetView()
      modifies this
      ensures view == [] && viewFrom == viewTo == 0
    {
      viewFrom, viewTo, view := 0, 0, [];
    }

    method SetView(view: seq<LineView>, from: nat, to: nat)
      modifies this
      ensures this.view == view && viewFrom == from && viewTo == to
    {
      this.view, viewFrom, viewTo := view, from, to;
    }

    /** The number of the entry that holds a line, if it is in view. */
    method FindViewIndex(n: nat) returns (index: Option<nat>)
      requires |view| == viewTo - viewFrom && forall i :: 0 <= i < |view| ==> view[i].size == 1
      ensures index == if viewFrom <= n < viewTo then Some(n - viewFrom) else None
    {
      if n >= viewTo {
        return None;
      }
      var rest: int := n - viewFrom;
      if rest < 0 {
        return None;
      }
      for i := 0 to |view|
        invariant rest == n - viewFrom - i && rest >= 0
      {
        rest := rest - view[i].size;
        if rest < 0 {
          return Some(i);
        }
      }
      assert false;
    }

    lemma Apart(doc: LineDoc)
      ensures forall c :: c in doc.g.Keys ==> c as object != this
      ensures forall l :: l in LinesOf(doc.g) ==> l as object != this
    {
    }

    /** Register that the lines from `from` to `to` (numbered before the change) were changed,
        and that `lendiff` lines were added in all. */
    method RegChange(doc: LineDoc, from: nat, to: nat, lendiff: int, ghost ls: seq<Line>)
      requires doc.Valid() && On(ls) && Moved(ls, doc.Lines(), from, to, lendiff)
      modifies this
      ensures doc.Valid() && On(doc.Lines())
      ensures EntriesKept(old(view), old(viewFrom), view, viewFrom, from, to, lendiff)
      ensures NoneLost(old(view), old(viewFrom), view, viewFrom, from, to, lendiff)
      ensures forall i :: 0 <= i < |view| && from <= viewFrom + i < to + lendiff ==>
        fresh(view[i]) && view[i].shown == None
    {
      hide WF, Bounded, HeapOk, Sum, NoDup, EntriesKept, NoneLost, Follows, Window;
      Apart(doc);
      if viewFrom < from && to < viewTo {
        ReplaceMiddle(doc, from, to, lendiff, ls);
      } else {
        ghost var was, wasFrom := view, viewFrom;
        CutView(from, to, lendiff, ls, doc.Lines());
        NothingWithin(was, wasFrom, view, viewFrom, from, to, lendiff);
      }
    }

    /** The change covers an end of the view, or all of it, or lies in front of it or behind it. */
    method CutView(from: nat, to: nat, lendiff: int, ghost ls: seq<Line>, ghost now: seq<Line>)
      requires On(ls) && Moved(ls, now, from, to, lendiff) && !(viewFrom < from && to < viewTo)
      modifies this
      ensures On(now) && Follows(old(view), old(viewFrom), view, viewFrom, from, to, lendiff)
    {
      hide Follows, Moved;
      MovedBounds(ls, now, from, to, lendiff);
      if from >= viewTo {
        Stays(view, viewFrom, from, to, lendiff);
        WindowStays(view, viewFrom, viewTo, ls, now, from, to, lendiff);
      } else if to <= viewFrom {
        MovesOn(view, viewFrom, from, to, lendiff);
        WindowMoves(view, viewFrom, viewTo, ls, now, from, to, lendiff);
        SetView(view, viewFrom + lendiff, viewTo + lendiff);
      } else if from <= viewFrom && to >= viewTo {
        Emptied(view, viewFrom, from, to, lendiff);
        ResetView();
      } else if from <= viewFrom {
        CutOffTop(view, viewFrom, from, to, lendiff);
        WindowPart(view, viewFrom, viewTo, ls, to, viewTo);
        WindowMoves(view[to - viewFrom..], to, viewTo, ls, now, from, to, lendiff);
        CutTop(to, lendiff);
      } else {
        CutOffBottom(view, viewFrom, from, to, lendiff);
        WindowPart(view, viewFrom, viewTo, ls, viewFrom, from);
        WindowStays(view[..from - viewFrom], viewFrom, from, ls, now, from, to, lendiff);
        CutBottom(from);
      }
    }

    /** The change covers the beginning of the view. */
    method CutTop(to: nat, lendiff: int)
      requires |view| == viewTo - viewFrom && forall i :: 0 <= i < |view| ==> view[i].size == 1
      requires viewFrom < to < viewTo && 0 <= to + lendiff
      modifies this
      ensures view == old(view[to - viewFrom..]) && viewFrom == to + lendiff && viewTo == old(viewTo) + lendiff
    {
      var cut := FindViewIndex(to);
      SetView(view[cut.value..], to + lendiff, viewTo + lendiff);
    }

    /** The change covers the end of the view. */
    method CutBottom(from: nat)
      requires |view| == viewTo - viewFrom && forall i :: 0 <= i < |view| ==> view[i].size == 1
      requires viewFrom < from < viewTo
      modifies this
      ensures view == old(view[..from - viewFrom]) && viewFrom == old(viewFrom) && viewTo == from
    {
      var cut := FindViewIndex(from);
      SetView(view[..cut.value], viewFrom, from);
    }

    /** The change lies within the view. */
    method ReplaceMiddle(doc: LineDoc, from: nat, to: nat, lendiff: int, ghost ls: seq<Line>)
      requires doc.Valid() && On(ls) && Moved(ls, doc.Lines(), from, to, lendiff)
      requires viewFrom < from <= to < viewTo
      modifies this
      ensures doc.Valid() && On(doc.Lines())
      ensures EntriesKept(old(view), old(viewFrom), view, viewFrom, from, to, lendiff)
      ensures NoneLost(old(view), old(viewFrom), view, viewFrom, from, to, lendiff)
      ensures forall i :: 0 <= i < |view| && from <= viewFrom + i < to + lendiff ==>
        fresh(view[i]) && view[i].shown == None
    {
      hide WF, HeapOk, Bounded, Sum, NoDup, EntriesKept, NoneLost;
      Apart(doc);
      var cutTop := FindViewIndex(from);
      var cutBot := FindViewIndex(to);
      var middle := BuildViewArray(doc, from, to + lendiff);
      MiddleReplaced(view, viewFrom, viewTo, middle, ls, doc.Lines(), from, to, lendiff);
      MiddleLosesNone(view, viewFrom, viewTo, middle, from, to, lendiff);
      SetView(view[..cutTop.value] + middle + view[cutBot.value..], viewFrom, viewTo + lendiff);
    }

    /** Register a change of one line. */
    method RegLineChange(n: nat, kind: ChangeType)
      requires |view| == viewTo - viewFrom && forall i :: 0 <= i < |view| ==> view[i].size == 1
      modifies Entries(view)`changes
      ensures forall i :: 0 <= i < |view| && (viewFrom <= n < viewTo ==> view[i] != view[n - viewFrom]) ==>
        view[i].changes == old(view[i].changes)
      ensures viewFrom <= n < viewTo ==>
        var v := view[n - viewFrom];
        v.changes == if v.shown == None || kind in old(v.changes) then old(v.changes) else old(v.changes) + [kind]
    {
      if n < viewFrom || n >= viewTo {
        return;
      }
      var index := FindViewIndex(n);
      var lineView := view[index.value];
      if lineView.shown == None {
        return;
      }
      if kind !in lineView.changes {
        lineView.changes := lineView.changes + [kind];
      }
    }

    /** Let the view begin at a line, adding entries or cutting them off. */
    method CoverFrom(doc: LineDoc, from: nat)
      requires doc.Valid() && On(doc.Lines()) && from < viewTo
      modifies this
      ensures doc.Valid() && On(doc.Lines()) && viewFrom == from && viewTo == old(viewTo)
      ensures forall i :: 0 <= i < |view| ==>
        if from + i < old(viewFrom) then fresh(view[i]) && view[i].shown == None
        else view[i] == old(view)[from + i - old(viewFrom)]
    {
      hide WF, HeapOk, Bounded, Sum, NoDup;
      Apart(doc);
      if viewFrom > from {
        var front := BuildViewArray(doc, from, viewFrom);
        SetView(front + view, from, viewTo);
      } else if viewFrom < from {
        var cut := FindViewIndex(from);
        SetView(view[cut.value..], from, viewTo);
      }
    }

    /** Let the view end at a line. */
    method CoverTo(doc: LineDoc, to: nat)
      requires doc.Valid() && On(doc.Lines()) && viewFrom <= to <= |doc.Lines()|
      modifies this
      ensures doc.Valid() && On(doc.Lines()) && viewFrom == old(viewFrom) && viewTo == to
      ensures forall i :: 0 <= i < |view| ==>
        if viewFrom + i < old(viewTo) then view[i] == old(view)[i] else fresh(view[i]) && view[i].shown == None
    {
      hide WF, HeapOk, Bounded, Sum, NoDup;
      Apart(doc);
      if viewTo < to {
        var back := BuildViewArray(doc, viewTo, to);
        SetView(view + back, viewFrom, to);
      } else if viewTo > to {
        var cut := FindViewIndex(to);
        SetView(view[..cut.value], viewFrom, to);
      }
    }

    /** Make the view cover a range of lines: lines that were in view keep their entries. */
    method AdjustView(doc: LineDoc, from: nat, to: nat)
      requires doc.Valid() && On(doc.Lines()) && from <= to <= |doc.Lines()|
      modifies this
      ensures doc.Valid() && On(doc.Lines()) && viewFrom == from && viewTo == to
      ensures forall i :: 0 <= i < |view| ==>
        if old(viewFrom) <= from + i < old(viewTo) then view[i] == old(view)[from + i - old(viewFrom)]
        else fresh(view[i]) && view[i].shown == None
    {
      hide WF, HeapOk, Bounded, Sum, NoDup;
      Apart(doc);
      if |view| == 0 || from >= viewTo || to <= viewFrom {
        var all := BuildViewArray(doc, from, to);
        SetView(all, from, to);
      } else {
        CoverFrom(doc, from);
        CoverTo(doc, to);
      }
    }

    /** Draw what is not drawn yet and draw again what has changed. */
    method PatchDisplay()
      requires UpToDate()
      modifies Entries(view)`shown, Entries(view)`changes
      ensures UpToDate()
      ensures forall i :: 0 <= i < |view| ==> view[i].shown == Some(view[i].line.text) && view[i].changes == []
    {
      for i := 0 to |view|
        invariant forall j :: i <= j < |view| ==> Current(view[j])
        invariant forall j :: 0 <= j < i ==> view[j].shown == Some(view[j].line.text) && view[j].changes == []
      {
        var lineView := view[i];
        if lineView.shown == None {
          lineView.shown, lineView.changes := Some(lineView.line.text), [];
        } else {
          UpdateLineForChanges(lineView);
        }
      }
    }

    method UpdateLineForChanges(lineView: LineView)
      modifies lineView`shown, lineView`changes
      ensures lineView.changes == []
      ensures lineView.shown == if TextChange in old(lineView.changes) then Some(lineView.line.text)
        else old(lineView.shown)
    {
      for j := 0 to |lineView.changes|
        invariant lineView.changes == old(lineView.changes)
        invariant lineView.shown ==
          if TextChange in lineView.changes[..j] then Some(lineView.line.text) else old(lineView.shown)
      {
        if lineView.changes[j] == TextChange {
          lineView.shown := Some(lineView.line.text);
        }
      }
      lineView.changes := [];
    }

    /** Show a range of lines: afterwards what is drawn is the text of the document there. */
    method Show(doc: LineDoc, from: nat, to: nat)
      requires doc.Valid() && On(doc.Lines()) && UpToDate() && from <= to <= |doc.Lines()|
      modifies this, Entries(view)
      ensures doc.Valid() && doc.Lines() == old(doc.Lines()) && On(doc.Lines()) && UpToDate()
      ensures viewFrom == from && viewTo == to
      ensures forall i :: 0 <= i < to - from ==> view[i].shown == Some(doc.Lines()[from + i].text)
    {
      hide WF, HeapOk, Bounded, Sum, NoDup;
      Apart(doc);
      AdjustView(doc, from, to);
      assert forall v :: v in view ==> v in old(view) || v.shown == None;
      PatchDisplay();
    }

    /** Entries for lines outside a range are up to date. */
    ghost predicate CurrentOutside(from: nat, to: nat)
      reads this, view, set v | v in view :: v.line
    {
      forall i :: 0 <= i < |view| && !(from <= viewFrom + i < to) ==> Current(view[i])
    }

    /** Register an edit that was made to the lines. */
    method RegisterEdit(doc: LineDoc, c: Change, wholeLineUpdateBefore: bool, ghost ls: seq<Line>)
      requires doc.Valid() && On(ls) && 0 <= c.from.line <= c.to.line
      requires Moved(ls, doc.Lines(), c.from.line, c.to.line + 1, LenDiff(c))
      requires OneLineEdit(c, wholeLineUpdateBefore) ==> doc.Lines() == ls
      requires CurrentOutside(c.from.line, c.to.line + 1)
      modifies this, Entries(view)`changes
      ensures doc.Valid() && doc.g == old(doc.g) && On(doc.Lines()) && UpToDate()
      ensures if OneLineEdit(c, wholeLineUpdateBefore) then view == old(view) && viewFrom == old(viewFrom)
        else NoneLost(old(view), old(viewFrom), view, viewFrom, c.from.line, c.to.line + 1, LenDiff(c))
    {
      hide WF, HeapOk, Bounded, Sum, NoDup;
      Apart(doc);
      if OneLineEdit(c, wholeLineUpdateBefore) {
        RegisterText(c.from.line, ls);
      } else {
        RegChange(doc, c.from.line, c.to.line + 1, LenDiff(c), ls);
      }
    }

    /** Register that the text of one line changed. */
    method RegisterText(n: nat, ghost ls: seq<Line>)
      requires On(ls) && CurrentOutside(n, n + 1)
      modifies Entries(view)`changes
      ensures UpToDate()
    {
      RegLineChange(n, TextChange);
      forall i | 0 <= i < |view| ensures Current(view[i]) {
        assert viewFrom + i != n ==> old(Current(view[i]));
      }
    }

    /** Change the lines behind the view: entries for lines outside the change stay right. */
    method EditBehind(doc: LineDoc, c: Change, wholeLineUpdateBefore: bool, estimate: string -> nat)
      requires doc.Valid() && |doc.Lines()| > 0 && Valid(Texts(doc.Lines()), c)
      requires On(doc.Lines()) && UpToDate()
      modifies doc`g, doc`H, doc.g.Keys, SetOf(doc.Lines())
      ensures doc.Valid() && Texts(doc.Lines()) == Apply(old(Texts(doc.Lines())), c)
      ensures Moved(old(doc.Lines()), doc.Lines(), c.from.line, c.to.line + 1, LenDiff(c))
      ensures OneLineEdit(c, wholeLineUpdateBefore) ==> doc.Lines() == old(doc.Lines())
      ensures CurrentOutside(c.from.line, c.to.line + 1)
    {
      hide WF, HeapOk, Bounded, Sum, Apply, Texts, Kept, Moved;
      ghost var ls := doc.Lines();
      EditLines(doc, c, wholeLineUpdateBefore, estimate);
      forall i | 0 <= i < |view| && !(c.from.line <= viewFrom + i < c.to.line + 1) ensures Current(view[i]) {
        assert old(Current(view[i]));
        assert view[i].line == ls[viewFrom + i];
      }
    }

    /** An edit in the editor: change the lines, then register what was changed. */
    method MakeChangeInEditor(doc: LineDoc, c: Change, wholeLineUpdateBefore: bool, estimate: string -> nat)
      requires doc.Valid() && |doc.Lines()| > 0 && Valid(Texts(doc.Lines()), c)
      requires On(doc.Lines()) && UpToDate()
      modifies doc`g, doc`H, doc.g.Keys, SetOf(doc.Lines()), this, Entries(view)`changes
      ensures doc.Valid() && Texts(doc.Lines()) == Apply(old(Texts(doc.Lines())), c)
      ensures On(doc.Lines()) && UpToDate()
      ensures if OneLineEdit(c, wholeLineUpdateBefore) then view == old(view) && viewFrom == old(viewFrom)
        else NoneLost(old(view), old(viewFrom), view, viewFrom, c.from.line, c.to.line + 1, LenDiff(c))
    {
      hide WF, HeapOk, Bounded, Sum, Apply, Texts, Moved, UpToDate, CurrentOutside, Window, NoneLost;
      ghost var ls := doc.Lines();
      EditBehind(doc, c, wholeLineUpdateBefore, estimate);
      RegisterEdit(doc, c, wholeLineUpdateBefore, ls);
    }
  }

  /** How many lines a change adds. */
  function LenDiff(c: Change): int {
    |c.text| - (c.to.line - c.from.line) - 1
  }

  predicate OneLineEdit(c: Change, wholeLineUpdateBefore: bool) {
    c.from.line == c.to.line && |c.text| == 1 && !IsWholeLineUpdate(c, wholeLineUpdateBefore)
  }

  /** Update the document: lines outside the change keep their texts and move by the
      number of lines added. */
  method EditLines(doc: LineDoc, c: Change, wholeLineUpdateBefore: bool, estimate: string -> nat)
    requires doc.Valid() && |doc.Lines()| > 0 && Valid(Texts(doc.Lines()), c)
    modifies doc`g, doc`H, doc.g.Keys, SetOf(doc.Lines())
    ensures doc.Valid() && Texts(doc.Lines()) == Apply(old(Texts(doc.Lines())), c)
    ensures Moved(old(doc.Lines()), doc.Lines(), c.from.line, c.to.line + 1, LenDiff(c))
    ensures OneLineEdit(c, wholeLineUpdateBefore) ==> doc.Lines() == old(doc.Lines())
    ensures forall k :: 0 <= k < |old(doc.Lines())| && !(c.from.line <= k < c.to.line + 1) ==>
      old(doc.Lines())[k].text == old(doc.Lines()[k].text)
  {
    hide WF, HeapOk, Bounded, Sum, Apply, Texts, Kept, Moved, NoDup, LinesOf, SetOf;
    ghost var ls, t: Text := doc.Lines(), Texts(doc.Lines());
    UpdateDoc(doc, c, wholeLineUpdateBefore, estimate);
    ghost var now := doc.Lines();
    ghost var head, tail := HeadKept(c, wholeLineUpdateBefore), TailKept(|ls|, c, wholeLineUpdateBefore);
    SameLength(t, c);
    KeptMoves(ls, now, head, tail, c.from.line, c.to.line + 1, LenDiff(c));
    OldTextsStay(ls, now, t, c);
    if OneLineEdit(c, wholeLineUpdateBefore) {
      KeptAll(ls, now, head, tail);
    }
    TextsOutside(ls, now, t, c);
  }

  /** Where the lines only moved, so did the texts. */
  lemma TextsOutside(ls: seq<Line>, now: seq<Line>, t: Text, c: Change)
    requires |t| == |ls| && Valid(t, c) && Texts(now) == Apply(t, c)
    requires Moved(ls, now, c.from.line, c.to.line + 1, LenDiff(c))
    ensures forall k :: 0 <= k < |ls| && !(c.from.line <= k < c.to.line + 1) ==> ls[k].text == t[k]
  {
  }

  lemma SameLength(t: Text, c: Change)
    requires Valid(t, c)
    ensures |Apply(t, c)| == |t| + LenDiff(c)
  {
    ApplyOutside(t, c);
  }

  /** Lines the change only moves have the texts they had. */
  lemma OldTextsStay(ls: seq<Line>, now: seq<Line>, t: Text, c: Change)
    requires Valid(t, c) && |t| == |ls| && Texts(now) == Apply(t, c)
    requires Moved(ls, now, c.from.line, c.to.line + 1, LenDiff(c))
    ensures forall k :: 0 <= k < |ls| && !(c.from.line <= k < c.to.line + 1) ==> ls[k].text == t[k]
  {
    ApplyOutside(t, c);
    hide Apply, LenDiff;
    forall k | 0 <= k < |ls| && !(c.from.line <= k < c.to.line + 1) ensures ls[k].text == t[k] {
      var j := if k < c.from.line then k else k + LenDiff(c);
      assert now[j] == ls[k] && Texts(now)[j] == now[j].text;
    }
  }

  lemma KeptAll(ls: seq<Line>, now: seq<Line>, head: nat, tail: nat)
    requires Kept(ls, now, head, tail) && |now| == |ls| == head + tail
    ensures now == ls
  {
  }

  /** Outside the lines it touches, a change only moves lines. */
  lemma ApplyOutside(t: Text, c: Change)
    requires Valid(t, c)
    ensures |Apply(t, c)| == |t| + LenDiff(c)
    ensures forall k :: 0 <= k < c.from.line ==> Apply(t, c)[k] == t[k]
    ensures forall k :: c.to.line < k < |t| ==> Apply(t, c)[k + LenDiff(c)] == t[k]
  {
  }

  lemma KeptMoves(ls: seq<Line>, now: seq<Line>, head: nat, tail: nat, from: nat, to: nat, lendiff: int)
    requires Kept(ls, now, head, tail) && |now| == |ls| + lendiff
    requires from <= head && |ls| - tail <= to <= |ls| && from <= to && from <= to + lendiff
    ensures Moved(ls, now, from, to, lendiff)
  {
  }
}
