/** Replacing several disjoint parts of a text at once. */
module Replacing {
  import opened Text
  import opened Changes
  import opened Selections

  /** The changes follow each other in the text, none before `base`. */
  predicate Ordered(t: Text, cs: seq<Change>, base: Pos) {
    && ValidPos(t, base)
    && (|cs| > 0 ==> Valid(t, cs[0]) && Le(base, cs[0].from) && Ordered(t, cs[1..], cs[0].to))
  }

  /** What becomes of the text behind `base` when all parts are replaced simultaneously:
      what lies between them stays, each of them gives way to its new text. */
  function Simultaneous(t: Text, cs: seq<Change>, base: Pos): Text
    requires Ordered(t, cs, base)
  {
    if |cs| == 0 then After(t, base)
    else Cat(Between(t, base, cs[0].from), Cat(cs[0].text, Simultaneous(t, cs[1..], cs[0].to)))
  }

  /** The changes applied one by one, the last one first. */
  function FromLast(t: Text, cs: seq<Change>, base: Pos): (r: Text)
    requires Ordered(t, cs, base)
    ensures |cs| > 0 ==> Valid(FromLast(t, cs[1..], cs[0].to), cs[0])
    ensures r == Cat(Before(t, base), Simultaneous(t, cs, base))
  {
    if |cs| == 0 then
      SplitAt(t, base);
      t
    else
      var u := FromLast(t, cs[1..], cs[0].to);
      EarlierStays(t, u, cs, base);
      Apply(u, cs[0])
  }

  lemma EarlierStays(t: Text, u: Text, cs: seq<Change>, base: Pos)
    requires Ordered(t, cs, base) && |cs| > 0
    requires u == Cat(Before(t, cs[0].to), Simultaneous(t, cs[1..], cs[0].to))
    ensures Valid(u, cs[0])
    ensures Apply(u, cs[0]) == Cat(Before(t, base), Simultaneous(t, cs, base))
  {
    var c, rest := cs[0], Simultaneous(t, cs[1..], cs[0].to);
    CatBetween(t, c.from, c.to);
    SplitAt(t, c.from);
    CatAssoc(Before(t, c.from), Between(t, c.from, c.to), rest);
    CatThree(Before(t, c.from), Between(t, c.from, c.to), rest);
    CatAt(Before(t, c.from), Cat(Between(t, c.from, c.to), rest));
    CatBetween(t, base, c.from);
    CatAssoc(Before(t, base), Between(t, base, c.from), Cat(c.text, rest));
  }

  /** Applying sorted, disjoint changes from the last to the first is replacing all the
      parts simultaneously. */
  lemma FromLastIsSimultaneous(t: Text, cs: seq<Change>)
    requires Ordered(t, cs, Pos(0, 0))
    ensures FromLast(t, cs, Pos(0, 0)) == Simultaneous(t, cs, Pos(0, 0))
  {
    assert Before(t, Pos(0, 0)) == EMPTY;
    CatEmpty(Simultaneous(t, cs, Pos(0, 0)));
  }

  /** One step of the forward pass over the changes: shifting a change's start and end
      from the old text to the new one gives the span of its text there. */
  lemma PassStep(t: Text, cs: seq<Change>, base: Pos, n: Text, target: Pos)
    requires Ordered(t, cs, base) && |cs| > 0
    requires ValidPos(n, target) && After(n, target) == Simultaneous(t, cs, base)
    ensures var from, to := OffsetPos(cs[0].from, base, target), OffsetPos(ChangeEnd(cs[0]), base, target);
            && ValidSpan(n, target, from) && ValidSpan(n, from, to)
            && Between(n, target, from) == Between(t, base, cs[0].from)
            && Between(n, from, to) == cs[0].text
            && After(n, to) == Simultaneous(t, cs[1..], cs[0].to)
  {
    var c, rest := cs[0], Simultaneous(t, cs[1..], cs[0].to);
    var gap := Between(t, base, c.from);
    CatBetween(t, base, c.from);
    AdvanceCat(base, gap, c.text);
    ShiftReplaysWalk(base, target, gap, Change(base, base, gap));
    ShiftReplaysWalk(base, target, Cat(gap, c.text), Change(base, base, gap));
    AdvanceCat(target, gap, c.text);
    SplitAt(n, target);
    var head := Before(n, target);
    CatThree(head, gap, Cat(c.text, rest));
    CatAssoc(head, gap, Cat(c.text, rest));
    EndCat(head, gap);
    CatThree(Cat(head, gap), c.text, rest);
    CatAt(Cat(head, gap), Cat(c.text, rest));
  }

  /** What lies in front of the text of change i once all parts are replaced. */
  function Head(t: Text, cs: seq<Change>, i: nat): Text
    requires i < |cs| && Chained(t, cs)
  {
    if i == 0 then Before(t, cs[0].from)
    else Cat(Cat(Head(t, cs, i - 1), cs[i - 1].text), Between(t, cs[i - 1].to, cs[i].from))
  }

  predicate Chained(t: Text, cs: seq<Change>) {
    && (forall i :: 0 <= i < |cs| ==> Valid(t, cs[i]))
    && (forall i :: 0 < i < |cs| ==> Le(cs[i - 1].to, cs[i].from))
  }

  lemma {:induction false} OrderedIsChained(t: Text, cs: seq<Change>, base: Pos)
    requires Ordered(t, cs, base)
    ensures Chained(t, cs)
  {
    if |cs| > 0 {
      OrderedIsChained(t, cs[1..], cs[0].to);
      forall i | 0 < i < |cs| ensures Le(cs[i - 1].to, cs[i].from) {
        assert cs[1..][i - 1] == cs[i];
        assert i > 1 ==> cs[1..][i - 2] == cs[i - 1];
      }
    }
  }

  /** The range spans, in the new text n, exactly the text of change i: with "around" in
      the direction of the replaced range, otherwise shrunk to its start. */
  predicate Placed(n: Text, t: Text, cs: seq<Change>, i: nat, r: Range, old': Range, around: bool)
    requires i < |cs| && Chained(t, cs)
  {
    var to := if around then r.To() else Advance(r.head, cs[i].text);
    && ValidSpan(n, r.From(), to)
    && Before(n, r.From()) == Head(t, cs, i) && Between(n, r.From(), to) == cs[i].text
    && (if around then r.Inverted() <==> old'.Inverted() && cs[i].text != EMPTY else r.Empty())
  }

  function ReplacedRange(from: Pos, to: Pos, old': Range, around: bool): Range {
    if !around then Range(from, from)
    else if old'.Inverted() then Range(to, from)
    else Range(from, to)
  }

  /** The ranges the forward pass yields for change i and those after it, once it stands
      at base in the old and at target in the new text. */
  function ReplacedRanges(cs: seq<Change>, olds: seq<Range>, i: nat, base: Pos, target: Pos, around: bool)
    : (rs: seq<Range>)
    requires i <= |cs| == |olds|
    ensures |rs| == |cs| - i
    decreases |cs| - i
  {
    if i == |cs| then []
    else
      var from, to := OffsetPos(cs[i].from, base, target), OffsetPos(ChangeEnd(cs[i]), base, target);
      [ReplacedRange(from, to, olds[i], around)] + ReplacedRanges(cs, olds, i + 1, cs[i].to, to, around)
  }

  /** The selection left behind when every range of the selection is replaced: around
      the new texts, or in front of them. */
  method ComputeReplacedSel(sel: Selection, changes: seq<Change>, around: bool) returns (out: Selection)
    requires |sel.ranges| == |changes|
    ensures out == Selection(ReplacedRanges(changes, sel.ranges, 0, Pos(0, 0), Pos(0, 0), around), sel.prim)
  {
    hide ReplacedRanges, OffsetPos, ChangeEnd;
    var ranges: seq<Range> := [];
    var base, target := Pos(0, 0), Pos(0, 0);
    for i := 0 to |changes|
      invariant ranges + ReplacedRanges(changes, sel.ranges, i, base, target, around) ==
                ReplacedRanges(changes, sel.ranges, 0, Pos(0, 0), Pos(0, 0), around)
    {
      var change := changes[i];
      var from := OffsetPos(change.from, base, target);
      var to := OffsetPos(ChangeEnd(change), base, target);
      NextReplaced(changes, sel.ranges, i, base, target, around);
      base, target := change.to, to;
      if around {
        var inv := sel.ranges[i].Inverted();
        ranges := ranges + [Range(if inv then to else from, if inv then from else to)];
      } else {
        ranges := ranges + [Range(from, from)];
      }
    }
    NoneReplaced(changes, sel.ranges, base, target, around);
    out := Selection(ranges, sel.prim);
  }

  lemma NextReplaced(cs: seq<Change>, olds: seq<Range>, i: nat, base: Pos, target: Pos, around: bool)
    requires i < |cs| == |olds|
    ensures var from, to := OffsetPos(cs[i].from, base, target), OffsetPos(ChangeEnd(cs[i]), base, target);
      ReplacedRanges(cs, olds, i, base, target, around) ==
        [ReplacedRange(from, to, olds[i], around)] + ReplacedRanges(cs, olds, i + 1, cs[i].to, to, around)
  {
  }

  lemma NoneReplaced(cs: seq<Change>, olds: seq<Range>, base: Pos, target: Pos, around: bool)
    requires |cs| == |olds|
    ensures ReplacedRanges(cs, olds, |cs|, base, target, around) == []
  {
  }

  /** The ranges of that selection are exactly the final places of the new texts. */
  lemma ReplacedRangesArePlaced(t: Text, cs: seq<Change>, olds: seq<Range>, around: bool)
    requires Ordered(t, cs, Pos(0, 0)) && |olds| == |cs|
    ensures Chained(t, cs)
    ensures var rs := ReplacedRanges(cs, olds, 0, Pos(0, 0), Pos(0, 0), around);
            forall i :: 0 <= i < |cs| ==>
              Placed(Simultaneous(t, cs, Pos(0, 0)), t, cs, i, rs[i], olds[i], around)
  {
    OrderedIsChained(t, cs, Pos(0, 0));
    var n := Simultaneous(t, cs, Pos(0, 0));
    assert cs[0..] == cs && After(n, Pos(0, 0)) == n;
    assert Reached(t, cs, 0, Pos(0, 0), n, Pos(0, 0));
    hide Reached, Placed;
    forall i | 0 <= i < |cs|
      ensures Placed(n, t, cs, i, ReplacedRanges(cs, olds, 0, Pos(0, 0), Pos(0, 0), around)[i], olds[i], around)
    {
      PassPlaces(t, cs, olds, 0, i, Pos(0, 0), n, Pos(0, 0), around);
    }
  }

  lemma {:induction false} PassPlaces(t: Text, cs: seq<Change>, olds: seq<Range>, i: nat, j: nat,
                                      base: Pos, n: Text, target: Pos, around: bool)
    requires i <= j < |cs| == |olds| && Chained(t, cs) && Reached(t, cs, i, base, n, target)
    ensures Placed(n, t, cs, j, ReplacedRanges(cs, olds, i, base, target, around)[j - i], olds[j], around)
    decreases j - i
  {
    hide Reached, Placed, Chained, OffsetPos, ChangeEnd;
    HeadReached(t, cs, i, base, n, target);
    var from, to := OffsetPos(cs[i].from, base, target), OffsetPos(ChangeEnd(cs[i]), base, target);
    if i == j {
      PlacedRange(n, t, cs, i, from, to, olds[i], around);
    } else {
      PassPlaces(t, cs, olds, i + 1, j, cs[i].to, n, to, around);
    }
  }

  /** The pass has dealt with i changes: it stands behind the last of them in both texts. */
  predicate Reached(t: Text, cs: seq<Change>, i: nat, base: Pos, n: Text, target: Pos)
    requires i <= |cs| && Chained(t, cs)
  {
    && Ordered(t, cs[i..], base) && ValidPos(n, target)
    && After(n, target) == Simultaneous(t, cs[i..], base)
    && (if i == 0 then base == target == Pos(0, 0)
        else base == cs[i - 1].to && Before(n, target) == Cat(Head(t, cs, i - 1), cs[i - 1].text))
  }

  predicate Spanned(t: Text, cs: seq<Change>, i: nat, n: Text, from: Pos, to: Pos)
    requires i < |cs| && Chained(t, cs)
  {
    && ValidSpan(n, from, to) && to == Advance(from, cs[i].text)
    && Before(n, from) == Head(t, cs, i) && Between(n, from, to) == cs[i].text
  }

  lemma HeadReached(t: Text, cs: seq<Change>, i: nat, base: Pos, n: Text, target: Pos)
    requires i < |cs| && Chained(t, cs) && Reached(t, cs, i, base, n, target)
    ensures var from, to := OffsetPos(cs[i].from, base, target), OffsetPos(ChangeEnd(cs[i]), base, target);
            Spanned(t, cs, i, n, from, to) && Reached(t, cs, i + 1, cs[i].to, n, to)
  {
    assert cs[i..][0] == cs[i] && cs[i..][1..] == cs[i + 1..];
    PassStep(t, cs[i..], base, n, target);
    var from, to := OffsetPos(cs[i].from, base, target), OffsetPos(ChangeEnd(cs[i]), base, target);
    CatBetween(n, target, from);
    CatBetween(n, from, to);
    if i == 0 {
      CatBetween(t, base, cs[0].from);
      assert Before(n, target) == Before(t, base) == EMPTY;
    }
  }

  lemma PlacedRange(n: Text, t: Text, cs: seq<Change>, i: nat, from: Pos, to: Pos, old': Range, around: bool)
    requires i < |cs| && Chained(t, cs) && Spanned(t, cs, i, n, from, to)
    ensures Placed(n, t, cs, i, ReplacedRange(from, to, old', around), old', around)
  {
  }

  /** The ranges of the forward pass keep the gaps of the ones they replace; from change i
      on they come after the place the pass has reached. */
  lemma {:induction false} ReplacedApart(cs: seq<Change>, olds: seq<Range>, i: nat, base: Pos, target: Pos,
    around: bool)
    requires i <= |cs| == |olds| && Gaps(cs) && (i > 0 ==> base == cs[i - 1].to)
    ensures var rs := ReplacedRanges(cs, olds, i, base, target, around);
      Apart(rs, |rs|) && (i > 0 ==> forall k :: 0 <= k < |rs| ==> Cmp(target, rs[k].From()) < 0)
    decreases |cs| - i
  {
    if i < |cs| {
      var from, to := OffsetPos(cs[i].from, base, target), OffsetPos(ChangeEnd(cs[i]), base, target);
      ReplacedApart(cs, olds, i + 1, cs[i].to, to, around);
      ReplacedFirst(cs, i, base, target);
      hide OffsetPos, ChangeEnd;
    }
  }

  function Adjusted(ps: seq<Pos>, c: Change): (qs: seq<Pos>)
    ensures |qs| == |ps|
  {
    seq(|ps|, k requires 0 <= k < |ps| => AdjustForChange(ps[k], c))
  }

  /** Where the texts of the changes from i on end once these are made, the last one first. */
  function EndsFrom(cs: seq<Change>, i: nat): (ends: seq<Pos>)
    requires i <= |cs|
    ensures |ends| == |cs| - i
    decreases |cs| - i
  {
    if i == |cs| then [] else [ChangeEnd(cs[i])] + Adjusted(EndsFrom(cs, i + 1), cs[i])
  }

  predicate Ascending(ps: seq<Pos>) {
    forall j, k :: 0 <= j < k < |ps| ==> Cmp(ps[j], ps[k]) < 0
  }

  predicate NoneBefore(ps: seq<Pos>, p: Pos) {
    forall k :: 0 <= k < |ps| ==> Le(p, ps[k])
  }

  lemma {:induction false} EndsAscend(cs: seq<Change>, i: nat)
    requires i <= |cs| && Gaps(cs)
    ensures Ascending(EndsFrom(cs, i)) && (i < |cs| ==> NoneBefore(EndsFrom(cs, i), cs[i].from))
    decreases |cs| - i
  {
    if i < |cs| {
      EndsAscend(cs, i + 1);
      EndsBehind(cs, i);
      hide Cmp, ChangeEnd, AdjustForChange, Gaps;
    }
  }

  /** The ends of later texts lie behind a change and stay in order behind its end. */
  lemma EndsBehind(cs: seq<Change>, i: nat)
    requires i < |cs| && Gaps(cs) && Ascending(EndsFrom(cs, i + 1))
    requires i + 1 < |cs| ==> NoneBefore(EndsFrom(cs, i + 1), cs[i + 1].from)
    ensures Le(cs[i].from, ChangeEnd(cs[i]))
    ensures var ends := EndsFrom(cs, i + 1);
      && (forall k :: 0 <= k < |ends| ==> Cmp(cs[i].to, ends[k]) < 0)
      && (forall k :: 0 <= k < |ends| ==> Cmp(ChangeEnd(cs[i]), Adjusted(ends, cs[i])[k]) < 0)
      && Ascending(Adjusted(ends, cs[i])) && NoneBefore(Adjusted(ends, cs[i]), cs[i].from)
  {
    var ends, c := EndsFrom(cs, i + 1), cs[i];
    forall k | 0 <= k < |ends| ensures Cmp(c.to, ends[k]) < 0 {
      assert Le(cs[i + 1].from, ends[k]);
    }
    hide EndsFrom, Gaps;
    forall k | 0 <= k < |ends|
      ensures Cmp(ChangeEnd(c), Adjusted(ends, c)[k]) < 0 && Le(c.from, Adjusted(ends, c)[k])
    {
    }
  }

  /** Moving a position on past two changes. */
  lemma ShiftTwice(p: Pos, c: Change, base: Pos, target: Pos)
    requires Cmp(c.to, p) < 0 && Le(base, c.from) && Le(c.from, c.to)
    ensures OffsetPos(AdjustForChange(p, c), base, target) ==
            OffsetPos(p, c.to, OffsetPos(ChangeEnd(c), base, target))
  {
  }

  lemma EndOfReplaced(from: Pos, to: Pos, old': Range)
    requires Le(from, to)
    ensures ReplacedRange(from, to, old', true).To() == to
  {
  }

  /** The places where the texts end, found from the last change to the first, are those
      where the ranges around the texts end, found from the first to the last. */
  lemma {:induction false} EndsAreReplaced(cs: seq<Change>, olds: seq<Range>, i: nat, base: Pos, target: Pos, k: nat)
    requires i <= i + k < |cs| == |olds| && Gaps(cs)
    requires if i > 0 then base == cs[i - 1].to else Le(base, cs[0].from)
    ensures OffsetPos(EndsFrom(cs, i)[k], base, target) == ReplacedRanges(cs, olds, i, base, target, true)[k].To()
    decreases k
  {
    hide OffsetPos, ChangeEnd, AdjustForChange, Ascending, Cmp;
    ReplacedFirst(cs, i, base, target);
    if k > 0 {
      EndsAscend(cs, i + 1);
      EndsBehind(cs, i);
      ShiftTwice(EndsFrom(cs, i + 1)[k - 1], cs[i], base, target);
      EndsAreReplaced(cs, olds, i + 1, cs[i].to, OffsetPos(ChangeEnd(cs[i]), base, target), k - 1);
    } else {
      EndOfReplaced(OffsetPos(cs[i].from, base, target), OffsetPos(ChangeEnd(cs[i]), base, target), olds[i]);
    }
  }

  /** Changes that do not touch. */
  predicate Gaps(cs: seq<Change>) {
    && (forall i :: 0 <= i < |cs| ==> Le(cs[i].from, cs[i].to))
    && forall i :: 0 < i < |cs| ==> Cmp(cs[i - 1].to, cs[i].from) < 0
  }

  lemma ReplacedFirst(cs: seq<Change>, i: nat, base: Pos, target: Pos)
    requires i < |cs| && Gaps(cs) && (i > 0 ==> base == cs[i - 1].to)
    ensures var from, to := OffsetPos(cs[i].from, base, target), OffsetPos(ChangeEnd(cs[i]), base, target);
      Le(from, to) && (i > 0 ==> Cmp(target, from) < 0)
  {
  }
}
