/** Replacing part of a text, and what happens to positions when it is replaced. */
module Changes {
  import opened Text

  /** Replace what lies between `from` and `to` by `text`. */
  datatype Change = Change(from: Pos, to: Pos, text: Text)

  predicate Valid(t: Text, c: Change) {
    ValidSpan(t, c.from, c.to)
  }

  function Apply(t: Text, c: Change): Text
    requires Valid(t, c)
  {
    Cat(Before(t, c.from), Cat(c.text, After(t, c.to)))
  }

  /** The position of the end of a change, after the change. */
  function ChangeEnd(c: Change): Pos {
    Advance(c.from, c.text)
  }

  /** Over the newline-joined text a change is one splice. */
  lemma ApplyIsSplice(t: Text, c: Change)
    requires Valid(t, c)
    ensures Offset(t, c.from) <= Offset(t, c.to) <= |Join(t)|
    ensures Join(Apply(t, c)) ==
            Join(t)[..Offset(t, c.from)] + Join(c.text) + Join(t)[Offset(t, c.to)..]
  {
    JoinCat(Before(t, c.from), Cat(c.text, After(t, c.to)));
    JoinCat(c.text, After(t, c.to));
    OffsetBounds(t, c.from);
    OffsetBounds(t, c.to);
    CatBetween(t, c.from, c.to);
    JoinCat(Before(t, c.from), Between(t, c.from, c.to));
  }

  // ----- undoing a change

  /** The change the history keeps: it takes the new text back to the old one. */
  function HistoryChange(t: Text, c: Change): Change
    requires Valid(t, c)
  {
    Change(c.from, ChangeEnd(c), Between(t, c.from, c.to))
  }

  /** The kept change is valid in the new text, restores the old text exactly, and
      the change kept for it in turn is the original one. */
  lemma HistoryChangeInverts(t: Text, c: Change)
    requires Valid(t, c)
    ensures Valid(Apply(t, c), HistoryChange(t, c))
    ensures Apply(Apply(t, c), HistoryChange(t, c)) == t
    ensures HistoryChange(Apply(t, c), HistoryChange(t, c)) == c
  {
    var a, m, b := Before(t, c.from), Between(t, c.from, c.to), After(t, c.to);
    SplitAt(t, c.from);
    CatThree(a, c.text, b);
    CatAt(a, Cat(c.text, b));
    CatBetween(t, c.from, c.to);
  }

  /** Typing right behind the last kept change may be recorded by moving that
      change's end: it still restores the same text. */
  lemma ExtendedChangeRestores(t: Text, last: Change, c: Change)
    requires Valid(t, last) && Valid(t, c)
    requires c.from == c.to == last.to
    ensures var extended := last.(to := ChangeEnd(c));
            Valid(Apply(t, c), extended) && Apply(Apply(t, c), extended) == Apply(t, last)
  {
    var a, m, b := Before(t, last.from), Between(t, last.from, last.to), After(t, last.to);
    CatBetween(t, last.from, last.to);
    SplitAt(t, last.from);
    CatAssoc(a, m, Cat(c.text, b));
    CatAssoc(m, c.text, b);
    CatThree(a, Cat(m, c.text), b);
    CatAt(a, Cat(Cat(m, c.text), b));
    AdvanceCat(last.from, m, c.text);
  }

  // ----- positions under a change

  function AdjustForChange(pos: Pos, c: Change): Pos {
    if Cmp(pos, c.from) < 0 then pos
    else if Cmp(pos, c.to) <= 0 then ChangeEnd(c)
    else
      var line := pos.line + |c.text| - (c.to.line - c.from.line) - 1;
      Pos(line, if pos.line == c.to.line then pos.ch + ChangeEnd(c).ch - c.to.ch else pos.ch)
  }

  function OffsetPos(pos: Pos, base: Pos, target: Pos): Pos {
    if pos.line == base.line then Pos(target.line, pos.ch - base.ch + target.ch)
    else Pos(target.line + (pos.line - base.line), pos.ch)
  }

  /** Both position shifts replay, from the new place, the walk made from the old one. */
  lemma ShiftReplaysWalk(base: Pos, target: Pos, walk: Text, c: Change)
    requires Le(c.from, c.to)
    ensures OffsetPos(Advance(base, walk), base, target) == Advance(target, walk)
    ensures AdjustForChange(Advance(c.to, walk), c) == Advance(ChangeEnd(c), walk)
  {
  }

  /** Adjusting a position is the offset map of the splice: offsets before the change
      stay, those it covers go to its end, those behind it shift; and positions outside
      the change keep the text before or after them. */
  lemma AdjustIsOffsetMap(t: Text, c: Change, p: Pos)
    requires Valid(t, c) && ValidPos(t, p)
    ensures ValidPos(Apply(t, c), AdjustForChange(p, c))
    ensures Offset(Apply(t, c), AdjustForChange(p, c)) ==
            if Cmp(p, c.from) < 0 then Offset(t, p)
            else if Cmp(p, c.to) <= 0 then Offset(t, c.from) + |Join(c.text)|
            else Offset(t, p) - Offset(t, c.to) + Offset(t, c.from) + |Join(c.text)|
    ensures Cmp(p, c.from) < 0 ==> Before(Apply(t, c), AdjustForChange(p, c)) == Before(t, p)
    ensures Cmp(p, c.to) > 0 ==> After(Apply(t, c), AdjustForChange(p, c)) == After(t, p)
  {
    if Cmp(p, c.from) < 0 {
      AdjustBefore(t, c, p);
    } else if Cmp(p, c.to) <= 0 {
      CatEmpty(After(t, c.to));
      AdjustInside(t, c, EMPTY, After(t, c.to));
    } else {
      CatBetween(t, c.to, p);
      AdjustInside(t, c, Between(t, c.to, p), After(t, p));
      ShiftReplaysWalk(c.to, c.to, Between(t, c.to, p), c);
      JoinCat(Before(t, c.to), Between(t, c.to, p));
    }
  }

  lemma AdjustBefore(t: Text, c: Change, p: Pos)
    requires Valid(t, c) && ValidPos(t, p) && Cmp(p, c.from) < 0
    ensures ValidPos(Apply(t, c), p) && Before(Apply(t, c), p) == Before(t, p)
  {
    var rest := Cat(c.text, After(t, c.to));
    CatBetween(t, p, c.from);
    CatAssoc(Before(t, p), Between(t, p, c.from), rest);
    SplitAt(t, p);
    CatAt(Before(t, p), Cat(Between(t, p, c.from), rest));
  }

  /** Walking `w` beyond the end of a change, in the new text. */
  lemma AdjustInside(t: Text, c: Change, w: Text, b: Text)
    requires Valid(t, c) && After(t, c.to) == Cat(w, b)
    ensures var p := Advance(ChangeEnd(c), w);
            ValidPos(Apply(t, c), p) &&
            Offset(Apply(t, c), p) == Offset(t, c.from) + |Join(c.text)| + |Join(w)| &&
            After(Apply(t, c), p) == b
  {
    var a := Before(t, c.from);
    SplitAt(t, c.from);
    CatAssoc(c.text, w, b);
    CatThree(a, Cat(c.text, w), b);
    AdvanceCat(c.from, c.text, w);
    JoinCat(a, Cat(c.text, w));
    JoinCat(c.text, w);
  }

  lemma AdjustIsMonotone(t: Text, c: Change, p: Pos, q: Pos)
    requires Valid(t, c) && Le(p, q)
    ensures Le(AdjustForChange(p, c), AdjustForChange(q, c))
  {
  }

  /** Offsets order positions exactly as `Cmp` does. */
  lemma OffsetOrder(t: Text, p: Pos, q: Pos)
    requires ValidPos(t, p) && ValidPos(t, q)
    ensures Offset(t, p) < Offset(t, q) <==> Cmp(p, q) < 0
    ensures Offset(t, p) == Offset(t, q) <==> p == q
  {
    if Cmp(p, q) < 0 {
      OffsetGrows(t, p, q);
    } else if Cmp(q, p) < 0 {
      OffsetGrows(t, q, p);
    }
  }

  lemma OffsetGrows(t: Text, p: Pos, q: Pos)
    requires ValidPos(t, p) && ValidPos(t, q) && Cmp(p, q) < 0
    ensures Offset(t, p) < Offset(t, q)
  {
    CatBetween(t, p, q);
    JoinCat(Before(t, p), Between(t, p, q));
    var m := Between(t, p, q);
    assert |m| > 1 || |m[0]| > 0;
  }
}
