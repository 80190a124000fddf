/** Applying a change to the line objects: which lines are edited, which are taken out of
    the tree and which are put in, so that the texts of the lines become the new text. */
module Updates {
  import opened Wrappers
  import opened Text
  import opened Changes
  import opened LineGraph
  import opened LineTree
  import opened DocLines

  ghost function Texts(ls: seq<Line>): (t: seq<string>)
    reads ls
    ensures |t| == |ls| && forall i :: 0 <= i < |ls| ==> t[i] == ls[i].text
  {
    seq(|ls|, i requires 0 <= i < |ls| reads ls => ls[i].text)
  }

  lemma TextsAre(ls: seq<Line>, t: seq<string>)
    requires |ls| == |t| && forall i :: 0 <= i < |ls| ==> ls[i].text == t[i]
    ensures Texts(ls) == t
  {
  }

  /** A change that replaces whole lines by whole lines. */
  predicate IsWholeLineUpdate(c: Change, wholeLineUpdateBefore: bool) {
    c.from.ch == 0 && c.to.ch == 0 && Last(c.text) == "" && wholeLineUpdateBefore
  }

  // ----- the new text, line by line

  lemma SplicedIs<T>(s: seq<T>, at: nat, n: nat, added: seq<T>)
    requires at + n <= |s|
    ensures Spliced(s, at, n, added) == s[..at] + added + s[at + n..]
  {
  }

  lemma CatAfterBreak(a: Text, b: Text)
    requires Last(a) == ""
    ensures Cat(a, b) == a[..|a| - 1] + b
  {
    assert "" + b[0] == b[0];
    assert b == [b[0]] + b[1..];
  }

  lemma WholeLines(t: Text, c: Change)
    requires Valid(t, c) && IsWholeLineUpdate(c, true)
    ensures Apply(t, c) == Spliced(t, c.from.line, c.to.line - c.from.line, c.text[..|c.text| - 1])
  {
    hide Spliced, Cat;
    var added := c.text[..|c.text| - 1];
    SplicedIs(t, c.from.line, c.to.line - c.from.line, added);
    assert Before(t, c.from) == t[..c.from.line] + [""];
    assert After(t, c.to) == t[c.to.line..] by {
      assert t[c.to.line..] == [t[c.to.line]] + t[c.to.line + 1..];
    }
    CatAfterBreak(c.text, After(t, c.to));
    CatAfterBreak(Before(t, c.from), Cat(c.text, After(t, c.to)));
    assert Before(t, c.from)[..c.from.line] == t[..c.from.line];
  }

  lemma OneText(t: Text, c: Change)
    requires Valid(t, c) && |c.text| == 1
    ensures Apply(t, c) == Spliced(
      t[c.from.line := t[c.from.line][..c.from.ch] + c.text[0] + t[c.to.line][c.to.ch..]],
      c.from.line + 1, c.to.line - c.from.line, [])
  {
    var head, tail := t[c.from.line][..c.from.ch], t[c.to.line][c.to.ch..];
    assert head + (c.text[0] + tail) == head + c.text[0] + tail;
  }

  lemma ManyInOneLine(t: Text, c: Change)
    requires Valid(t, c) && |c.text| > 1 && c.from.line == c.to.line
    ensures Apply(t, c) == Spliced(
      t[c.from.line := t[c.from.line][..c.from.ch] + c.text[0]],
      c.from.line + 1, 0, c.text[1..|c.text| - 1] + [Last(c.text) + t[c.from.line][c.to.ch..]])
  {
  }

  lemma ManyOverLines(t: Text, c: Change)
    requires Valid(t, c) && |c.text| > 1 && c.from.line < c.to.line
    ensures Apply(t, c) == Spliced(
      t[c.from.line := t[c.from.line][..c.from.ch] + c.text[0]]
       [c.to.line := Last(c.text) + t[c.to.line][c.to.ch..]],
      c.from.line + 1, c.to.line - c.from.line - 1, c.text[1..|c.text| - 1])
  {
  }

  // ----- lines

  /** Change the text of a line and estimate its height again. */
  method UpdateLine(doc: LineDoc, line: Line, text: string, estimate: string -> nat)
    requires doc.Valid() && line in doc.Lines()
    modifies doc`H, doc.g.Keys`height, line`text, line`height
    ensures doc.Valid() && doc.g == old(doc.g) && line.text == text && line.height == estimate(text)
  {
    hide WF, Bounded, Sum, HeapOk;
    SetText(doc, line, text);
    var height := estimate(line.text);
    if height != line.height {
      doc.UpdateLineHeight(line, height);
    }
    Estimated(doc, line, height);
  }

  lemma Estimated(doc: LineDoc, line: Line, height: nat)
    requires doc.Valid() && line in doc.Lines()
    requires line in doc.H && doc.H[line] == height
    ensures line.height == height
  {
    doc.OwnLeaf(line);
  }

  method SetText(doc: LineDoc, line: Line, text: string)
    requires doc.Valid() && line in doc.Lines()
    modifies line`text
    ensures doc.Valid() && line.text == text && line in doc.H && doc.H[line] == line.height
  {
    hide WF, Bounded, Sum, NoDup, Local;
    doc.OwnLeaf(line);
    line.text := text;
    forall c | c in doc.g ensures Mirrors(c, doc.g, doc.H) && LeafOk(doc.g, c, doc.H) {
      assert old(Mirrors(c, doc.g, doc.H) && LeafOk(doc.g, c, doc.H));
    }
  }

  /** New lines with the given texts. */
  method NewLines(texts: seq<string>, estimate: string -> nat) returns (added: seq<Line>)
    ensures fresh(SetOf(added)) && NoDup(added) && Texts(added) == texts
    ensures forall l :: l in added ==> l.parent == null && l.height == estimate(l.text)
  {
    added := [];
    for i := 0 to |texts|
      invariant |added| == i && NoDup(added) && forall l :: l in added ==> fresh(l)
      invariant forall j :: 0 <= j < i ==> added[j].text == texts[j]
      invariant forall l :: l in added ==> l.parent == null && l.height == estimate(l.text)
    {
      var line := new Line(texts[i], estimate(texts[i]));
      assert line !in SetOf(added);
      added := added + [line];
    }
  }

  /** New lines beside a document. */
  method LinesFor(doc: LineDoc, texts: seq<string>, estimate: string -> nat) returns (added: seq<Line>)
    requires doc.Valid()
    ensures doc.Valid() && fresh(SetOf(added)) && NoDup(added) && Texts(added) == texts
    ensures forall l :: l in added ==> l.parent == null && l.height == estimate(l.text) && l !in doc.Lines()
  {
    hide WF, Bounded, Sum;
    added := NewLines(texts, estimate);
    forall l | l in doc.Lines() ensures l.parent != null {
      doc.OwnLeaf(l);
    }
  }

  ghost function Spliced<T>(s: seq<T>, at: nat, n: nat, added: seq<T>): seq<T>
    requires at + n <= |s|
  {
    Insert(Delete(s, at, n), at, added)
  }

  lemma TextsSpliced(ls: seq<Line>, at: nat, n: nat, added: seq<Line>)
    requires at + n <= |ls|
    ensures Texts(Spliced(ls, at, n, added)) == Spliced(Texts(ls), at, n, Texts(added))
  {
  }

  /** The first `head` and the last `tail` lines are the same objects; the others are new. */
  ghost predicate Kept(before: seq<Line>, after: seq<Line>, head: nat, tail: nat) {
    && head + tail <= |before| && head + tail <= |after|
    && after[..head] == before[..head] && after[|after| - tail..] == before[|before| - tail..]
    && forall k :: head <= k < |after| - tail ==> after[k] !in before
  }

  /** Of a document with n lines, how many lines in front of and behind a change stay. */
  function HeadKept(c: Change, before: bool): nat
    requires c.from.line >= 0
  {
    if IsWholeLineUpdate(c, before) then c.from.line else c.from.line + 1
  }

  function TailKept(n: nat, c: Change, before: bool): nat
    requires 0 <= c.from.line <= c.to.line < n
  {
    if IsWholeLineUpdate(c, before) || (c.from.line < c.to.line && |c.text| > 1) then n - c.to.line
    else n - c.to.line - 1
  }

  /** Edit line k. */
  method EditLine(doc: LineDoc, k: nat, line: Line, text: string, estimate: string -> nat)
    requires doc.Valid() && k < |doc.Lines()| && doc.Lines()[k] == line
    modifies doc`H, doc.g.Keys`height, line`text, line`height
    ensures doc.Valid() && doc.g == old(doc.g) && doc.Lines() == old(doc.Lines())
    ensures Texts(doc.Lines()) == old(Texts(doc.Lines()))[k := text] && line.height == estimate(text)
  {
    hide WF, Bounded, HeapOk, Sum, Texts;
    LinesDiffer(doc);
    UpdateLine(doc, line, text, estimate);
  }

  lemma LinesDiffer(doc: LineDoc)
    requires doc.Valid()
    ensures NoDup(doc.Lines())
  {
  }

  lemma DeleteLeaves<T>(s: seq<T>, at: nat, n: nat)
    requires at + n <= |s|
    ensures |Delete(s, at, n)| == |s| - n && forall x :: x in Delete(s, at, n) ==> x in s
  {
  }

  lemma NothingSpliced<T>(s: seq<T>, at: nat)
    requires at <= |s|
    ensures Delete(s, at, 0) == s && Insert(s, at, []) == s
  {
  }

  /** Take out n lines at line `at`, and put others there. */
  method ReplaceLines(doc: LineDoc, at: nat, n: nat, added: seq<Line>)
    requires doc.Valid() && at + n <= |doc.Lines()| && NoDup(added)
    requires forall l :: l in added ==> l.parent == null && l !in doc.Lines()
    modifies doc`g, doc`H, doc.g.Keys, SetOf(doc.Lines())`parent, SetOf(added)`parent
    ensures doc.Valid() && fresh(doc.g.Keys - old(doc.g.Keys))
    ensures doc.Lines() == Spliced(old(doc.Lines()), at, n, added)
    ensures Texts(doc.Lines()) == Spliced(old(Texts(doc.Lines())), at, n, old(Texts(added)))
  {
    hide WF, Bounded, HeapOk, Sum, Texts, NoDup, Insert, Delete;
    ghost var L := doc.Lines();
    DeleteLeaves(L, at, n);
    NothingSpliced(L, at);
    NothingSpliced(Delete(L, at, n), at);
    if n > 0 {
      doc.Remove(at, n);
    }
    if |added| > 0 {
      doc.Insert(at, added);
    }
    TextsSpliced(L, at, n, added);
    TextsAre(L, old(Texts(L)));
    TextsAre(added, old(Texts(added)));
  }

  /** Taking out a stretch of lines and putting others there keeps the lines around it. */
  lemma SpliceKeeps(ls: seq<Line>, at: nat, n: nat, added: seq<Line>)
    requires at + n <= |ls| && forall l :: l in added ==> l !in ls
    ensures Kept(ls, Spliced(ls, at, n, added), at, |ls| - at - n)
    ensures forall l :: l in Spliced(ls, at, n, added) ==> l in ls || l in added
  {
  }

  method UpdateWholeLines(doc: LineDoc, c: Change, estimate: string -> nat)
    requires doc.Valid() && |doc.Lines()| > 0 && Valid(Texts(doc.Lines()), c) && IsWholeLineUpdate(c, true)
    modifies doc`g, doc`H, doc.g.Keys, SetOf(doc.Lines())
    ensures doc.Valid() && fresh(doc.g.Keys - old(doc.g.Keys))
    ensures Texts(doc.Lines()) == Apply(old(Texts(doc.Lines())), c)
    ensures Kept(old(doc.Lines()), doc.Lines(), c.from.line, |old(doc.Lines())| - c.to.line)
    ensures forall l :: l in doc.Lines() ==>
      (l in old(doc.Lines()) && l.height == old(l.height) && l.text == old(l.text)) || l.height == estimate(l.text)
  {
    hide WF, Bounded, HeapOk, Sum, Apply, Texts, Kept, Spliced, NoDup, Before, After, Between;
    ghost var L, t: Text := doc.Lines(), Texts(doc.Lines());
    var lastLine := doc.GetLine(c.to.line);
    var added := LinesFor(doc, c.text[..|c.text| - 1], estimate);
    EditLine(doc, c.to.line, lastLine, lastLine.text, estimate);
    TextsAre(L, t);
    TextsAre(added, c.text[..|c.text| - 1]);
    ReplaceLines(doc, c.from.line, c.to.line - c.from.line, added);
    SpliceKeeps(L, c.from.line, c.to.line - c.from.line, added);
    WholeLines(t, c);
  }

  method UpdateOneLine(doc: LineDoc, c: Change, firstLine: Line, estimate: string -> nat)
    requires doc.Valid() && |doc.Lines()| > 0 && Valid(Texts(doc.Lines()), c)
    requires c.from.line == c.to.line && doc.Lines()[c.from.line] == firstLine
    modifies doc`g, doc`H, doc.g.Keys, SetOf(doc.Lines())
    ensures doc.Valid() && fresh(doc.g.Keys - old(doc.g.Keys))
    ensures Texts(doc.Lines()) == Apply(old(Texts(doc.Lines())), c)
    ensures Kept(old(doc.Lines()), doc.Lines(), c.from.line + 1, |old(doc.Lines())| - c.to.line - 1)
    ensures forall l :: l in doc.Lines() ==>
      (l in old(doc.Lines()) && l.height == old(l.height) && l.text == old(l.text)) || l.height == estimate(l.text)
  {
    hide WF, Bounded, HeapOk, Sum, Apply, Texts, Kept, Spliced, NoDup, Before, After, Between;
    ghost var L, t: Text := doc.Lines(), Texts(doc.Lines());
    if |c.text| == 1 {
      var text := firstLine.text[..c.from.ch] + Last(c.text) + firstLine.text[c.to.ch..];
      EditLine(doc, c.from.line, firstLine, text, estimate);
      SplicedNone(Texts(L), c.from.line + 1);
      SplicedNone(L, c.from.line + 1);
      SpliceKeeps(L, c.from.line + 1, 0, []);
      OneText(t, c);
    } else {
      ghost var texts := c.text[1..|c.text| - 1] + [Last(c.text) + t[c.from.line][c.to.ch..]];
      var added := LinesFor(doc, c.text[1..|c.text| - 1] + [Last(c.text) + firstLine.text[c.to.ch..]], estimate);
      var text := firstLine.text[..c.from.ch] + c.text[0];
      EditLine(doc, c.from.line, firstLine, text, estimate);
      TextsAre(added, texts);
      ReplaceLines(doc, c.from.line + 1, 0, added);
      SpliceKeeps(L, c.from.line + 1, 0, added);
      ManyInOneLine(t, c);
    }
  }

  lemma NoLines()
    ensures NoDup<Line>([])
  {
  }

  lemma SplicedNone<T>(s: seq<T>, at: nat)
    requires at <= |s|
    ensures Spliced(s, at, 0, []) == s
  {
  }

  method JoinLines(doc: LineDoc, c: Change, firstLine: Line, lastLine: Line, estimate: string -> nat)
    requires doc.Valid() && |doc.Lines()| > 0 && Valid(Texts(doc.Lines()), c) && c.from.line < c.to.line
      && |c.text| == 1
    requires doc.Lines()[c.from.line] == firstLine && doc.Lines()[c.to.line] == lastLine
    modifies doc`g, doc`H, doc.g.Keys, SetOf(doc.Lines())
    ensures doc.Valid() && fresh(doc.g.Keys - old(doc.g.Keys))
    ensures Texts(doc.Lines()) == Apply(old(Texts(doc.Lines())), c)
    ensures Kept(old(doc.Lines()), doc.Lines(), c.from.line + 1, |old(doc.Lines())| - c.to.line - 1)
    ensures forall l :: l in doc.Lines() ==>
      (l in old(doc.Lines()) && l.height == old(l.height) && l.text == old(l.text)) || l.height == estimate(l.text)
  {
    hide WF, Bounded, HeapOk, Sum, Apply, Texts, Kept, Spliced, NoDup, Before, After, Between;
    ghost var L, t: Text := doc.Lines(), Texts(doc.Lines());
    var nlines := c.to.line - c.from.line;
    LinesDiffer(doc);
    EditLine(doc, c.from.line, firstLine,
      firstLine.text[..c.from.ch] + c.text[0] + lastLine.text[c.to.ch..], estimate);
    NoLines();
    ReplaceLines(doc, c.from.line + 1, nlines, []);
    TextsAre([], []);
    SpliceKeeps(L, c.from.line + 1, nlines, []);
    OneText(t, c);
  }

  method EditEnds(doc: LineDoc, c: Change, firstLine: Line, lastLine: Line, estimate: string -> nat)
    requires doc.Valid() && |doc.Lines()| > 0 && Valid(Texts(doc.Lines()), c) && c.from.line < c.to.line
    requires doc.Lines()[c.from.line] == firstLine && doc.Lines()[c.to.line] == lastLine && firstLine != lastLine
    modifies doc`H, doc.g.Keys`height, firstLine`text, firstLine`height, lastLine`text, lastLine`height
    ensures doc.Valid() && doc.g == old(doc.g)
    ensures Texts(doc.Lines()) == old(Texts(doc.Lines()))
      [c.from.line := old(firstLine.text)[..c.from.ch] + c.text[0]]
      [c.to.line := Last(c.text) + old(lastLine.text)[c.to.ch..]]
    ensures firstLine.height == estimate(firstLine.text) && lastLine.height == estimate(lastLine.text)
  {
    hide WF, Bounded, HeapOk, Sum, Texts;
    EditLine(doc, c.from.line, firstLine, firstLine.text[..c.from.ch] + c.text[0], estimate);
    EditLine(doc, c.to.line, lastLine, Last(c.text) + lastLine.text[c.to.ch..], estimate);
  }

  method UpdateOverLines(doc: LineDoc, c: Change, firstLine: Line, lastLine: Line, estimate: string -> nat)
    requires doc.Valid() && |doc.Lines()| > 0 && Valid(Texts(doc.Lines()), c) && c.from.line < c.to.line && |c.text| > 1
    requires doc.Lines()[c.from.line] == firstLine && doc.Lines()[c.to.line] == lastLine
    modifies doc`g, doc`H, doc.g.Keys, SetOf(doc.Lines())
    ensures doc.Valid() && fresh(doc.g.Keys - old(doc.g.Keys))
    ensures Texts(doc.Lines()) == Apply(old(Texts(doc.Lines())), c)
    ensures Kept(old(doc.Lines()), doc.Lines(), c.from.line + 1, |old(doc.Lines())| - c.to.line)
    ensures forall l :: l in doc.Lines() ==>
      (l in old(doc.Lines()) && l.height == old(l.height) && l.text == old(l.text)) || l.height == estimate(l.text)
  {
    hide WF, Bounded, HeapOk, Sum, Apply, Texts, Kept, Spliced, NoDup, Before, After, Between;
    ghost var L, t: Text := doc.Lines(), Texts(doc.Lines());
    var nlines := c.to.line - c.from.line;
    LinesDiffer(doc);
    EditEnds(doc, c, firstLine, lastLine, estimate);
    var added := LinesFor(doc, c.text[1..|c.text| - 1], estimate);
    ReplaceLines(doc, c.from.line + 1, nlines - 1, added);
    SpliceKeeps(L, c.from.line + 1, nlines - 1, added);
    ManyOverLines(t, c);
  }

  /** Perform a change on the lines of a document.  The texts become those of the change
      applied to the old texts, lines outside the change stay the same objects, the lines
      between them are new, and every line whose text was touched has its estimated height. */
  method UpdateDoc(doc: LineDoc, c: Change, wholeLineUpdateBefore: bool, estimate: string -> nat)
    requires doc.Valid() && |doc.Lines()| > 0 && Valid(Texts(doc.Lines()), c)
    modifies doc`g, doc`H, doc.g.Keys, SetOf(doc.Lines())
    ensures doc.Valid() && fresh(doc.g.Keys - old(doc.g.Keys))
    ensures Texts(doc.Lines()) == Apply(old(Texts(doc.Lines())), c)
    ensures Kept(old(doc.Lines()), doc.Lines(),
      HeadKept(c, wholeLineUpdateBefore), TailKept(|old(doc.Lines())|, c, wholeLineUpdateBefore))
    ensures forall l :: l in doc.Lines() ==>
      (l in old(doc.Lines()) && l.height == old(l.height) && l.text == old(l.text)) || l.height == estimate(l.text)
  {
    hide WF, Bounded, HeapOk, Sum, Apply, Texts, Kept;
    var firstLine := doc.GetLine(c.from.line);
    var lastLine := doc.GetLine(c.to.line);
    LinesDiffer(doc);
    if IsWholeLineUpdate(c, wholeLineUpdateBefore) {
      UpdateWholeLines(doc, c, estimate);
    } else if firstLine == lastLine {
      UpdateOneLine(doc, c, firstLine, estimate);
    } else if |c.text| == 1 {
      JoinLines(doc, c, firstLine, lastLine, estimate);
    } else {
      UpdateOverLines(doc, c, firstLine, lastLine, estimate);
    }
  }
}
