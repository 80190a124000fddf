/** Two-dimensional positions and offsets into the whole text. */
module Positions {
  import opened Wrappers
  import opened Text
  import opened Changes

  /** A position as a caller may give it: without a column it means the end of the line. */
  datatype Given = Given(line: int, ch: Option<int>)

  function ClipToLen(line: int, ch: Option<int>, len: nat): Pos {
    if ch == None || ch.value > len then Pos(line, len)
    else if ch.value < 0 then Pos(line, 0)
    else Pos(line, ch.value)
  }

  function Distance(a: int, b: int): nat {
    if a < b then b - a else a - b
  }

  /** The position nearest to a given one that exists in the text. */
  function ClipPos(t: Text, p: Given): (r: Pos)
    ensures ValidPos(t, r)
    ensures forall q :: ValidPos(t, q) && q.line == p.line && p.ch == Some(q.ch) ==> r == q
    ensures p.line < 0 ==> r == Pos(0, 0)
    ensures p.line >= |t| ==> r == End(t)
    ensures 0 <= p.line < |t| ==> r.line == p.line && (p.ch == None ==> r.ch == |t[p.line]|)
    ensures 0 <= p.line < |t| && p.ch.Some? ==>
              forall ch: nat :: ch <= |t[p.line]| ==> Distance(r.ch, p.ch.value) <= Distance(ch, p.ch.value)
  {
    if p.line < 0 then Pos(0, 0)
    else if p.line > |t| - 1 then Pos(|t| - 1, |t[|t| - 1]|)
    else ClipToLen(p.line, p.ch, |t[p.line]|)
  }

  /** Clipping keeps the order of positions. */
  lemma ClipIsMonotone(t: Text, p: Pos, q: Pos)
    requires Le(p, q)
    ensures Le(ClipPos(t, Given(p.line, Some(p.ch))), ClipPos(t, Given(q.line, Some(q.ch))))
  {
  }

  // ----- offsets line by line

  /** The characters of lines up to line n, each with the line break behind it. */
  ghost function Upto(t: seq<string>, n: nat): nat
    requires n <= |t|
  {
    if n == 0 then 0 else Upto(t, n - 1) + |t[n - 1]| + 1
  }

  lemma {:induction false} UptoPrefix(t: seq<string>, u: seq<string>, n: nat)
    requires n <= |t| && n <= |u| && t[..n] == u[..n]
    ensures Upto(t, n) == Upto(u, n)
  {
    if n > 0 {
      assert t[n - 1] == t[..n][n - 1] && u[n - 1] == u[..n][n - 1];
      assert t[..n - 1] == t[..n][..n - 1] && u[..n - 1] == u[..n][..n - 1];
      UptoPrefix(t, u, n - 1);
    }
  }

  lemma {:induction false} JoinLength(t: Text)
    ensures |Join(t)| == Upto(t, |t| - 1) + |Last(t)|
  {
    if |t| > 1 {
      var front: Text := t[..|t| - 1];
      JoinLength(front);
      UptoPrefix(t, front, |t| - 2);
      JoinCat(front, ["", Last(t)]);
      assert Last(front) + "" == Last(front);
      assert Cat(front, ["", Last(t)]) == t;
    }
  }

  lemma OffsetIs(t: Text, p: Pos)
    requires ValidPos(t, p)
    ensures Offset(t, p) == Upto(t, p.line) + p.ch
  {
    JoinLength(Before(t, p));
    UptoPrefix(t, Before(t, p), p.line);
  }

  /** The offset of a given position, after clipping. */
  method IndexFromPos(t: Text, coords: Given) returns (index: nat)
    ensures index == Offset(t, ClipPos(t, coords))
  {
    var pos := ClipPos(t, coords);
    index := pos.ch;
    var n := 0;
    while n < pos.line
      invariant n <= pos.line && index == pos.ch + Upto(t, n)
    {
      index := index + |t[n]| + 1;
      n := n + 1;
    }
    OffsetIs(t, pos);
  }

  function Clamp(n: int, max: nat): nat {
    if n < 0 then 0 else if n > max then max else n
  }

  /** The position at an offset; offsets outside the text mean its start or its end. */
  method PosFromIndex(t: Text, index: int) returns (pos: Pos)
    ensures ValidPos(t, pos) && Offset(t, pos) == Clamp(index, |Join(t)|)
  {
    var off, lineNo, ch := index, 0, None;
    while lineNo < |t|
      invariant lineNo <= |t| && off == index - Upto(t, lineNo) && (lineNo > 0 ==> off >= 0)
    {
      var sz := |t[lineNo]| + 1;
      if sz > off {
        ch := Some(off);
        break;
      }
      off := off - sz;
      lineNo := lineNo + 1;
    }
    pos := ClipPos(t, Given(lineNo, ch));
    OffsetIs(t, pos);
    OffsetBounds(t, pos);
    OffsetIs(t, End(t));
    JoinLength(t);
  }

  /** Going to the offset of a position and back gives the clipped position, and going to
      the position of an offset and back gives the clamped offset. */
  method RoundTrip(t: Text, coords: Given, index: int) returns (pos: Pos, off: nat)
    ensures pos == ClipPos(t, coords)
    ensures off == Clamp(index, |Join(t)|)
  {
    var i := IndexFromPos(t, coords);
    pos := PosFromIndex(t, i);
    OffsetBounds(t, ClipPos(t, coords));
    OffsetOrder(t, pos, ClipPos(t, coords));
    var p := PosFromIndex(t, index);
    off := IndexFromPos(t, Given(p.line, Some(p.ch)));
  }
}
