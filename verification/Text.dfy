/** Document text as the editor handles it: a non-empty list of lines.

    Two texts are put one after the other by gluing the last line of the first to
    the first line of the second (`Cat`).  A position splits a text in two, and a
    text moves a position forward (`Advance`).  Everything the editor does with
    two-dimensional positions is stated through these three notions. */
module Text {

  type Text = t: seq<string> | |t| > 0 witness [""]

  const EMPTY: Text := [""]

  datatype Pos = Pos(line: int, ch: int)

  function Cmp(a: Pos, b: Pos): int {
    if a.line != b.line then a.line - b.line else a.ch - b.ch
  }

  predicate Le(a: Pos, b: Pos) {
    Cmp(a, b) <= 0
  }

  function Last(t: Text): string {
    t[|t| - 1]
  }

  function Cat(a: Text, b: Text): Text {
    a[..|a| - 1] + [Last(a) + b[0]] + b[1..]
  }

  /** The position just behind the last character of t. */
  function End(t: Text): Pos {
    Pos(|t| - 1, |Last(t)|)
  }

  /** Where a position ends up after walking over t. */
  function Advance(p: Pos, t: Text): Pos {
    Pos(p.line + |t| - 1, |Last(t)| + if |t| == 1 then p.ch else 0)
  }

  predicate ValidPos(t: Text, p: Pos) {
    0 <= p.line < |t| && 0 <= p.ch <= |t[p.line]|
  }

  function Before(t: Text, p: Pos): Text
    requires ValidPos(t, p)
  {
    t[..p.line] + [t[p.line][..p.ch]]
  }

  function After(t: Text, p: Pos): Text
    requires ValidPos(t, p)
  {
    [t[p.line][p.ch..]] + t[p.line + 1..]
  }

  predicate ValidSpan(t: Text, from: Pos, to: Pos) {
    ValidPos(t, from) && ValidPos(t, to) && Le(from, to)
  }

  /** The text between two positions: what follows `from` in what precedes `to`. */
  function Between(t: Text, from: Pos, to: Pos): Text
    requires ValidSpan(t, from, to)
  {
    After(Before(t, to), from)
  }

  // ----- the monoid laws

  lemma CatAssoc(a: Text, b: Text, c: Text)
    ensures Cat(Cat(a, b), c) == Cat(a, Cat(b, c))
  {
    var l, r := Cat(Cat(a, b), c), Cat(a, Cat(b, c));
    if |b| == 1 {
      assert Cat(a, b) == a[..|a| - 1] + [Last(a) + b[0]];
      assert (Last(a) + b[0]) + c[0] == Last(a) + (b[0] + c[0]);
    } else {
      var mid := b[1..|b| - 1];
      assert Cat(a, b) == a[..|a| - 1] + [Last(a) + b[0]] + mid + [Last(b)];
      assert Cat(b, c) == [b[0]] + mid + [Last(b) + c[0]] + c[1..];
    }
    assert l == r;
  }

  lemma CatEmpty(a: Text)
    ensures Cat(a, EMPTY) == a && Cat(EMPTY, a) == a
  {
    assert Last(a) + "" == Last(a);
    assert "" + a[0] == a[0];
  }

  lemma AdvanceCat(p: Pos, a: Text, b: Text)
    ensures Advance(p, Cat(a, b)) == Advance(Advance(p, a), b)
  {
  }

  lemma EndCat(a: Text, b: Text)
    ensures End(Cat(a, b)) == Advance(End(a), b)
  {
  }

  // ----- positions are the factorizations of a text

  lemma SplitAt(t: Text, p: Pos)
    requires ValidPos(t, p)
    ensures Cat(Before(t, p), After(t, p)) == t
    ensures End(Before(t, p)) == p
  {
    assert t[p.line][..p.ch] + t[p.line][p.ch..] == t[p.line];
  }

  lemma CatAt(a: Text, b: Text)
    ensures ValidPos(Cat(a, b), End(a))
    ensures Before(Cat(a, b), End(a)) == a
    ensures After(Cat(a, b), End(a)) == b
  {
    var t := Cat(a, b);
    assert t[|a| - 1] == Last(a) + b[0];
    assert t[|a| - 1][..|Last(a)|] == Last(a);
    assert t[|a| - 1][|Last(a)|..] == b[0];
    assert t[|a|..] == b[1..];
  }

  /** A valid span cuts a text into three factors. */
  lemma CatBetween(t: Text, from: Pos, to: Pos)
    requires ValidSpan(t, from, to)
    ensures Before(t, to) == Cat(Before(t, from), Between(t, from, to))
    ensures After(t, from) == Cat(Between(t, from, to), After(t, to))
    ensures Advance(from, Between(t, from, to)) == to
  {
    var u := Before(t, to);
    assert Before(u, from) == Before(t, from) by {
      assert u[from.line][..from.ch] == t[from.line][..from.ch];
    }
    SplitAt(u, from);
    SplitAt(t, to);
    SplitAt(t, from);
    CatAssoc(Before(t, from), Between(t, from, to), After(t, to));
    CatAt(Before(t, from), Cat(Between(t, from, to), After(t, to)));
    EndCat(Before(t, from), Between(t, from, to));
  }

  lemma CatThree(a: Text, b: Text, c: Text)
    ensures ValidSpan(Cat(a, Cat(b, c)), End(a), Advance(End(a), b))
    ensures Before(Cat(a, Cat(b, c)), Advance(End(a), b)) == Cat(a, b)
    ensures After(Cat(a, Cat(b, c)), Advance(End(a), b)) == c
    ensures Between(Cat(a, Cat(b, c)), End(a), Advance(End(a), b)) == b
  {
    CatAssoc(a, b, c);
    EndCat(a, b);
    CatAt(Cat(a, b), c);
    CatAt(a, Cat(b, c));
    CatAt(a, b);
  }

  // ----- the same text as one string

  function Join(t: Text): string {
    if |t| == 1 then t[0] else t[0] + "\n" + Join(t[1..])
  }

  lemma {:induction false} JoinCat(a: Text, b: Text)
    ensures Join(Cat(a, b)) == Join(a) + Join(b)
  {
    var t := Cat(a, b);
    if |a| == 1 {
      if |b| == 1 {
      } else {
        assert t[1..] == b[1..];
        assert (a[0] + b[0]) + "\n" + Join(b[1..]) == a[0] + (b[0] + "\n" + Join(b[1..]));
      }
    } else {
      assert t[1..] == Cat(a[1..], b);
      JoinCat(a[1..], b);
      assert t[0] == a[0];
      assert a[0] + "\n" + (Join(a[1..]) + Join(b)) == (a[0] + "\n" + Join(a[1..])) + Join(b);
    }
  }

  /** The offset of a position in the joined text. */
  function Offset(t: Text, p: Pos): nat
    requires ValidPos(t, p)
  {
    |Join(Before(t, p))|
  }

  lemma OffsetBounds(t: Text, p: Pos)
    requires ValidPos(t, p)
    ensures Offset(t, p) <= |Join(t)|
    ensures Join(t)[..Offset(t, p)] == Join(Before(t, p))
    ensures Join(t)[Offset(t, p)..] == Join(After(t, p))
  {
    SplitAt(t, p);
    JoinCat(Before(t, p), After(t, p));
  }
}
