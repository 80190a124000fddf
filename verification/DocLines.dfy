/** The document as a sequence of line objects kept in the line tree. */
module DocLines {
  import opened Wrappers
  import opened LineGraph
  import opened LineRemoval
  import opened LineTree

  lemma {:induction false} SumSame(H: Heights, K: Heights, ls: seq<Line>)
    requires forall l :: l in ls ==> (l in H <==> l in K) && (l in H ==> H[l] == K[l])
    ensures Sum(H, ls) == Sum(K, ls)
  {
    if |ls| > 0 {
      assert ls[0] in ls;
      SumSame(H, K, ls[1..]);
    }
  }

  /** The heights of lines outside the tree do not matter. */
  lemma OtherHeights(g: Chunks, H: Heights, K: Heights)
    requires HeapOk(g, H)
    requires forall l :: l in LinesOf(g) ==> (l in H <==> l in K) && (l in H ==> H[l] == K[l])
    ensures HeapOk(g, K)
  {
    forall c | c in g ensures Mirrors(c, g, K) && LeafOk(g, c, K) {
      assert Mirrors(c, g, H) && LeafOk(g, c, H);
      assert forall l :: l in g[c].lines ==> l in LinesOf(g);
      SumSame(H, K, g[c].lines);
      assert forall i :: 0 <= i < |g[c].lines| ==> g[c].lines[i] in g[c].lines;
    }
  }

  lemma {:induction false} LinesInRoot(g: Chunks, root: Chunk, x: Chunk)
    requires WF(g, root) && x in g
    ensures root in g && forall l :: l in g[x].lines ==> l in g[root].lines
    decreases g[root].rank - g[x].rank
  {
    if x != root {
      InParent(g, root, x);
      var p := g[x].parent.value;
      LinesInRoot(g, root, p);
      assert Local(g, p);
      FlatSplit(g, g[p].kids, IndexOf(g[p].kids, x));
    }
  }

  lemma NoDupInsert<T>(s: seq<T>, at: nat, ls: seq<T>)
    requires at <= |s| && NoDup(s) && NoDup(ls) && forall l :: l in ls ==> l !in s
    ensures NoDup(LineGraph.Insert(s, at, ls))
  {
    var t := LineGraph.Insert(s, at, ls);
    assert forall i, j :: 0 <= i < |s| && 0 <= j < |ls| ==> s[i] != ls[j] by {
      assert forall j :: 0 <= j < |ls| ==> ls[j] in ls;
    }
    assert forall i :: 0 <= i < at ==> t[i] == s[i];
    assert forall i :: at <= i < at + |ls| ==> t[i] == ls[i - at];
    assert forall i :: at + |ls| <= i < |t| ==> t[i] == s[i - |ls|];
  }

  lemma TreeLines(g: Chunks, root: Chunk)
    requires WF(g, root)
    ensures root in g && LinesOf(g) == SetOf(g[root].lines)
  {
    forall l | l in LinesOf(g) ensures l in g[root].lines {
      var x: Chunk :| x in g && l in g[x].lines;
      LinesInRoot(g, root, x);
    }
  }

  /** After a removal at the root the whole graph is well-formed. */
  lemma RemovedWF(g: Chunks, h: Chunks, root: Chunk, at: nat, n: nat)
    requires WF(g, root) && Removed(g, h, root, at, n)
    ensures WF(h, root) && root in h && Bounded(h, {})
  {
    NoDupDelete(g[root].lines, at, n);
    assert Attached(g, root, root);
    forall y | y in h ensures Local(h, y) && Attached(h, root, y) && h[y].rank <= h[root].rank {
      if y != root && y in g {
        InParent(g, root, y);
        assert g[y].rank < g[root].rank;
      }
    }
  }

  lemma RootReady(g: Chunks, root: Chunk, at: nat, n: nat, H: Heights)
    requires root in g && WF(g, root) && Bounded(g, {}) && at + n <= |g[root].lines| && HeapOk(g, H)
    ensures CanRemove(g, root, at, n) && HeapUnder(g, root, H)
  {
  }

  lemma RootHeap(h: Chunks, root: Chunk, H: Heights)
    requires root in h && WF(h, root) && HeapUnder(h, root, H)
    ensures HeapOk(h, H)
  {
    forall c | c in h ensures Mirrors(c, h, H) {
      if c != root {
        InParent(h, root, c);
      }
    }
  }

  /** A branch's lines are those before child i, those of child i, and those after it. */
  lemma KidLines(g: Chunks, root: Chunk, x: Chunk, i: nat) returns (off: nat)
    requires WF(g, root) && x in g && !g[x].leaf && i < |g[x].kids|
    ensures AllIn(g, g[x].kids) && g[x].kids[i] in g && off == |Flat(g, g[x].kids[..i])|
    ensures off + |g[g[x].kids[i]].lines| <= |g[x].lines| && g[g[x].kids[i]].rank < g[x].rank
    ensures forall j :: 0 <= j < |g[g[x].kids[i]].lines| ==> g[x].lines[off + j] == g[g[x].kids[i]].lines[j]
    ensures g[x].lines[..off] == Flat(g, g[x].kids[..i])
  {
    hide WF, Flat, NoDup;
    OwnKids(g, root, x);
    KidIs(g, x, i);
    FlatSplit(g, g[x].kids, i);
    off := |Flat(g, g[x].kids[..i])|;
  }

  lemma KidIs(g: Chunks, x: Chunk, i: nat)
    requires x in g && Local(g, x) && i < |g[x].kids|
    ensures IsKid(g, x, g[x].kids[i])
  {
  }

  lemma KidsInHeap(g: Chunks, root: Chunk, x: Chunk, H: Heights)
    requires WF(g, root) && x in g && HeapOk(g, H)
    ensures x.leaf == g[x].leaf && (if x.leaf then x.lines == g[x].lines
      else x.children == g[x].kids && x.size == |g[x].lines|)
    ensures x.height == Sum(H, g[x].lines) && AllIn(g, g[x].kids)
    ensures forall i :: 0 <= i < |g[x].kids| ==> Counted(g[x].kids[i], g, H)
  {
  }

  /** The first child whose lines, counted from the first child, reach beyond n. */
  method ChildHolding(x: Chunk, n: nat, ghost g: Chunks, ghost H: Heights) returns (i: nat, rest: nat)
    requires x in g && AllIn(g, g[x].kids) && x.children == g[x].kids && n < |Flat(g, g[x].kids)|
    requires forall j :: 0 <= j < |g[x].kids| ==> Counted(g[x].kids[j], g, H)
    ensures i < |g[x].kids| && AllIn(g, g[x].kids[..i]) && rest < |g[g[x].kids[i]].lines|
    ensures n == |Flat(g, g[x].kids[..i])| + rest
  {
    FlatNone(g, g[x].kids);
    assert g[x].kids[..|g[x].kids|] == g[x].kids;
    i, rest := 0, n;
    while x.children[i].ChunkSize() <= rest
      invariant i < |g[x].kids| && AllIn(g, g[x].kids[..i]) && n == |Flat(g, g[x].kids[..i])| + rest
      decreases |g[x].kids| - i
    {
      rest := rest - x.children[i].ChunkSize();
      FlatStep(g, g[x].kids, i);
      i := i + 1;
    }
  }

  lemma NextKid(g: Chunks, H: Heights, ks: seq<Chunk>, c: Chunk, k: nat)
    requires AllIn(g, ks) && k < |ks| && c in ks && c !in ks[..k] && ks[k] != c
    ensures k + 1 < |ks| && c !in ks[..k + 1] && AllIn(g, ks[..k + 1]) && AllIn(g, ks[..k])
    ensures |Flat(g, ks[..k + 1])| == |Flat(g, ks[..k])| + |g[ks[k]].lines|
    ensures Sum(H, Flat(g, ks[..k + 1])) == Sum(H, Flat(g, ks[..k])) + Sum(H, g[ks[k]].lines)
  {
    FlatNext(g, H, ks, k);
    assert ks == ks[..k] + ks[k..];
    assert ks[..k + 1] == ks[..k] + [ks[k]];
  }

  /** How many lines are below the children in front of child c. */
  method LinesBefore(x: Chunk, c: Chunk, ghost g: Chunks, ghost H: Heights) returns (ghost i: nat, lines: nat)
    requires x in g && AllIn(g, g[x].kids) && x.children == g[x].kids && c in g[x].kids
    requires forall j :: 0 <= j < |g[x].kids| ==> Counted(g[x].kids[j], g, H)
    ensures i < |g[x].kids| && g[x].kids[i] == c && AllIn(g, g[x].kids[..i]) && lines == |Flat(g, g[x].kids[..i])|
  {
    FlatNone(g, g[x].kids);
    var k := 0;
    lines := 0;
    while x.children[k] != c
      invariant k < |g[x].kids| && c !in g[x].kids[..k] && AllIn(g, g[x].kids[..k])
      invariant lines == |Flat(g, g[x].kids[..k])|
      decreases |g[x].kids| - k
    {
      lines := lines + x.children[k].ChunkSize();
      NextKid(g, H, g[x].kids, c, k);
      k := k + 1;
    }
    i := k;
  }

  /** How high the children in front of child c are. */
  method HeightBefore(x: Chunk, c: Chunk, ghost g: Chunks, ghost H: Heights) returns (ghost i: nat, height: int)
    requires x in g && AllIn(g, g[x].kids) && x.children == g[x].kids && c in g[x].kids
    requires forall j :: 0 <= j < |g[x].kids| ==> Counted(g[x].kids[j], g, H)
    ensures i < |g[x].kids| && g[x].kids[i] == c && AllIn(g, g[x].kids[..i])
    ensures height == Sum(H, Flat(g, g[x].kids[..i]))
  {
    FlatNone(g, g[x].kids);
    var k := 0;
    height := 0;
    while x.children[k] != c
      invariant k < |g[x].kids| && c !in g[x].kids[..k] && AllIn(g, g[x].kids[..k])
      invariant height == Sum(H, Flat(g, g[x].kids[..k]))
      decreases |g[x].kids| - k
    {
      height := height + x.children[k].height;
      NextKid(g, H, g[x].kids, c, k);
      k := k + 1;
    }
    i := k;
  }

  lemma SumPrefix(H: Heights, s: seq<Line>, k: nat)
    requires k < |s|
    ensures Sum(H, s[..k + 1]) == Sum(H, s[..k]) + Sum(H, [s[k]])
  {
    assert s[..k + 1] == s[..k] + [s[k]];
    SumCat(H, s[..k], [s[k]]);
  }

  lemma {:induction false} SumMonotone(H: Heights, s: seq<Line>, j: nat, k: nat)
    requires j <= k <= |s|
    ensures Sum(H, s[..j]) <= Sum(H, s[..k])
    decreases k - j
  {
    if j < k {
      SumMonotone(H, s, j + 1, k);
      SumPrefix(H, s, j);
    }
  }

  /** The child that holds height h, counted from the first child, if there is one. */
  method ChildAtHeight(x: Chunk, h: int, ghost g: Chunks, ghost H: Heights)
    returns (i: nat, rest: int, lines: nat)
    requires x in g && AllIn(g, g[x].kids) && x.children == g[x].kids
    requires forall j :: 0 <= j < |g[x].kids| ==> Counted(g[x].kids[j], g, H)
    ensures i <= |g[x].kids| && AllIn(g, g[x].kids[..i]) && lines == |Flat(g, g[x].kids[..i])|
    ensures rest == h - Sum(H, Flat(g, g[x].kids[..i])) && (i > 0 ==> rest >= 0)
    ensures i < |g[x].kids| ==> rest < Sum(H, g[g[x].kids[i]].lines)
  {
    FlatNone(g, g[x].kids);
    i, rest, lines := 0, h, 0;
    while i < |x.children| && x.children[i].height <= rest
      invariant i <= |g[x].kids| && AllIn(g, g[x].kids[..i]) && lines == |Flat(g, g[x].kids[..i])|
      invariant rest == h - Sum(H, Flat(g, g[x].kids[..i])) && (i > 0 ==> rest >= 0)
    {
      rest := rest - x.children[i].height;
      lines := lines + x.children[i].ChunkSize();
      FlatNext(g, H, g[x].kids, i);
      i := i + 1;
    }
  }

  lemma {:induction false} SumUpdate(H: Heights, line: Line, v: nat, ls: seq<Line>)
    requires NoDup(ls) && line in H
    ensures Sum(H[line := v], ls) == Sum(H, ls) + if line in ls then v - H[line] else 0
  {
    if |ls| > 0 {
      SumUpdate(H, line, v, ls[1..]);
      assert ls[0] !in ls[1..];
    }
  }

  /** As Mirrors, with a height that differs by d. */
  ghost predicate MirrorsBut(c: Chunk, g: Chunks, H: Heights, d: int)
    requires c in g
    reads c
  {
    && c.leaf == g[c].leaf && c.parent == OrNull(g[c].parent)
    && c.height == Sum(H, g[c].lines) + d
    && (if c.leaf then c.lines == g[c].lines else c.children == g[c].kids && c.size == |g[c].lines|)
  }

  /** The tree of a document with one line. */
  lemma FirstGraph(first: Line, leaf: Chunk, top: Chunk, g: Chunks)
    requires leaf != top
    requires g == map[leaf := Node(true, [first], [], Some(top), 0), top := Node(false, [first], [leaf], None, 1)]
    ensures WF(g, top) && Bounded(g, {})
  {
    FlatOne(g, leaf);
    assert IsKid(g, top, leaf);
    assert forall c :: c in g ==> c == leaf || c == top;
  }

  lemma FirstHeap(first: Line, leaf: Chunk, top: Chunk, g: Chunks, H: Heights)
    requires leaf != top && first in H && H[first] == first.height && first.parent == leaf
    requires g == map[leaf := Node(true, [first], [], Some(top), 0), top := Node(false, [first], [leaf], None, 1)]
    requires Is(leaf, g[leaf], H) && Is(top, g[top], H)
    ensures HeapOk(g, H)
  {
    hide Sum;
    assert LeafOk(g, leaf, H);
    assert forall c :: c in g ==> c == leaf || c == top;
  }

  class LineDoc {
    const root: Chunk
    ghost var g: Chunks
    ghost var H: Heights

    ghost predicate Valid()
      reads this, g.Keys, LinesOf(g)
    {
      root in g && WF(g, root) && Bounded(g, {}) && HeapOk(g, H)
    }

    /** The lines of the document, in order. */
    ghost function Lines(): seq<Line>
      reads this
      requires root in g
    {
      g[root].lines
    }

    /** The height of all lines before line k. */
    ghost function Above(k: nat): nat
      reads this
      requires root in g && k <= |Lines()|
    {
      Sum(H, Lines()[..k])
    }

    /** A document starts with one empty line. */
    constructor (first: Line)
      requires first.parent == null
      modifies first`parent
      ensures Valid() && Lines() == [first] && fresh(g.Keys)
    {
      ghost var K: Heights := map l: Line | l in {first} :: l.height;
      var leaf := new Chunk.Leaf([first], K);
      ghost var g0: Chunks := map[leaf := Node(true, [first], [], None, 0)];
      assert Mirrors(leaf, g0, K);
      var top := new Chunk.Branch([leaf], g0, K);
      root := top;
      hide WF, Bounded, HeapOk, Flat, Sum;
      FlatOne(g0, leaf);
      g := map[leaf := Node(true, [first], [], Some(top), 0), top := Node(false, [first], [leaf], None, 1)];
      H := K;
      new;
      FirstGraph(first, leaf, root, g);
      FirstHeap(first, leaf, root, g, H);
    }

    method Insert(at: nat, ls: seq<Line>)
      requires Valid() && at <= |Lines()|
      requires NoDup(ls) && forall l :: l in ls ==> l.parent == null && l !in Lines()
      modifies this`g, this`H, g.Keys, SetOf(Lines())`parent, SetOf(ls)`parent
      ensures Valid() && Lines() == LineGraph.Insert(old(Lines()), at, ls)
      ensures fresh(g.Keys - old(g.Keys))
    {
      hide WF, HeapOk, Bounded, Pending, Unplaced, NoDup, Sum;
      ghost var K: Heights := map l | l in H.Keys + SetOf(ls) :: if l in ls then l.height else H[l];
      NewHeights(ls, K);
      PrepareInsert(at, ls);
      var height := TotalHeight(ls, K);
      TreeLines(g, root);
      ghost var h := root.BranchInsert(at, ls, height, g, root, K);
      SetGraph(h, K);
    }

    ghost method SetGraph(h: Chunks, K: Heights)
      requires root in h && WF(h, root) && Bounded(h, {}) && HeapOk(h, K)
      modifies this`g, this`H
      ensures Valid() && g == h && H == K
    {
      hide WF, Bounded, Sum;
      g, H := h, K;
    }

    ghost method SetHeights(K: Heights)
      requires root in g && WF(g, root) && Bounded(g, {}) && HeapOk(g, K)
      modifies this`H
      ensures Valid() && g == old(g) && H == K
    {
      hide WF, Bounded;
      H := K;
    }

    static method TotalHeight(ls: seq<Line>, ghost K: Heights) returns (height: nat)
      requires forall l :: l in ls ==> l in K && K[l] == l.height
      ensures height == Sum(K, ls)
    {
      height := 0;
      for i := 0 to |ls|
        invariant height == Sum(K, ls[..i])
      {
        height := height + ls[i].height;
        assert ls[..i + 1] == ls[..i] + [ls[i]];
        SumCat(K, ls[..i], [ls[i]]);
        SumOne(K, ls[i]);
      }
      assert ls[..|ls|] == ls;
    }

    lemma NewHeights(ls: seq<Line>, K: Heights)
      requires Valid() && K == map l | l in H.Keys + SetOf(ls) :: if l in ls then l.height else H[l]
      requires forall l :: l in ls ==> l.parent == null && l !in Lines()
      ensures HeapOk(g, K) && Unplaced(ls, K)
      ensures forall l :: l in ls ==> l in K && K[l] == l.height
    {
      TreeLines(g, root);
      OtherHeights(g, H, K);
    }

    lemma PrepareInsert(at: nat, ls: seq<Line>)
      requires Valid() && at <= |Lines()| && NoDup(ls) && forall l :: l in ls ==> l !in Lines()
      ensures !g[root].leaf && Pending(g, root, root, at, ls)
    {
      NoDupInsert(Lines(), at, ls);
      PendingAtRoot(g, root, at, ls);
    }

    method Remove(at: nat, n: nat)
      requires Valid() && at + n <= |Lines()|
      modifies this`g, this`H, g.Keys, SetOf(Lines())`parent
      ensures Valid() && Lines() == Delete(old(Lines()), at, n) && H == old(H)
      ensures fresh(g.Keys - old(g.Keys)) && Orphaned(old(Lines()), Lines())
      ensures !root.leaf && root.size < 25 ==> |root.children| == 1 && root.children[0].leaf
    {
      hide WF, HeapOk, Bounded, CanRemove, Removed, HeapUnder, Sum;
      RootReady(g, root, at, n, H);
      TreeLines(g, root);
      ghost var h := root.RemoveInner(at, n, g, H);
      RemovedLines(g, h, at, n);
      RemovedWF(g, h, root, at, n);
      RootHeap(h, root, H);
      SetGraph(h, H);
    }

    lemma RemovedLines(g: Chunks, h: Chunks, at: nat, n: nat)
      requires Removed(g, h, root, at, n)
      ensures root in g && root in h && at + n <= |g[root].lines| && h[root].lines == Delete(g[root].lines, at, n)
    {
    }

    // ----- looking lines up

    /** The line object with a number, or null where the program throws. */
    method GetLine(n: int) returns (line: Line?)
      requires Valid()
      ensures Valid() && if 0 <= n < |Lines()| then line == Lines()[n] else line == null
    {
      KidsInHeap(g, root, root, H);
      if n < 0 || n >= root.size {
        return null;
      }
      var chunk, m: nat := root, n;
      while !chunk.leaf
        invariant chunk in g && m < |g[chunk].lines| && g[chunk].lines[m] == Lines()[n]
        decreases g[chunk].rank
      {
        chunk, m := StepDown(chunk, m);
      }
      KidsInHeap(g, root, chunk, H);
      line := chunk.lines[m];
    }

    method StepDown(chunk: Chunk, m: nat) returns (child: Chunk, rest: nat)
      requires Valid() && chunk in g && !chunk.leaf && m < |g[chunk].lines|
      ensures child in g && rest < |g[child].lines| && g[child].lines[rest] == g[chunk].lines[m]
      ensures g[child].rank < g[chunk].rank
    {
      hide WF, HeapOk, Bounded, Flat, Sum;
      KidsInHeap(g, root, chunk, H);
      OwnKids(g, root, chunk);
      var i;
      i, rest := ChildHolding(chunk, m, g, H);
      ghost var off := KidLines(g, root, chunk, i);
      child := chunk.children[i];
    }

    lemma OwnLeaf(line: Line)
      requires Valid() && line in Lines()
      ensures line.parent != null && line.parent in g && g[line.parent].leaf && line in g[line.parent].lines
      ensures line in H && line.height == H[line]
    {
      RootReady(g, root, 0, 0, H);
      SubIsClosed(g, root);
      var z := LineHasLeaf(g, root, root, Sub(g, root), line);
      assert LeafOk(g, z, H);
      var k :| 0 <= k < |g[z].lines| && g[z].lines[k] == line;
      assert LineOk(g[z].lines[k], z, H);
    }

    lemma ParentIs(cur: Chunk)
      requires Valid() && cur in g
      ensures cur.parent == null <==> cur == root
      ensures g[cur].rank <= g[root].rank
      ensures cur != root ==> cur.parent in g && cur in g[cur.parent].kids && !g[cur.parent].leaf
      ensures cur != root ==> g[cur.parent].rank == g[cur].rank + 1
    {
    }

    /** Line k of child i is line off + k of its parent, below the height of both. */
    lemma SameLineUp(chunk: Chunk, i: nat, k: nat) returns (no: nat)
      requires Valid() && chunk in g && !g[chunk].leaf && i < |g[chunk].kids| && g[chunk].kids[i] in g
      requires k < |g[g[chunk].kids[i]].lines| && AllIn(g, g[chunk].kids[..i])
      ensures no == |Flat(g, g[chunk].kids[..i])| + k && no < |g[chunk].lines|
      ensures g[chunk].lines[no] == g[g[chunk].kids[i]].lines[k]
      ensures Sum(H, g[chunk].lines[..no]) ==
              Sum(H, Flat(g, g[chunk].kids[..i])) + Sum(H, g[g[chunk].kids[i]].lines[..k])
    {
      hide WF, HeapOk, Bounded, Flat, Sum;
      var off := KidLines(g, root, chunk, i);
      no := off + k;
      var cur := g[chunk].kids[i];
      assert g[chunk].lines[..no] == g[chunk].lines[..off] + g[cur].lines[..k];
      SumCat(H, g[chunk].lines[..off], g[cur].lines[..k]);
    }

    /** The number of a line, found by walking up; a line that was removed has none. */
    method LineNo(line: Line) returns (number: Option<nat>)
      requires Valid() && (line.parent != null ==> line in Lines())
      ensures if line.parent == null then number == None
              else number.Some? && number.value < |Lines()| && Lines()[number.value] == line
    {
      hide WF, Bounded, Sum;
      if line.parent == null {
        return None;
      }
      OwnLeaf(line);
      KidsInHeap(g, root, line.parent, H);
      var cur: Chunk := line.parent;
      var no: nat := Find(cur.lines, line);
      ParentIs(cur);
      while cur.parent != null
        invariant cur in g && no < |g[cur].lines| && g[cur].lines[no] == line
        invariant cur.parent == null ==> cur == root
        decreases g[root].rank - g[cur].rank
      {
        ParentIs(cur);
        no := UpNo(cur.parent, cur, no);
        cur := cur.parent;
        ParentIs(cur);
      }
      number := Some(no);
    }

    method UpNo(chunk: Chunk, cur: Chunk, k: nat) returns (no: nat)
      requires Valid() && cur in g && chunk in g && !g[chunk].leaf && cur in g[chunk].kids && k < |g[cur].lines|
      ensures no < |g[chunk].lines| && g[chunk].lines[no] == g[cur].lines[k]
    {
      hide WF, HeapOk, Bounded, Flat, Sum, Counted;
      KidsInHeap(g, root, chunk, H);
      ghost var i := IndexOf(g[chunk].kids, cur);
      ghost var n := SameLineUp(chunk, i, k);
      ghost var j: nat;
      var lines;
      j, lines := LinesBefore(chunk, cur, g, H);
      SameKidIndex(chunk, i, j);
      no := lines + k;
    }

    /** The height above line k. */
    method HeightAtLine(line: Line, ghost k: nat) returns (height: int)
      requires Valid() && k < |Lines()| && Lines()[k] == line
      ensures height == Above(k)
    {
      hide WF, Bounded, Sum;
      OwnLeaf(line);
      KidsInHeap(g, root, line.parent, H);
      var cur: Chunk := line.parent;
      ghost var no: nat;
      no, height := HeightInLeaf(cur, line);
      ParentIs(cur);
      while cur.parent != null
        invariant cur in g && no < |g[cur].lines| && g[cur].lines[no] == line
        invariant height == Sum(H, g[cur].lines[..no])
        invariant cur.parent == null ==> cur == root
        decreases g[root].rank - g[cur].rank
      {
        ParentIs(cur);
        no, height := UpHeight(cur.parent, cur, no, height);
        cur := cur.parent;
        ParentIs(cur);
      }
      SameNumber(no, k);
    }

    method UpHeight(chunk: Chunk, cur: Chunk, ghost k: nat, above: int) returns (ghost no: nat, height: int)
      requires Valid() && cur in g && chunk in g && !g[chunk].leaf && cur in g[chunk].kids && k < |g[cur].lines|
      requires above == Sum(H, g[cur].lines[..k])
      ensures no < |g[chunk].lines| && g[chunk].lines[no] == g[cur].lines[k] && height == Sum(H, g[chunk].lines[..no])
    {
      hide WF, HeapOk, Bounded, Flat, Sum, Counted;
      KidsInHeap(g, root, chunk, H);
      ghost var i := IndexOf(g[chunk].kids, cur);
      no := SameLineUp(chunk, i, k);
      ghost var j: nat;
      var before;
      j, before := HeightBefore(chunk, cur, g, H);
      SameKidIndex(chunk, i, j);
      height := before + above;
    }

    lemma SameKidIndex(chunk: Chunk, i: nat, j: nat)
      requires chunk in g && WF(g, root) && !g[chunk].leaf && i < |g[chunk].kids| && j < |g[chunk].kids|
      requires g[chunk].kids[i] == g[chunk].kids[j]
      ensures i == j
    {
      OwnKids(g, root, chunk);
    }

    lemma SameNumber(i: nat, j: nat)
      requires Valid() && i < |Lines()| && j < |Lines()| && Lines()[i] == Lines()[j]
      ensures i == j
    {
    }

    method HeightInLeaf(leaf: Chunk, line: Line) returns (ghost no: nat, height: int)
      requires Valid() && leaf in g && g[leaf].leaf && leaf.lines == g[leaf].lines && line in leaf.lines
      ensures no < |g[leaf].lines| && g[leaf].lines[no] == line && height == Sum(H, g[leaf].lines[..no])
    {
      hide WF, HeapOk, Bounded, Sum;
      LeafHeights(leaf);
      var i := 0;
      height := 0;
      assert leaf.lines[..0] == [];
      SumEmpty(H);
      while leaf.lines[i] != line
        invariant i < |leaf.lines| && line !in leaf.lines[..i] && height == Sum(H, leaf.lines[..i])
        decreases |leaf.lines| - i
      {
        height := height + leaf.lines[i].height;
        assert leaf.lines == leaf.lines[..i] + leaf.lines[i..];
        assert leaf.lines[..i + 1] == leaf.lines[..i] + [leaf.lines[i]];
        SumCat(H, leaf.lines[..i], [leaf.lines[i]]);
        SumOne(H, leaf.lines[i]);
        i := i + 1;
      }
      no := i;
    }

    /** The lines below a chunk begin at line `base` of the document. */
    ghost predicate StartsAt(chunk: Chunk, base: nat)
      reads this
      requires root in g
    {
      chunk in g && base + |g[chunk].lines| <= |Lines()| && Lines()[base..base + |g[chunk].lines|] == g[chunk].lines
    }

    lemma StartsBelow(chunk: Chunk, base: nat, i: nat)
      requires Valid() && StartsAt(chunk, base) && !g[chunk].leaf && AllIn(g, g[chunk].kids) && i <= |g[chunk].kids|
      ensures AllIn(g, g[chunk].kids[..i]) && base + |Flat(g, g[chunk].kids[..i])| <= |Lines()|
      ensures Above(base + |Flat(g, g[chunk].kids[..i])|) == Above(base) + Sum(H, Flat(g, g[chunk].kids[..i]))
      ensures i < |g[chunk].kids| ==>
        StartsAt(g[chunk].kids[i], base + |Flat(g, g[chunk].kids[..i])|) && g[g[chunk].kids[i]].rank < g[chunk].rank
      ensures i == |g[chunk].kids| ==> Flat(g, g[chunk].kids[..i]) == g[chunk].lines
    {
      hide WF, HeapOk, Bounded, Flat, Sum;
      OwnKids(g, root, chunk);
      if i < |g[chunk].kids| {
        var o := KidLines(g, root, chunk, i);
        StretchOf(Lines(), base, g[chunk].lines, o, g[g[chunk].kids[i]].lines);
        PrefixAbove(base, g[chunk].lines, o);
      } else {
        assert g[chunk].kids[..i] == g[chunk].kids;
        assert g[chunk].lines[..|g[chunk].lines|] == g[chunk].lines;
        PrefixAbove(base, g[chunk].lines, |g[chunk].lines|);
      }
    }

    lemma PrefixAbove(base: nat, part: seq<Line>, o: nat)
      requires root in g && base + |part| <= |Lines()| && Lines()[base..base + |part|] == part && o <= |part|
      ensures Above(base + o) == Above(base) + Sum(H, part[..o])
    {
      assert Lines()[..base + o] == Lines()[..base] + part[..o];
      SumCat(H, Lines()[..base], part[..o]);
    }

    lemma StretchOf(all: seq<Line>, base: nat, part: seq<Line>, o: nat, sub: seq<Line>)
      requires base + |part| <= |all| && all[base..base + |part|] == part && o + |sub| <= |part|
      requires forall j :: 0 <= j < |sub| ==> part[o + j] == sub[j]
      ensures all[base + o..base + o + |sub|] == sub
    {
    }

    lemma AtRoot()
      requires Valid()
      ensures !g[root].leaf && StartsAt(root, 0) && Above(0) == 0 && root.leaf == g[root].leaf
    {
    }

    lemma AboveMonotone(j: nat, k: nat)
      requires root in g && j <= k <= |Lines()|
      ensures Above(j) <= Above(k)
    {
      SumMonotone(H, Lines(), j, k);
    }

    /** Line n is the first one that reaches below height h. */
    ghost predicate AtHeight(n: nat, h: int)
      reads this
      requires root in g
    {
      n <= |Lines()| && (forall k :: 0 < k <= n ==> Above(k) <= h) && (n < |Lines()| ==> h < Above(n + 1))
    }

    lemma IsAtHeight(n: nat, h: int)
      requires root in g && n <= |Lines()| && (n > 0 ==> Above(n) <= h) && (n < |Lines()| ==> h < Above(n + 1))
      ensures AtHeight(n, h)
    {
      forall k | 0 < k <= n ensures Above(k) <= h {
        AboveMonotone(k, n);
      }
    }

    /** The line at a vertical position, or the number of lines when it is below all of them. */
    method LineAtHeight(height: int) returns (n: nat)
      requires Valid()
      ensures AtHeight(n, height)
    {
      hide WF, Bounded, Sum, AtHeight, Flat, NoDup, Above, LeafOk;
      var chunk, h := root, height;
      n := 0;
      AtRoot();
      while !chunk.leaf
        invariant Valid() && StartsAt(chunk, n) && chunk.leaf == g[chunk].leaf
        invariant h == height - Above(n) && (n > 0 ==> h >= 0)
        invariant chunk != root ==> h < Sum(H, g[chunk].lines)
        decreases g[chunk].rank
      {
        KidsInHeap(g, root, chunk, H);
        FlatNone(g, g[chunk].kids);
        var i, rest, lines := ChildAtHeight(chunk, h, g, H);
        StartsBelow(chunk, n, i);
        n := n + lines;
        if i == |chunk.children| {
          OwnKids(g, root, chunk);
          assert chunk == root;
          IsAtHeight(n, height);
          return;
        }
        h := rest;
        chunk := chunk.children[i];
        KidsInHeap(g, root, chunk, H);
      }
      n := InLeafAtHeight(chunk, n, h, height);
    }

    method InLeafAtHeight(leaf: Chunk, base: nat, h: int, ghost height: int) returns (n: nat)
      requires Valid() && StartsAt(leaf, base) && leaf.leaf && g[leaf].leaf
      requires h == height - Above(base) && (base > 0 ==> h >= 0) && h < Sum(H, g[leaf].lines)
      ensures AtHeight(n, height)
    {
      hide WF, Bounded, Sum, AtHeight;
      KidsInHeap(g, root, leaf, H);
      LeafHeights(leaf);
      var i := Scan(leaf.lines, h, H);
      n := base + i;
      ScannedIs(leaf, base, h, height, i);
    }

    lemma LeafHeights(leaf: Chunk)
      requires Valid() && leaf in g && g[leaf].leaf
      ensures forall i :: 0 <= i < |g[leaf].lines| ==>
        g[leaf].lines[i] in H && g[leaf].lines[i].height == H[g[leaf].lines[i]]
    {
    }

    static method Scan(ls: seq<Line>, h: int, ghost K: Heights) returns (i: nat)
      requires forall j :: 0 <= j < |ls| ==> ls[j] in K && ls[j].height == K[ls[j]]
      ensures i <= |ls| && (i > 0 ==> Sum(K, ls[..i]) <= h) && (i < |ls| ==> h < Sum(K, ls[..i + 1]))
    {
      hide Sum;
      var rest := h;
      i := 0;
      SumEmpty(K);
      assert ls[..0] == [];
      while i < |ls| && ls[i].height <= rest
        invariant i <= |ls| && rest == h - Sum(K, ls[..i]) && (i > 0 ==> rest >= 0)
      {
        SumPrefix(K, ls, i);
        SumOne(K, ls[i]);
        rest := rest - ls[i].height;
        i := i + 1;
      }
      if i < |ls| {
        SumPrefix(K, ls, i);
        SumOne(K, ls[i]);
      }
    }

    lemma ScannedIs(leaf: Chunk, base: nat, h: int, height: int, i: nat)
      requires root in g && StartsAt(leaf, base) && i <= |g[leaf].lines|
      requires h == height - Above(base) && (base > 0 ==> h >= 0) && h < Sum(H, g[leaf].lines)
      requires (i > 0 ==> Sum(H, g[leaf].lines[..i]) <= h)
        && (i < |g[leaf].lines| ==> h < Sum(H, g[leaf].lines[..i + 1]))
      ensures AtHeight(base + i, height)
    {
      var ls := g[leaf].lines;
      PrefixAbove(base, ls, i);
      if i < |ls| {
        PrefixAbove(base, ls, i + 1);
      } else {
        assert ls[..i] == ls;
        assert i == 0;
        if base < |Lines()| {
          AboveMonotone(base, base + 1);
        }
      }
      assert ls[..0] == [];
      IsAtHeight(base + i, height);
    }

    /** A height belongs to one line only ... */
    lemma AtHeightUnique(m: nat, n: nat, h: int)
      requires root in g && AtHeight(m, h) && AtHeight(n, h)
      ensures m == n
    {
    }

    /** ... and the height above a line that has some height itself to that line. */
    lemma HeightAboveFindsLine(k: nat)
      requires Valid() && k < |Lines()| && Lines()[k].height > 0
      ensures AtHeight(k, Above(k))
    {
      OwnLeaf(Lines()[k]);
      SumPrefix(H, Lines(), k);
      SumOne(H, Lines()[k]);
      IsAtHeight(k, Above(k));
    }

    // ----- changing the height of a line

    /** Heights with the change applied to the chunks in V only. */
    ghost predicate PartlyUpdated(V: set<Chunk>, line: Line, height: nat)
      reads g.Keys, this, LinesOf(g)
      requires line in H
    {
      && (forall c :: c in g ==> MirrorsBut(c, g, H, if c in V then height - H[line] else 0))
      && LinesOk(g, H[line := height])
    }

    lemma UpdatedHeap(V: set<Chunk>, line: Line, height: nat)
      requires root in g && WF(g, root) && line in H && PartlyUpdated(V, line, height)
      requires forall c :: c in g ==> (c in V <==> line in g[c].lines)
      ensures HeapOk(g, H[line := height])
    {
      forall c | c in g ensures Mirrors(c, g, H[line := height]) {
        LinesNoDup(g, root, c);
        SumUpdate(H, line, height, g[c].lines);
        assert MirrorsBut(c, g, H, if c in V then height - H[line] else 0);
      }
    }

    /** The chunks visited on the way up from the line's leaf: all that hold the line, once
        the way has reached the root. */
    ghost predicate Visited(V: set<Chunk>, line: Line, z: Chunk, next: Chunk?)
      reads this
    {
      && (forall c :: c in V ==> c in g && line in g[c].lines)
      && z in g && g[z].leaf && line in g[z].lines && (z in V || next == z)
      && (next != null ==> next in g && line in g[next].lines && next !in V)
      && (forall c :: c in V ==> next != null ==> g[c].rank < g[next].rank)
      && (forall c :: c in V && c != root ==>
        g[c].parent.Some? && (g[c].parent.value in V || next == g[c].parent.value))
    }

    lemma {:induction false} VisitedAll(V: set<Chunk>, line: Line, z: Chunk, c: Chunk)
      requires root in g && WF(g, root) && Visited(V, line, z, null) && c in g && line in g[c].lines
      requires forall y :: y in g && g[y].leaf && line in g[y].lines ==> y == z
      ensures c in V
      decreases g[c].rank
    {
      if !g[c].leaf {
        OwnKids(g, root, c);
        var i := LineHasKid(g, g[c].kids, line);
        assert IsKid(g, c, g[c].kids[i]);
        VisitedAll(V, line, z, g[c].kids[i]);
        RootHasNoParent();
      }
    }

    lemma RootHasNoParent()
      requires root in g && WF(g, root)
      ensures g[root].parent == None
    {
    }

    lemma VisitNext(V: set<Chunk>, line: Line, z: Chunk, n: Chunk)
      requires Valid0() && Visited(V, line, z, n)
      ensures g[n].parent == None <==> n == root
      ensures Visited(V + {n}, line, z, OrNull(g[n].parent)) && g[n].rank <= g[root].rank
      ensures n != root ==> g[n].parent.Some? && g[g[n].parent.value].rank > g[n].rank
    {
      hide WF, Flat, Local, NoDup, Sum, Attached;
      RootHasNoParent();
      BelowRoot(n);
      if n != root {
        InParent(g, root, n);
        LinesInParentOf(g[n].parent.value, n, line);
      }
    }

    lemma BelowRoot(n: Chunk)
      requires Valid0() && n in g
      ensures g[n].rank <= g[root].rank && (g[n].parent == None ==> n == root)
    {
      assert Attached(g, root, n);
    }

    ghost predicate Valid0()
      reads this
    {
      root in g && WF(g, root)
    }

    lemma LinesInParentOf(p: Chunk, n: Chunk, line: Line)
      requires Valid0() && p in g && n in g && !g[p].leaf && n in g[p].kids && line in g[n].lines
      ensures line in g[p].lines
    {
      OwnKids(g, root, p);
      FlatSplit(g, g[p].kids, IndexOf(g[p].kids, n));
    }

    method SetHeight(line: Line, height: nat)
      requires Valid() && line in H && line in Lines()
      modifies line`height
      ensures PartlyUpdated({}, line, height) && line.height == height
    {
      hide WF, Bounded, Sum;
      forall c | c in g ensures MirrorsBut(c, g, H, 0) && LeafOk(g, c, H) {
        assert Mirrors(c, g, H);
      }
      line.height := height;
      forall c | c in g ensures MirrorsBut(c, g, H, 0) && LeafOk(g, c, H[line := height]) {
        assert old(MirrorsBut(c, g, H, 0) && LeafOk(g, c, H));
      }
    }

    method AddHeight(n: Chunk, diff: int, ghost V: set<Chunk>, ghost line: Line, ghost height: nat)
      requires line in H && n in g && n !in V && PartlyUpdated(V, line, height) && diff == height - H[line]
      modifies n`height
      ensures PartlyUpdated(V + {n}, line, height)
    {
      hide Sum;
      n.height := n.height + diff;
      forall c | c in g ensures MirrorsBut(c, g, H, if c in V + {n} then diff else 0) {
        assert old(MirrorsBut(c, g, H, if c in V then diff else 0));
      }
    }

    lemma OnlyLeaf(line: Line, z: Chunk)
      requires Valid() && z in g && g[z].leaf && line in g[z].lines
      ensures forall y :: y in g && g[y].leaf && line in g[y].lines ==> y == z
    {
    }

    lemma StartVisit(line: Line, z: Chunk)
      requires z in g && g[z].leaf && line in g[z].lines
      ensures Visited({}, line, z, z)
    {
    }

    lemma UpLink(V: set<Chunk>, line: Line, height: nat, n: Chunk)
      requires line in H && n in g && PartlyUpdated(V, line, height)
      ensures n.parent == OrNull(g[n].parent)
    {
    }

    /** Add the difference to the chunks on the way from the line's leaf to the root. */
    method GrowUp(line: Line, leaf: Chunk, diff: int, ghost height: nat) returns (ghost V: set<Chunk>)
      requires Valid0() && line in H && Visited({}, line, leaf, leaf)
      requires PartlyUpdated({}, line, height) && diff == height - H[line]
      modifies g.Keys`height
      ensures Visited(V, line, leaf, null) && PartlyUpdated(V, line, height)
    {
      hide WF, Sum, Visited, MirrorsBut, LinesOk;
      var n: Chunk? := leaf;
      V := {};
      VisitedNode(V, line, leaf, leaf);
      while n != null
        invariant n != null ==> n in g && n !in V && g[n].rank <= g[root].rank
        invariant Visited(V, line, leaf, n) && PartlyUpdated(V, line, height)
        decreases if n == null then 0 else g[root].rank - g[n].rank + 1
      {
        VisitNext(V, line, leaf, n);
        UpLink(V, line, height, n);
        AddHeight(n, diff, V, line, height);
        V := V + {n};
        n := n.parent;
        VisitedNode(V, line, leaf, n);
      }
    }

    lemma VisitedNode(V: set<Chunk>, line: Line, z: Chunk, n: Chunk?)
      requires Valid0() && Visited(V, line, z, n)
      ensures n != null ==> n in g && n !in V && g[n].rank <= g[root].rank
    {
      if n != null {
        assert Attached(g, root, n);
      }
    }

    lemma AllUpdated(V: set<Chunk>, line: Line, z: Chunk, height: nat)
      requires Valid0() && line in H && Visited(V, line, z, null) && PartlyUpdated(V, line, height)
      requires forall y :: y in g && g[y].leaf && line in g[y].lines ==> y == z
      ensures HeapOk(g, H[line := height])
    {
      hide WF, PartlyUpdated, HeapOk;
      forall c | c in g && line in g[c].lines ensures c in V {
        VisitedAll(V, line, z, c);
      }
      UpdatedHeap(V, line, height);
    }

    /** Change the height of a line, and by as much that of every chunk above it. */
    method UpdateLineHeight(line: Line, height: nat)
      requires Valid() && line in Lines()
      modifies this`H, line`height, g.Keys`height
      ensures Valid() && g == old(g) && H == old(H)[line := height]
    {
      hide WF, Bounded, Sum, Visited, PartlyUpdated, HeapOk;
      OwnLeaf(line);
      var diff := height - line.height;
      if diff != 0 {
        ghost var z: Chunk := line.parent;
        OnlyLeaf(line, z);
        StartVisit(line, z);
        SetHeight(line, height);
        ghost var V := GrowUp(line, line.parent, diff, height);
        AllUpdated(V, line, z, height);
        SetHeights(H[line := height]);
      } else {
        assert H[line := height] == H;
      }
    }
  }
}
