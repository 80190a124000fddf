/** The document's lines in a tree of chunks with parent links, sizes and heights, all
    updated in place.  Every method is given the graph the heap is equal to (as ghost)
    and says what graph it is equal to afterwards. */
module LineTree {
  import opened Wrappers
  import opened LineGraph
  import opened LineRemoval

  class Line {
    var text: string
    var height: nat
    var parent: Chunk?

    constructor (text: string, height: nat)
      ensures this.text == text && this.height == height && parent == null
    {
      this.text, this.height, parent := text, height, null;
    }
  }

  type Chunks = Graph<Chunk, Line>
  type Heights = map<Line, nat>

  ghost function Sum(H: Heights, ls: seq<Line>): nat
  {
    if |ls| == 0 then 0 else (if ls[0] in H then H[ls[0]] else 0) + Sum(H, ls[1..])
  }

  lemma {:induction false} SumCat(H: Heights, a: seq<Line>, b: seq<Line>)
    ensures Sum(H, a + b) == Sum(H, a) + Sum(H, b)
  {
    if |a| == 0 {
      assert a + b == b;
    } else {
      assert (a + b)[1..] == a[1..] + b;
      SumCat(H, a[1..], b);
    }
  }

  lemma SumInsert(H: Heights, s: seq<Line>, at: nat, ls: seq<Line>)
    requires at <= |s|
    ensures Sum(H, Insert(s, at, ls)) == Sum(H, s) + Sum(H, ls)
  {
    assert s == s[..at] + s[at..];
    SumCat(H, s[..at], s[at..]);
    SumCat(H, s[..at], ls);
    SumCat(H, s[..at] + ls, s[at..]);
  }

  // ----- what it means that the heap is equal to a graph

  ghost function OrNull(p: Option<Chunk>): Chunk? {
    match p
    case None => null
    case Some(c) => c
  }

  ghost predicate Is(c: Chunk, node: Node<Chunk, Line>, H: Heights)
    reads c
  {
    && c.leaf == node.leaf && c.parent == OrNull(node.parent)
    && c.height == Sum(H, node.lines)
    && (if c.leaf then c.lines == node.lines else c.children == node.kids && c.size == |node.lines|)
  }

  ghost predicate Mirrors(c: Chunk, g: Chunks, H: Heights)
    requires c in g
    reads c
  {
    Is(c, g[c], H)
  }

  ghost predicate ChunksOk(g: Chunks, H: Heights)
    reads g.Keys
  {
    forall c :: c in g ==> Mirrors(c, g, H)
  }

  ghost predicate LineOk(l: Line, c: Chunk?, H: Heights)
    reads l
  {
    l.parent == c && l in H && l.height == H[l]
  }

  ghost function LinesOf(g: Chunks): set<Line> {
    set c, l | c in g && l in g[c].lines :: l
  }

  ghost predicate LeafOk(g: Chunks, c: Chunk, H: Heights)
    requires c in g
    reads g[c].lines
  {
    g[c].leaf ==> forall i :: 0 <= i < |g[c].lines| ==> LineOk(g[c].lines[i], c, H)
  }

  ghost predicate LinesOk(g: Chunks, H: Heights)
    reads LinesOf(g)
  {
    forall c :: c in g ==>
      assert forall l :: l in g[c].lines ==> l in LinesOf(g);
      LeafOk(g, c, H)
  }

  /** The heap is equal to the graph, and the lines' heights are those of H. */
  ghost predicate HeapOk(g: Chunks, H: Heights)
    reads g.Keys, LinesOf(g)
  {
    ChunksOk(g, H) && LinesOk(g, H)
  }

  ghost predicate ChunksBelow(g: Chunks, r: nat, H: Heights)
    reads g.Keys
  {
    forall c :: c in g && g[c].rank < r ==> Mirrors(c, g, H)
  }

  /** Chunk x, all below it, and all lines of the tree are equal to the graph. */
  ghost predicate HeapUnder(g: Chunks, x: Chunk, H: Heights)
    reads g.Keys, LinesOf(g)
  {
    x in g && Mirrors(x, g, H) && ChunksBelow(g, g[x].rank, H) && LinesOk(g, H)
  }

  ghost function Lower(g: Chunks, x: Chunk): set<Chunk>
    requires x in g
  {
    set c | c in g && (c == x || g[c].rank < g[x].rank)
  }

  ghost function SetOf(ls: seq<Line>): set<Line> {
    set l | l in ls
  }

  /** Lines no longer kept have no parent any more. */
  ghost predicate Orphaned(before: seq<Line>, kept: seq<Line>)
    reads before
  {
    forall l :: l in before && l !in kept ==> l.parent == null
  }

  /** Lines that belong to no leaf yet. */
  ghost predicate Unplaced(ls: seq<Line>, H: Heights)
    reads ls
  {
    forall i :: 0 <= i < |ls| ==> LineOk(ls[i], null, H)
  }

  method SetParents(ls: seq<Line>, p: Chunk?)
    modifies ls`parent
    ensures forall i :: 0 <= i < |ls| ==> ls[i].parent == p
  {
    for i := 0 to |ls|
      invariant forall j :: 0 <= j < i ==> ls[j].parent == p
    {
      ls[i].parent := p;
    }
  }

  method Find<T(==)>(s: seq<T>, x: T) returns (i: nat)
    requires x in s
    ensures i == IndexOf(s, x)
  {
    i := 0;
    while s[i] != x
      invariant i < |s| && x !in s[..i]
      decreases |s| - i
    {
      i := i + 1;
      assert s == s[..i] + s[i..];
    }
    IndexOfFirst(s, i);
  }

  /** A chunk's own account of its lines. */
  ghost predicate Counted(c: Chunk, g: Chunks, H: Heights)
    requires c in g
    reads c`lines, c`size, c`height
  {
    c.height == Sum(H, g[c].lines) && (if c.leaf then |c.lines| else c.size) == |g[c].lines|
  }

  lemma FlatNone(g: Chunks, ks: seq<Chunk>)
    ensures AllIn(g, ks[..0]) && Flat(g, ks[..0]) == []
  {
  }

  lemma AllCounted(ks: seq<Chunk>, g: Chunks, H: Heights)
    requires AllIn(g, ks) && forall j :: 0 <= j < |ks| ==> Mirrors(ks[j], g, H)
    ensures forall j :: 0 <= j < |ks| ==> Counted(ks[j], g, H)
  {
  }

  lemma SumNone(H: Heights)
    ensures Sum(H, []) == 0
  {
  }

  lemma FlatStep(g: Chunks, ks: seq<Chunk>, i: nat)
    requires i < |ks| && AllIn(g, ks[..i]) && ks[i] in g
    ensures AllIn(g, ks[..i + 1]) && Flat(g, ks[..i + 1]) == Flat(g, ks[..i]) + g[ks[i]].lines
  {
    assert ks[..i + 1] == ks[..i] + [ks[i]];
    FlatOne(g, ks[i]);
    FlatCat(g, ks[..i], [ks[i]]);
  }

  lemma FlatNext(g: Chunks, H: Heights, ks: seq<Chunk>, i: nat)
    requires AllIn(g, ks) && i < |ks|
    ensures AllIn(g, ks[..i]) && AllIn(g, ks[..i + 1])
    ensures |Flat(g, ks[..i + 1])| == |Flat(g, ks[..i])| + |g[ks[i]].lines|
    ensures Sum(H, Flat(g, ks[..i + 1])) == Sum(H, Flat(g, ks[..i])) + Sum(H, g[ks[i]].lines)
  {
    assert ks[..i + 1] == ks[..i] + [ks[i]];
    FlatOne(g, ks[i]);
    FlatCat(g, ks[..i], [ks[i]]);
    SumCat(H, Flat(g, ks[..i]), g[ks[i]].lines);
  }

  class Chunk {
    const leaf: bool
    var lines: seq<Line>
    var children: seq<Chunk>
    var size: int
    var height: int
    var parent: Chunk?

    function ChunkSize(): int
      reads this
    {
      if leaf then |lines| else size
    }

    constructor Leaf(lines: seq<Line>, ghost H: Heights)
      requires forall l :: l in lines ==> l in H && l.height == H[l]
      modifies lines`parent
      ensures leaf && this.lines == lines && parent == null && height == Sum(H, lines)
      ensures forall i :: 0 <= i < |lines| ==> LineOk(lines[i], this, H)
    {
      leaf, this.lines, children, size, parent := true, lines, [], 0, null;
      height := 0;
      new;
      for i := 0 to |lines|
        invariant height == Sum(H, lines[..i])
        invariant leaf && this.lines == lines && parent == null
        invariant forall j :: 0 <= j < i ==> LineOk(lines[j], this, H)
        invariant forall l :: l in lines ==> l.height == H[l]
      {
        lines[i].parent := this;
        height := height + lines[i].height;
        assert lines[..i + 1] == lines[..i] + [lines[i]];
        SumCat(H, lines[..i], [lines[i]]);
      }
      assert lines[..|lines|] == lines;
    }

    constructor Branch(children: seq<Chunk>, ghost g: Chunks, ghost H: Heights)
      requires AllIn(g, children)
      requires forall j :: 0 <= j < |children| ==> Mirrors(children[j], g, H)
      modifies children`parent
      ensures !leaf && this.children == children && parent == null
      ensures size == |Flat(g, children)| && height == Sum(H, Flat(g, children))
      ensures forall j :: 0 <= j < |children| ==> children[j].parent == this
    {
      hide Flat, Sum, Mirrors;
      AllCounted(children, g, H);
      FlatNone(g, children);
      SumNone(H);
      leaf, lines, this.children, size, parent := false, [], children, 0, null;
      height := 0;
      new;
      for i := 0 to |children|
        invariant AllIn(g, children[..i])
        invariant size == |Flat(g, children[..i])| && height == Sum(H, Flat(g, children[..i]))
        invariant !leaf && this.children == children && parent == null
        invariant forall j :: 0 <= j < i ==> children[j].parent == this
        invariant forall j :: i <= j < |children| ==> Counted(children[j], g, H)
      {
        FlatNext(g, H, children, i);
        TakeIn(children[i]);
      }
      assert children[..|children|] == children;
    }

    method TakeIn(ch: Chunk)
      requires ch != this
      modifies this`size, this`height, ch`parent
      ensures size == old(size) + ch.ChunkSize() && height == old(height) + ch.height && ch.parent == this
    {
      size := size + ch.ChunkSize();
      height := height + ch.height;
      ch.parent := this;
    }

    // ----- inserting

    method LeafInsert(at: nat, ls: seq<Line>, height: nat, ghost g: Chunks, ghost H: Heights)
      requires HeapOk(g, H) && this in g && g[this].leaf && at <= |g[this].lines|
      requires Unplaced(ls, H) && height == Sum(H, ls)
      modifies this`lines, this`height, ls`parent
      ensures HeapOk(Grown(g, this, at, ls), H)
    {
      hide Sum, NoDup;
      SumInsert(H, g[this].lines, at, ls);
      assert Mirrors(this, g, H) && LeafOk(g, this, H);
      PutLines(at, ls, height);
      ghost var h := Grown(g, this, at, ls);
      forall c | c in h ensures Mirrors(c, h, H) {
        assert old(Mirrors(c, g, H));
      }
      forall c | c in h && c != this ensures LeafOk(h, c, H) {
        assert old(LeafOk(g, c, H));
      }
      assert old(LeafOk(g, this, H));
      HeapFrom(h, H);
    }

    static lemma HeapFrom(h: Chunks, H: Heights)
      requires forall c :: c in h ==> Mirrors(c, h, H) && LeafOk(h, c, H)
      ensures HeapOk(h, H)
    {
    }

    method PutLines(at: nat, ls: seq<Line>, height: nat)
      requires at <= |lines|
      modifies this`lines, this`height, ls`parent
      ensures lines == Insert(old(lines), at, ls) && this.height == old(this.height) + height
      ensures forall l :: l in ls ==> l.parent == this
    {
      this.height := this.height + height;
      lines := lines[..at] + ls + lines[at..];
      SetParents(ls, this);
    }

    /** Leaf i, a child of this branch, is about to lose its last 25 lines. */
    ghost predicate CanSpill(child: Chunk, i: nat, g: Chunks) {
      && this in g && !g[this].leaf && i < |g[this].kids| && NoDup(g[this].kids)
      && child == g[this].kids[i] && child in g && g[child].parent == Some(this)
      && g[child].leaf && |g[child].lines| > 25 && NoDup(g[child].lines)
    }

    method SpillLeaf(child: Chunk, i: nat, ghost g: Chunks, ghost H: Heights) returns (newleaf: Chunk)
      requires HeapOk(g, H) && CanSpill(child, i, g)
      modifies this`children, child`lines, child`height, g[child].lines[|g[child].lines| - 25..]`parent
      ensures fresh(newleaf) && HeapOk(SplitLeaf(g, child, newleaf, |g[child].lines| - 25), H)
    {
      hide Sum, NoDup;
      ghost var m := |g[child].lines| - 25;
      assert Mirrors(this, g, H) && Mirrors(child, g, H) && LeafOk(g, child, H);
      PartsApart(g[child].lines, m);
      IndexOfIs(g[this].kids, i);
      newleaf := MoveLines(child, i, H);
      forall c | c in g && c != this && c != child ensures Mirrors(c, g, H) {
        assert old(Mirrors(c, g, H));
      }
      forall c | c in g && c != child ensures LeafOk(g, c, H) {
        assert old(LeafOk(g, c, H));
      }
      forall j | 0 <= j < m ensures LineOk(g[child].lines[j], child, H) {
        assert g[child].lines[j] in g[child].lines[..m];
        assert old(LineOk(g[child].lines[j], child, H));
      }
      SpilledHeap(child, i, newleaf, g, H);
    }

    lemma PartsApart(ls: seq<Line>, m: nat)
      requires NoDup(ls) && m <= |ls|
      ensures forall l :: l in ls[..m] ==> l !in ls[m..]
    {
    }

    /** The last lines of leaf i have gone to a new leaf behind it. */
    lemma SpilledHeap(child: Chunk, i: nat, n: Chunk, g: Chunks, H: Heights)
      requires CanSpill(child, i, g) && n !in g && child != this
      requires forall c :: c in g && c != this && c != child ==> Mirrors(c, g, H)
      requires forall c :: c in g && c != child ==> LeafOk(g, c, H)
      requires var m := |g[child].lines| - 25;
        && Is(child, g[child].(lines := g[child].lines[..m]), H)
        && Is(n, Node(true, g[child].lines[m..], [], Some(this), g[child].rank), H)
        && (forall j :: 0 <= j < m ==> LineOk(g[child].lines[j], child, H))
        && (forall j :: 0 <= j < 25 ==> LineOk(n.lines[j], n, H))
      requires children == Adopt(g, this, child, n)
      requires Is(this, g[this].(kids := children), H)
      ensures HeapOk(SplitLeaf(g, child, n, |g[child].lines| - 25), H)
    {
      hide Sum, NoDup, LineOk, Adopt;
      var h := SplitLeaf(g, child, n, |g[child].lines| - 25);
      forall c | c in h ensures Mirrors(c, h, H) {
        assert c in g && c != this && c != child ==> Mirrors(c, g, H);
      }
      forall c | c in h ensures LeafOk(h, c, H) {
        assert c in g && c != child ==> LeafOk(g, c, H);
      }
    }

    method MoveLines(child: Chunk, i: nat, ghost H: Heights) returns (newleaf: Chunk)
      requires i < |children| && child != this && child.leaf && |child.lines| > 25
      requires child.height == Sum(H, child.lines)
      requires forall l :: l in child.lines ==> l in H && l.height == H[l]
      modifies this`children, child`lines, child`height, child.lines[|child.lines| - 25..]`parent
      ensures fresh(newleaf) && newleaf.leaf && newleaf.parent == this
      ensures var m := |old(child.lines)| - 25;
              && child.lines == old(child.lines)[..m] && newleaf.lines == old(child.lines)[m..]
              && newleaf.height == Sum(H, newleaf.lines) && child.height == Sum(H, child.lines)
      ensures children == old(children)[..i + 1] + [newleaf] + old(children)[i + 1..]
      ensures forall j :: 0 <= j < |newleaf.lines| ==> LineOk(newleaf.lines[j], newleaf, H)
    {
      var m := |child.lines| - 25;
      SumCat(H, child.lines[..m], child.lines[m..]);
      assert child.lines[..m] + child.lines[m..] == child.lines;
      hide Sum;
      var spilled := child.lines[m..];
      child.lines := child.lines[..m];
      newleaf := new Chunk.Leaf(spilled, H);
      child.height := child.height - newleaf.height;
      children := children[..i + 1] + [newleaf] + children[i + 1..];
      newleaf.parent := this;
    }

    // ----- splitting branches

    /** A branch with too many children. */
    ghost predicate CanSplit(g: Chunks) {
      && this in g && !g[this].leaf && |g[this].kids| > 10
      && NoDup(g[this].kids) && AllIn(g, g[this].kids) && this !in g[this].kids
      && g[this].lines == Flat(g, g[this].kids)
    }

    ghost predicate HasParent(g: Chunks, p: Chunk) {
      && this in g && p in g && g[this].parent == Some(p) && p != this && !g[p].leaf
      && this in g[p].kids && NoDup(g[p].kids) && p !in g[this].kids
    }

    /** This branch has given its last five children to a new branch. */
    ghost predicate Shed(sibling: Chunk, p: Option<Chunk>, g: Chunks, H: Heights)
      requires CanSplit(g)
      reads g.Keys, sibling
    {
      var m := |g[this].kids| - 5;
      && AllIn(g, g[this].kids[..m]) && AllIn(g, g[this].kids[m..])
      && (forall j :: m <= j < |g[this].kids| ==> Is(g[this].kids[j], g[g[this].kids[j]].(parent := Some(sibling)), H))
      && Is(this, g[this].(kids := g[this].kids[..m], lines := Flat(g, g[this].kids[..m])), H)
      && Is(sibling, Node(false, Flat(g, g[this].kids[m..]), g[this].kids[m..], p, g[this].rank), H)
    }

    method SplitOff(p: Chunk, ghost g: Chunks, ghost H: Heights) returns (sibling: Chunk)
      requires HeapOk(g, H) && CanSplit(g) && HasParent(g, p)
      modifies this`children, this`size, this`height, p`children, g[this].kids[|g[this].kids| - 5..]`parent
      ensures fresh(sibling) && HeapOk(SplitBranch(g, this, sibling, |g[this].kids| - 5), H)
    {
      hide Sum, Flat, NoDup;
      ghost var moved := g[this].kids[|g[this].kids| - 5..];
      assert Mirrors(p, g, H) && Mirrors(this, g, H);
      sibling := ShedKids(g, H);
      PutBehind(p, sibling, g, H);
      hide Is;
      forall c | c in g && c != this && c != p && c !in moved ensures Mirrors(c, g, H) {
        assert old(Mirrors(c, g, H));
      }
      forall c | c in g ensures LeafOk(g, c, H) {
        assert old(LeafOk(g, c, H));
      }
      SplitHeap(p, sibling, g, H);
    }

    lemma SplitHeap(p: Chunk, sibling: Chunk, g: Chunks, H: Heights)
      requires CanSplit(g) && HasParent(g, p) && sibling !in g
      requires Shed(sibling, Some(p), g, H) && Is(p, g[p].(kids := Adopt(g, p, this, sibling)), H)
      requires forall c :: c in g && c != this && c != p && c !in g[this].kids[|g[this].kids| - 5..] ==>
        Mirrors(c, g, H)
      requires forall c :: c in g ==> LeafOk(g, c, H)
      ensures HeapOk(SplitBranch(g, this, sibling, |g[this].kids| - 5), H)
    {
      hide Is, Flat, Adopt, LineOk;
      var h := SplitBranch(g, this, sibling, |g[this].kids| - 5);
      forall c | c in h ensures Mirrors(c, h, H) {
      }
      forall c | c in h ensures LeafOk(h, c, H) {
        assert c in g ==> LeafOk(g, c, H);
      }
    }

    method ShedKids(ghost g: Chunks, ghost H: Heights) returns (sibling: Chunk)
      requires CanSplit(g) && Mirrors(this, g, H)
      requires forall j :: 0 <= j < |g[this].kids| ==> Mirrors(g[this].kids[j], g, H)
      modifies this`children, this`size, this`height, g[this].kids[|g[this].kids| - 5..]`parent
      ensures fresh(sibling) && Shed(sibling, None, g, H)
    {
      hide Sum, Flat;
      CutFlat(g, H, g[this].kids, |g[this].kids| - 5);
      sibling := MoveKids(g, H);
      size := size - sibling.size;
      height := height - sibling.height;
    }

    method PutBehind(p: Chunk, sibling: Chunk, ghost g: Chunks, ghost H: Heights)
      requires CanSplit(g) && HasParent(g, p) && sibling !in g && Mirrors(p, g, H)
      requires Shed(sibling, None, g, H)
      modifies p`children, sibling`parent
      ensures Shed(sibling, Some(p), g, H) && Is(p, g[p].(kids := Adopt(g, p, this, sibling)), H)
    {
      hide Sum, Flat;
      var myIndex := Find(p.children, this);
      p.children := p.children[..myIndex + 1] + [sibling] + p.children[myIndex + 1..];
      sibling.parent := p;
    }

    method MoveKids(ghost g: Chunks, ghost H: Heights) returns (sibling: Chunk)
      requires |children| > 5 && AllIn(g, children) && this !in children && !leaf
      requires forall j :: 0 <= j < |children| ==> Mirrors(children[j], g, H)
      modifies this`children, children[|children| - 5..]`parent
      ensures fresh(sibling) && !sibling.leaf && sibling.parent == null
      ensures var m := |old(children)| - 5;
              && children == old(children)[..m] && sibling.children == old(children)[m..]
              && AllIn(g, sibling.children) && sibling.size == |Flat(g, sibling.children)|
              && sibling.height == Sum(H, Flat(g, sibling.children))
      ensures forall j :: |old(children)| - 5 <= j < |old(children)| ==>
        Is(old(children)[j], g[old(children)[j]].(parent := Some(sibling)), H)
    {
      hide Sum, Flat;
      ghost var m := |children| - 5;
      ghost var all := children;
      assert forall j :: m <= j < |all| ==> all[j] == all[m..][j - m];
      var spilled := children[|children| - 5..];
      children := children[..|children| - 5];
      sibling := new Chunk.Branch(spilled, g, H);
    }

    /** The root has handed its children to two new branches. */
    ghost predicate Handed(copy: Chunk, sibling: Chunk, g: Chunks, H: Heights)
      requires CanSplit(g)
      reads g.Keys, copy, sibling
    {
      var m := |g[this].kids| - 5;
      && AllIn(g, g[this].kids[..m]) && AllIn(g, g[this].kids[m..])
      && (forall j :: m <= j < |g[this].kids| ==> Is(g[this].kids[j], g[g[this].kids[j]].(parent := Some(sibling)), H))
      && (forall j :: 0 <= j < m ==> Is(g[this].kids[j], g[g[this].kids[j]].(parent := Some(copy)), H))
      && Is(this, g[this].(kids := [copy, sibling], rank := g[this].rank + 1), H)
      && Is(copy, Node(false, Flat(g, g[this].kids[..m]), g[this].kids[..m], Some(this), g[this].rank), H)
      && Is(sibling, Node(false, Flat(g, g[this].kids[m..]), g[this].kids[m..], Some(this), g[this].rank), H)
    }

    method SplitOffRoot(ghost g: Chunks, ghost H: Heights) returns (copy: Chunk, sibling: Chunk)
      requires HeapOk(g, H) && CanSplit(g) && g[this].parent == None
      modifies this`children, g[this].kids`parent
      ensures fresh(copy) && fresh(sibling) && copy != sibling
      ensures HeapOk(SplitRoot(g, this, copy, sibling, |g[this].kids| - 5), H)
    {
      assert Mirrors(this, g, H);
      copy, sibling := HandKids(g, H);
      hide Sum, Flat, Is;
      forall c | c in g && c != this && c !in g[this].kids ensures Mirrors(c, g, H) {
        assert old(Mirrors(c, g, H));
      }
      forall c | c in g ensures LeafOk(g, c, H) {
        assert old(LeafOk(g, c, H));
      }
      SplitRootHeap(copy, sibling, g, H);
    }

    method HandKids(ghost g: Chunks, ghost H: Heights) returns (copy: Chunk, sibling: Chunk)
      requires CanSplit(g) && Mirrors(this, g, H) && g[this].parent == None
      requires forall j :: 0 <= j < |g[this].kids| ==> Mirrors(g[this].kids[j], g, H)
      modifies this`children, g[this].kids`parent
      ensures fresh(copy) && fresh(sibling) && copy != sibling && Handed(copy, sibling, g, H)
    {
      hide Sum, Flat, Handed;
      CutFlat(g, H, g[this].kids, |g[this].kids| - 5);
      sibling := MoveKids(g, H);
      copy := CopyKids(g[this].rank, g, H);
      KidsHanded(copy, sibling, g, H);
      Crown(copy, sibling, g, H);
    }

    /** As Handed, while the root still has its first children and the new sibling no parent. */
    ghost predicate HandedBelow(copy: Chunk, sibling: Chunk, g: Chunks, H: Heights)
      requires CanSplit(g)
      reads g.Keys, copy, sibling
    {
      var m := |g[this].kids| - 5;
      && AllIn(g, g[this].kids[..m]) && AllIn(g, g[this].kids[m..])
      && (forall j :: m <= j < |g[this].kids| ==> Is(g[this].kids[j], g[g[this].kids[j]].(parent := Some(sibling)), H))
      && (forall j :: 0 <= j < m ==> Is(g[this].kids[j], g[g[this].kids[j]].(parent := Some(copy)), H))
      && Is(this, g[this].(kids := g[this].kids[..m]), H)
      && Is(copy, Node(false, Flat(g, g[this].kids[..m]), g[this].kids[..m], Some(this), g[this].rank), H)
      && Is(sibling, Node(false, Flat(g, g[this].kids[m..]), g[this].kids[m..], None, g[this].rank), H)
    }

    lemma KidsHanded(copy: Chunk, sibling: Chunk, g: Chunks, H: Heights)
      requires CanSplit(g)
      requires var m := |g[this].kids| - 5;
        && Is(this, g[this].(kids := g[this].kids[..m]), H)
        && AllIn(g, g[this].kids[..m]) && AllIn(g, g[this].kids[m..])
        && (forall j :: 0 <= j < m ==> Is(g[this].kids[..m][j], g[g[this].kids[..m][j]].(parent := Some(copy)), H))
        && (forall j :: m <= j < |g[this].kids| ==>
          Is(g[this].kids[j], g[g[this].kids[j]].(parent := Some(sibling)), H))
        && Is(copy, Node(false, Flat(g, g[this].kids[..m]), g[this].kids[..m], Some(this), g[this].rank), H)
        && Is(sibling, Node(false, Flat(g, g[this].kids[m..]), g[this].kids[m..], None, g[this].rank), H)
      ensures HandedBelow(copy, sibling, g, H)
    {
      hide Is, Flat;
      var m := |g[this].kids| - 5;
      forall j | 0 <= j < m ensures Is(g[this].kids[j], g[g[this].kids[j]].(parent := Some(copy)), H) {
        assert g[this].kids[..m][j] == g[this].kids[j];
      }
    }

    method Crown(copy: Chunk, sibling: Chunk, ghost g: Chunks, ghost H: Heights)
      requires CanSplit(g) && copy !in g && sibling !in g && copy != sibling && HandedBelow(copy, sibling, g, H)
      modifies this`children, sibling`parent
      ensures Handed(copy, sibling, g, H)
    {
      hide Sum, Flat;
      children := [copy, sibling];
      sibling.parent := this;
    }

    method CopyKids(ghost rank: nat, ghost g: Chunks, ghost H: Heights) returns (copy: Chunk)
      requires AllIn(g, children)
      requires forall j :: 0 <= j < |children| ==> Mirrors(children[j], g, H)
      modifies children`parent
      ensures fresh(copy)
      ensures forall j :: 0 <= j < |children| ==> Is(children[j], g[children[j]].(parent := Some(copy)), H)
      ensures Is(copy, Node(false, Flat(g, children), children, Some(this), rank), H)
    {
      hide Sum, Flat, NoDup;
      copy := new Chunk.Branch(children, g, H);
      copy.parent := this;
      forall j | 0 <= j < |children| ensures Is(children[j], g[children[j]].(parent := Some(copy)), H) {
        assert old(Mirrors(children[j], g, H));
      }
    }

    lemma SplitRootHeap(copy: Chunk, sibling: Chunk, g: Chunks, H: Heights)
      requires CanSplit(g) && copy !in g && sibling !in g && copy != sibling && Handed(copy, sibling, g, H)
      requires forall c :: c in g && c != this && c !in g[this].kids ==> Mirrors(c, g, H)
      requires forall c :: c in g ==> LeafOk(g, c, H)
      ensures HeapOk(SplitRoot(g, this, copy, sibling, |g[this].kids| - 5), H)
    {
      hide Is, Flat, LineOk;
      var m := |g[this].kids| - 5;
      var h := SplitRoot(g, this, copy, sibling, m);
      forall c | c in h ensures Mirrors(c, h, H) {
        if c in g[this].kids {
          var j :| 0 <= j < |g[this].kids| && g[this].kids[j] == c;
          assert j < m ==> c in g[this].kids[..m] && c !in g[this].kids[m..];
          assert j >= m ==> c == g[this].kids[m..][j - m];
          assert h[c] == g[c].(parent := Some(if j < m then copy else sibling));
          assert Is(g[this].kids[j], h[c], H);
        }
      }
      forall c | c in h ensures LeafOk(h, c, H) {
        assert c in g ==> LeafOk(g, c, H);
      }
    }

    // ----- when a node has grown

    lemma ReadyToSplit(g: Chunks, root: Chunk)
      requires WF(g, root) && this in g && !g[this].leaf && |g[this].kids| > 10
      ensures CanSplit(g)
      ensures if this == root then g[this].parent == None
              else g[this].parent.Some? && HasParent(g, g[this].parent.value)
    {
      OwnKids(g, root, this);
      if this == root {
        assert Attached(g, root, this);
      } else {
        InParent(g, root, this);
      }
    }

    method SplitBelow(p: Chunk, ghost g: Chunks, ghost root: Chunk, ghost H: Heights) returns (ghost h: Chunks)
      requires Overfull(g, root, this, p) && |g[this].kids| > 10 && HeapOk(g, H)
      modifies g.Keys
      ensures Overfull(h, root, this, p) && HeapOk(h, H) && root in g && SplitOnce(g, h, root, p)
      ensures fresh(h.Keys - g.Keys)
    {
      hide Overfull, HeapOk, SplitBranch, Bounded, WF, NoDup, Flat;
      ReadyBelow(g, root, p);
      var sibling := SplitOff(p, g, H);
      h := SplitBranch(g, this, sibling, |g[this].kids| - 5);
      AfterSplitBranch(g, root, this, p, sibling);
    }

    lemma ReadyBelow(g: Chunks, root: Chunk, p: Chunk)
      requires Overfull(g, root, this, p) && |g[this].kids| > 10
      ensures CanSplit(g) && HasParent(g, p) && p != this && root in g
    {
      ReadyToSplit(g, root);
    }

    ghost predicate SplitOnce(g: Chunks, h: Chunks, root: Chunk, p: Chunk) {
      && root in g && root in h && this in g && this in h && p in g && p in h
      && g.Keys <= h.Keys && h[root].lines == g[root].lines && h[root].rank == g[root].rank
      && h[p].rank == g[p].rank && |h[this].kids| == |g[this].kids| - 5 && |h[p].kids| == |g[p].kids| + 1
    }

    method SplitTop(ghost g: Chunks, ghost H: Heights) returns (copy: Chunk, ghost h: Chunks)
      requires WF(g, this) && this in g && !g[this].leaf && |g[this].kids| > 10
      requires Bounded(g, {this}) && HeapOk(g, H)
      modifies g.Keys
      ensures copy in h && this in h && Overfull(h, this, copy, this) && HeapOk(h, H)
      ensures g.Keys <= h.Keys && h[this].lines == g[this].lines && |h[copy].kids| == |g[this].kids| - 5
        && |h[this].kids| == 2
      ensures fresh(h.Keys - g.Keys)
    {
      hide Overfull, HeapOk, SplitRoot, Bounded, WF, NoDup, Flat;
      ReadyToSplit(g, this);
      var sibling;
      copy, sibling := SplitOffRoot(g, H);
      h := SplitRoot(g, this, copy, sibling, |g[this].kids| - 5);
      AfterSplitRoot(g, this, copy, sibling);
    }

    /** Well-formed and within the bounds, with the lines the root had in g. */
    ghost predicate Settled(g: Chunks, h: Chunks, root: Chunk, except: set<Chunk>) {
      root in g && root in h && WF(h, root) && Bounded(h, except) && h[root].lines == g[root].lines && g.Keys <= h.Keys
    }

    lemma InHeap(g: Chunks, H: Heights)
      requires this in g && HeapOk(g, H)
      ensures leaf == g[this].leaf && parent == OrNull(g[this].parent)
      ensures if leaf then lines == g[this].lines else children == g[this].kids && size == |g[this].lines|
    {
      assert Mirrors(this, g, H);
    }

    /** This branch, with few enough children now, has grown its parent p. */
    lemma GrownParent(g: Chunks, root: Chunk, p: Chunk)
      requires Overfull(g, root, this, p) && |g[this].kids| <= 10
      ensures p in g && root in g && !g[p].leaf && g[p].rank <= g[root].rank && WF(g, root) && Bounded(g, {p})
    {
      InParent(g, root, this);
    }

    lemma BelowRoot(g: Chunks, root: Chunk)
      requires this in g && root in g && WF(g, root) && Bounded(g, {this}) && !g[this].leaf
      ensures this == root <==> g[this].parent == None
      ensures this != root ==>
        var p := g[this].parent.value; Overfull(g, root, this, p) && p in g && g[p].rank == g[this].rank + 1
      ensures |g[this].kids| <= 10 ==> Bounded(g, {})
    {
      assert Attached(g, root, this);
      if this != root {
        InParent(g, root, this);
      }
    }

    /** When a node has grown, split it, and its ancestors as far as they grow by that. */
    method MaybeSpill(ghost g: Chunks, ghost root: Chunk, ghost H: Heights) returns (ghost h: Chunks)
      requires this in g && root in g && !g[this].leaf && g[this].rank <= g[root].rank
      requires WF(g, root) && Bounded(g, {this}) && HeapOk(g, H)
      modifies g.Keys
      ensures Settled(g, h, root, {}) && HeapOk(h, H) && fresh(h.Keys - g.Keys)
      decreases g[root].rank - g[this].rank, |g[this].kids|
    {
      hide WF, HeapOk, Overfull, Bounded;
      InHeap(g, H);
      BelowRoot(g, root);
      h := g;
      if |children| <= 10 {
        return;
      }
      var me: Chunk, p := this, parent;
      if p == null {
        p := this;
        me, h := SplitTop(g, H);
      } else {
        h := SplitBelow(p, g, root, H);
      }
      assert me in h && p in h;
      h := me.SplitFurther(p, h, root, H);
      me.GrownParent(h, root, p);
      h := p.MaybeSpill(h, root, H);
    }

    method SplitFurther(p: Chunk, ghost g: Chunks, ghost root: Chunk, ghost H: Heights) returns (ghost h: Chunks)
      requires this in g && p in g && root in g && 5 < |g[this].kids| && Overfull(g, root, this, p) && HeapOk(g, H)
      modifies g.Keys
      ensures this in h && p in h && root in h && 5 < |h[this].kids| <= 10 && Overfull(h, root, this, p) && HeapOk(h, H)
      ensures g.Keys <= h.Keys && fresh(h.Keys - g.Keys) && h[root].lines == g[root].lines
      ensures h[p].rank == g[p].rank && h[root].rank == g[root].rank
      ensures 5 * |h[p].kids| + |h[this].kids| == 5 * |g[p].kids| + |g[this].kids|
    {
      hide HeapOk, Overfull, Sum, NoDup;
      OverfullIsBranch(g, root, p);
      InHeap(g, H);
      h := g;
      while |children| > 10
        invariant this in h && p in h && root in h && 5 < |h[this].kids| && !h[this].leaf
        invariant Overfull(h, root, this, p) && HeapOk(h, H) && children == h[this].kids
        invariant g.Keys <= h.Keys && fresh(h.Keys - g.Keys) && h[root].lines == g[root].lines
        invariant h[p].rank == g[p].rank && h[root].rank == g[root].rank
        invariant 5 * |h[p].kids| + |h[this].kids| == 5 * |g[p].kids| + |g[this].kids|
        decreases |h[this].kids|
      {
        h := SplitBelow(p, h, root, H);
        OverfullIsBranch(h, root, p);
        InHeap(h, H);
      }
    }

    lemma OverfullIsBranch(g: Chunks, root: Chunk, p: Chunk)
      requires Overfull(g, root, this, p)
      ensures this in g && !g[this].leaf
    {
    }

    // ----- inserting below a branch

    /** Find the child that takes an insertion at `at`; `rest` is the offset in it. */
    method ChildAt(at: nat, ghost g: Chunks, ghost H: Heights) returns (i: nat, rest: nat)
      requires this in g && !g[this].leaf && Local(g, this) && children == g[this].kids && at <= |g[this].lines|
      requires forall j :: 0 <= j < |g[this].kids| ==> g[this].kids[j] in g && Counted(g[this].kids[j], g, H)
      ensures i < |g[this].kids| && AllIn(g, g[this].kids[..i]) && rest <= at
      ensures at - rest == |Flat(g, g[this].kids[..i])| && rest <= |g[g[this].kids[i]].lines|
    {
      i, rest := 0, at;
      var n := |children|;
      while children[i].ChunkSize() < rest
        invariant i < n && AllIn(g, g[this].kids[..i]) && rest <= at
        invariant at - rest == |Flat(g, g[this].kids[..i])|
        decreases n - i
      {
        rest := rest - children[i].ChunkSize();
        FlatNext(g, H, g[this].kids, i);
        i := i + 1;
        assert g[this].kids[..n] == g[this].kids;
      }
    }

    method AddCounts(at: nat, ls: seq<Line>, height: nat, ghost g: Chunks, ghost H: Heights)
      requires HeapOk(g, H) && this in g && !g[this].leaf && at <= |g[this].lines| && height == Sum(H, ls)
      modifies this`size, this`height
      ensures HeapOk(Grown(g, this, at, ls), H)
    {
      hide Sum;
      SumInsert(H, g[this].lines, at, ls);
      assert Mirrors(this, g, H);
      size := size + |ls|;
      this.height := this.height + height;
      ghost var h := Grown(g, this, at, ls);
      forall c | c in h ensures Mirrors(c, h, H) {
        assert old(Mirrors(c, g, H));
      }
      forall c | c in h ensures LeafOk(h, c, H) {
        assert old(LeafOk(g, c, H));
      }
    }

    lemma LongCanSpill(child: Chunk, i: nat, g: Chunks, root: Chunk)
      requires LongLeaf(g, root, this, i, child) && |g[child].lines| > 25
      ensures CanSpill(child, i, g) && child in g[this].kids && child != this
    {
      OwnKids(g, root, this);
      LinesNoDup(g, root, child);
    }

    method SpillLines(child: Chunk, i: nat, ghost g: Chunks, ghost root: Chunk,
      ghost H: Heights) returns (ghost h: Chunks)
      requires child in g && this in g && root in g && LongLeaf(g, root, this, i, child) && HeapOk(g, H)
      modifies this`children, child`lines, child`height, g[child].lines`parent
      ensures child in h && this in h && root in h && LongLeaf(h, root, this, i, child) && HeapOk(h, H)
      ensures |h[child].lines| <= 50 && g.Keys <= h.Keys && fresh(h.Keys - g.Keys)
      ensures h[root].lines == g[root].lines && h[this].rank == g[this].rank && h[root].rank == g[root].rank
    {
      hide HeapOk, LongLeaf, NoDup, Sum, SplitLeaf;
      h := g;
      LongIsLeaf(child, i, h, root);
      child.InHeap(h, H);
      while |child.lines| > 50
        invariant child in h && this in h && root in h && LongLeaf(h, root, this, i, child) && HeapOk(h, H)
        invariant child.lines == h[child].lines && h[child].lines <= g[child].lines
        invariant g.Keys <= h.Keys && fresh(h.Keys - g.Keys)
        invariant h[root].lines == g[root].lines && h[this].rank == g[this].rank && h[root].rank == g[root].rank
        decreases |h[child].lines|
      {
        LongCanSpill(child, i, h, root);
        LongIsLeaf(child, i, h, root);
        var newleaf := SpillLeaf(child, i, h, H);
        AfterSplitLeaf(h, root, this, i, child, newleaf);
        h := SplitLeaf(h, child, newleaf, |h[child].lines| - 25);
        LongIsLeaf(child, i, h, root);
        child.InHeap(h, H);
      }
    }

    lemma LongIsLeaf(child: Chunk, i: nat, g: Chunks, root: Chunk)
      requires LongLeaf(g, root, this, i, child)
      ensures child in g && g[child].leaf && this in g && i < |g[this].kids| && g[this].kids[i] == child
      ensures g[child].parent == Some(this) && !g[this].leaf
    {
    }

    lemma KidsCounted(at: nat, ls: seq<Line>, g: Chunks, root: Chunk, H: Heights)
      requires this in g && !g[this].leaf && Pending(g, root, this, at, ls) && HeapOk(Grown(g, this, at, ls), H)
      ensures Local(g, this) && children == g[this].kids && at <= |g[this].lines|
      ensures forall j :: 0 <= j < |g[this].kids| ==> g[this].kids[j] in g && Counted(g[this].kids[j], g, H)
    {
      var h := Grown(g, this, at, ls);
      assert Mirrors(this, h, H);
      forall j | 0 <= j < |g[this].kids| ensures g[this].kids[j] in g && Counted(g[this].kids[j], g, H) {
        assert IsKid(g, this, g[this].kids[j]);
        assert Mirrors(g[this].kids[j], h, H);
      }
    }

    lemma LinesOnTheWay(at: nat, ls: seq<Line>, g: Chunks)
      requires this in g && at <= |g[this].lines|
      ensures LinesOf(Grown(g, this, at, ls)) <= LinesOf(g) + set l | l in ls
    {
      var h := Grown(g, this, at, ls);
      forall l | l in LinesOf(h) ensures l in LinesOf(g) || l in ls {
        var c: Chunk :| c in h && l in h[c].lines;
        assert c in g;
        assert c != this ==> l in g[c].lines;
        assert l in h[this].lines ==> l in g[this].lines || l in ls;
      }
    }

    lemma BelowReady(at: nat, ls: seq<Line>, i: nat, g: Chunks, root: Chunk)
      requires this in g && root in g && !g[this].leaf && at <= |g[this].lines| && i < |g[this].kids| && Bounded(g, {})
      requires Pending(g, root, this, at, ls)
      ensures var g1, c := Grown(g, this, at, ls), g[this].kids[i];
              && KidsOk(g1, this) && Bounded(g1, {}) && c in g && g1[c] == g[c] && c != root && g[c].rank < g[this].rank
    {
      var c := g[this].kids[i];
      assert IsKid(g, this, c) && Attached(g, root, root);
      assert forall j :: 0 <= j < |g[this].kids| ==> IsKid(g, this, g[this].kids[j]);
    }

    /** Insert lines below this branch; all chunks above it count them already. */
    method BranchInsert(at: nat, ls: seq<Line>, height: nat, ghost g: Chunks, ghost root: Chunk, ghost H: Heights)
      returns (ghost h: Chunks)
      requires this in g && root in g && !g[this].leaf && at <= |g[this].lines| && Pending(g, root, this, at, ls)
      requires HeapOk(g, H) && Unplaced(ls, H) && height == Sum(H, ls) && Bounded(g, {})
      modifies g.Keys, ls`parent, LinesOf(g)`parent
      ensures root in h && WF(h, root) && Bounded(h, {}) && HeapOk(h, H)
      ensures h[root].lines == Grown(g, this, at, ls)[root].lines
      ensures g.Keys <= h.Keys && fresh(h.Keys - g.Keys)
      decreases g[this].rank, 0
    {
      hide Pending, HeapOk, Unplaced, Sum, Bounded, WF, Local, LongLeaf, KidsOk, Flat;
      AddCounts(at, ls, height, g, H);
      ghost var g1 := Grown(g, this, at, ls);
      KidsCounted(at, ls, g, root, H);
      var i, rest := ChildAt(at, g, H);
      PendingBelow(g, root, this, at, ls, i, at - rest);
      LinesOnTheWay(at, ls, g);
      BelowReady(at, ls, i, g, root);
      h := InsertBelow(children[i], i, rest, ls, height, g1, root, H);
    }

    method InsertBelow(child: Chunk, i: nat, at: nat, ls: seq<Line>, height: nat,
                       ghost g: Chunks, ghost root: Chunk, ghost H: Heights) returns (ghost h: Chunks)
      requires this in g && root in g && child in g && !g[this].leaf && at <= |g[child].lines|
      requires Pending(g, root, child, at, ls) && KidsOk(g, this) && i < |g[this].kids| && g[this].kids[i] == child
      requires HeapOk(g, H) && Unplaced(ls, H) && height == Sum(H, ls) && Bounded(g, {})
      modifies g.Keys, ls`parent, LinesOf(g)`parent
      ensures root in h && WF(h, root) && Bounded(h, {}) && HeapOk(h, H)
      ensures h[root].lines == Grown(g, child, at, ls)[root].lines
      ensures g.Keys <= h.Keys && fresh(h.Keys - g.Keys)
      decreases g[child].rank, 1
    {
      hide Pending, HeapOk, Unplaced, Sum, Bounded, WF, Local, LongLeaf, Flat, KidsOk;
      child.InHeap(g, H);
      if child.leaf {
        child.LeafInsert(at, ls, height, g, H);
        h := Grown(g, child, at, ls);
        Arrived(g, root, this, i, at, ls);
        child.InHeap(h, H);
        if |child.lines| > 50 {
          GrownLines(child, at, ls, g);
          h := SpillLines(child, i, h, root, H);
          SpilledParent(child, i, h, root);
          h := MaybeSpill(h, root, H);
        } else {
          LongIsWF(child, i, h, root);
        }
      } else {
        h := child.BranchInsert(at, ls, height, g, root, H);
      }
    }

    lemma GrownLines(child: Chunk, at: nat, ls: seq<Line>, g: Chunks)
      requires child in g && at <= |g[child].lines|
      ensures forall l :: l in Grown(g, child, at, ls)[child].lines ==>
        l in ls || (l in g[child].lines && l in LinesOf(g))
    {
      forall l | l in g[child].lines ensures l in LinesOf(g) {
      }
    }

    lemma SpilledParent(child: Chunk, i: nat, g: Chunks, root: Chunk)
      requires LongLeaf(g, root, this, i, child) && child in g && |g[child].lines| <= 50
      ensures this in g && root in g && !g[this].leaf && g[this].rank <= g[root].rank
      ensures WF(g, root) && Bounded(g, {this})
    {
    }

    lemma LongIsWF(child: Chunk, i: nat, g: Chunks, root: Chunk)
      requires LongLeaf(g, root, this, i, child)
      ensures WF(g, root)
    {
    }

    // ----- removing

    /** Remove n lines of this leaf, one after the other. */
    method CutLines(at: nat, n: nat, ghost H: Heights)
      requires leaf && at + n <= |lines| && NoDup(lines) && height == Sum(H, lines)
      requires forall i :: 0 <= i < |lines| ==> LineOk(lines[i], this, H)
      modifies this`lines, this`height, lines[at..at + n]`parent
      ensures lines == Delete(old(lines), at, n) && height == Sum(H, lines)
      ensures forall i :: 0 <= i < |lines| ==> LineOk(lines[i], this, H)
      ensures Orphaned(old(lines), lines)
    {
      ghost var all := lines;
      hide Sum;
      assert lines[at..at] == [] && Sum(H, []) == 0 by { SumEmpty(H); }
      for i := at to at + n
        invariant lines == all && height == Sum(H, all) - Sum(H, all[at..i])
        invariant forall j :: at <= j < i ==> all[j].parent == null
        invariant forall j :: 0 <= j < |all| ==> all[j] in H && all[j].height == H[all[j]]
      {
        var line := lines[i];
        height := height - line.height;
        line.parent := null;
        assert all[at..i + 1] == all[at..i] + [line];
        SumCat(H, all[at..i], [line]);
        SumOne(H, line);
      }
      lines := lines[..at] + lines[at + n..];
      CutSum(H, all, at, n);
    }

    method LeafRemove(at: nat, n: nat, ghost g: Chunks, ghost H: Heights)
      requires this in g && g[this].leaf && at + n <= |g[this].lines| && NoDup(g[this].lines) && HeapUnder(g, this, H)
      modifies this`lines, this`height, g[this].lines`parent
      ensures HeapUnder(g[this := g[this].(lines := Delete(g[this].lines, at, n))], this, H)
      ensures Orphaned(g[this].lines, Delete(g[this].lines, at, n))
    {
      hide Sum, NoDup, Orphaned;
      assert LeafOk(g, this, H) && Mirrors(this, g, H);
      CutLines(at, n, H);
      ghost var h := g[this := g[this].(lines := Delete(g[this].lines, at, n))];
      forall c | c in h && h[c].rank < h[this].rank ensures Mirrors(c, h, H) {
        assert old(Mirrors(c, g, H));
      }
      forall c | c in h ensures LeafOk(h, c, H) {
        assert old(LeafOk(g, c, H));
      }
    }

    /** Add all lines below this chunk to the given ones. */
    method Collapse(acc: seq<Line>, ghost g: Chunks, ghost H: Heights) returns (all: seq<Line>)
      requires this in g && Below(g, g[this].rank) && ChunksBelow(g, g[this].rank, H) && leaf == g[this].leaf
      requires if leaf then lines == g[this].lines else LooseKids(g, this) && children == g[this].kids
      ensures all == acc + if leaf then g[this].lines else Flat(g, g[this].kids)
      decreases g[this].rank, 1
    {
      if leaf {
        all := acc + lines;
      } else {
        all := CollapseChildren(acc, g, H);
      }
    }

    method CollapseChildren(acc: seq<Line>, ghost g: Chunks, ghost H: Heights) returns (all: seq<Line>)
      requires this in g && Below(g, g[this].rank) && ChunksBelow(g, g[this].rank, H)
      requires LooseKids(g, this) && children == g[this].kids
      ensures AllIn(g, g[this].kids) && all == acc + Flat(g, g[this].kids)
      decreases g[this].rank, 0
    {
      hide Flat, Below, ChunksBelow, LooseKids;
      all := acc;
      FlatNone(g, g[this].kids);
      for i := 0 to |children|
        invariant AllIn(g, g[this].kids[..i]) && all == acc + Flat(g, g[this].kids[..i])
      {
        CollapseBelow(children[i], i, g, H);
        FlatStep(g, g[this].kids, i);
        all := children[i].Collapse(all, g, H);
      }
      assert g[this].kids[..|children|] == g[this].kids;
    }

    lemma OthersApart(g: Chunks, H: Heights)
      requires this in g && Below(g, g[this].rank) && LooseKids(g, this) && LinesOk(g, H)
      ensures forall c, l :: c in g && c !in Sub(g, this) && g[c].leaf && l in g[c].lines ==>
        l !in Flat(g, g[this].kids)
    {
      LinesBelow(g, H);
      forall c, l | c in g && c !in Sub(g, this) && g[c].leaf && l in g[c].lines
        ensures l !in Flat(g, g[this].kids)
      {
        var k :| 0 <= k < |g[c].lines| && g[c].lines[k] == l;
        assert LeafOk(g, c, H) && LineOk(g[c].lines[k], c, H);
      }
    }

    lemma CollapseBelow(child: Chunk, i: nat, g: Chunks, H: Heights)
      requires this in g && Below(g, g[this].rank) && ChunksBelow(g, g[this].rank, H) && LooseKids(g, this)
      requires i < |g[this].kids| && child == g[this].kids[i]
      ensures child in g && g[child].rank < g[this].rank && child.leaf == g[child].leaf
      ensures Below(g, g[child].rank) && ChunksBelow(g, g[child].rank, H)
      ensures if child.leaf then child.lines == g[child].lines
              else LooseKids(g, child) && child.children == g[child].kids && g[child].lines == Flat(g, g[child].kids)
    {
      assert IsKid(g, this, child) && Local(g, child) && Mirrors(child, g, H);
    }

    /** Every line below this branch has its height in H, and its parent among the chunks below. */
    lemma LinesBelow(g: Chunks, H: Heights)
      requires this in g && Below(g, g[this].rank) && LooseKids(g, this) && LinesOk(g, H)
      ensures Closed(g, this, Sub(g, this))
      ensures forall i :: 0 <= i < |Flat(g, g[this].kids)| ==>
        var l := Flat(g, g[this].kids)[i]; l in H && l.height == H[l] && l.parent != null && l.parent in Sub(g, this)
    {
      var D := Sub(g, this);
      SubIsClosed(g, this);
      forall i | 0 <= i < |Flat(g, g[this].kids)|
        ensures var l := Flat(g, g[this].kids)[i]; l in H && l.height == H[l] && l.parent != null && l.parent in D
      {
        var l := Flat(g, g[this].kids)[i];
        var j := LineHasKid(g, g[this].kids, l);
        assert IsKid(g, this, g[this].kids[j]);
        var z := LineHasLeaf(g, this, g[this].kids[j], D, l);
        assert LeafOk(g, z, H);
        var k :| 0 <= k < |g[z].lines| && g[z].lines[k] == l;
        assert LineOk(g[z].lines[k], z, H);
      }
    }

    /** Replace all children by one leaf with all their lines. */
    method CollapseHere(ghost g: Chunks, ghost H: Heights) returns (newleaf: Chunk)
      requires this in g && g[this].rank > 0 && LooseKids(g, this) && Below(g, g[this].rank)
      requires ChunksBelow(g, g[this].rank, H) && LinesOk(g, H)
      requires !leaf && children == g[this].kids && parent == OrNull(g[this].parent)
      requires size == |Flat(g, g[this].kids)| && height == Sum(H, Flat(g, g[this].kids))
      modifies this`children, Flat(g, g[this].kids)`parent
      ensures fresh(newleaf) && HeapUnder(Collapsed(g, this, newleaf), this, H)
      ensures children == [newleaf] && newleaf.leaf
    {
      assert !g[this].leaf;
      hide Mirrors, Is, LineOk, NoDup, Sum, Flat, Below, Sub, LooseKids, Closed, ChunksBelow, LinesOk, HeapUnder,
        Collapsed;
      LinesBelow(g, H);
      OthersApart(g, H);
      AllBelow(g, H);
      var lines := Collapse([], g, H);
      newleaf := ReplaceKids(lines, g, H);
    }

    lemma AllBelow(g: Chunks, H: Heights)
      requires this in g && ChunksBelow(g, g[this].rank, H) && LinesOk(g, H)
      ensures forall c :: c in g && g[c].rank < g[this].rank ==> Mirrors(c, g, H)
      ensures forall c :: c in g ==> LeafOk(g, c, H)
    {
    }

    method PutLeaf(lines: seq<Line>, ghost rank: nat, ghost H: Heights) returns (newleaf: Chunk)
      requires forall l :: l in lines ==> l in H && l.height == H[l]
      modifies this`children, lines`parent
      ensures fresh(newleaf) && children == [newleaf] && newleaf.leaf
      ensures Is(newleaf, Node(true, lines, [], Some(this), rank), H)
      ensures forall i :: 0 <= i < |lines| ==> LineOk(lines[i], newleaf, H)
    {
      newleaf := new Chunk.Leaf(lines, H);
      children := [newleaf];
      newleaf.parent := this;
    }

    method ReplaceKids(lines: seq<Line>, ghost g: Chunks, ghost H: Heights) returns (newleaf: Chunk)
      requires this in g && g[this].rank > 0 && LooseKids(g, this) && Below(g, g[this].rank)
      requires lines == Flat(g, g[this].kids) && !leaf && parent == OrNull(g[this].parent)
      requires size == |lines| && height == Sum(H, lines)
      requires forall l :: l in lines ==> l in H && l.height == H[l]
      requires forall c :: c in g && g[c].rank < g[this].rank ==> Mirrors(c, g, H)
      requires forall c :: c in g ==> LeafOk(g, c, H)
      requires forall c, l :: c in g && c !in Sub(g, this) && g[c].leaf && l in g[c].lines ==> l !in lines
      modifies this`children, lines`parent
      ensures fresh(newleaf) && HeapUnder(Collapsed(g, this, newleaf), this, H)
      ensures children == [newleaf] && newleaf.leaf
    {
      hide Mirrors, Is, NoDup, Sum, Flat, Below, Sub, LooseKids, HeapUnder, Collapsed;
      newleaf := PutLeaf(lines, g[this].rank - 1, H);
      forall c | c in g && c != this && g[c].rank < g[this].rank ensures Mirrors(c, g, H) {
        assert old(Mirrors(c, g, H));
      }
      forall c | c in g && c !in Sub(g, this) ensures LeafOk(g, c, H) {
        assert old(LeafOk(g, c, H));
        if g[c].leaf {
          assert forall i :: 0 <= i < |g[c].lines| ==> g[c].lines[i] !in lines;
        }
      }
      CollapsedHeap(newleaf, lines, g, H);
    }

    lemma CollapsedHeap(newleaf: Chunk, lines: seq<Line>, g: Chunks, H: Heights)
      requires this in g && g[this].rank > 0 && LooseKids(g, this) && Below(g, g[this].rank) && newleaf !in g
      requires lines == Flat(g, g[this].kids) && children == [newleaf] && !leaf && parent == OrNull(g[this].parent)
      requires size == |lines| && height == Sum(H, lines)
      requires Is(newleaf, Node(true, lines, [], Some(this), g[this].rank - 1), H)
      requires forall i :: 0 <= i < |lines| ==> LineOk(lines[i], newleaf, H)
      requires forall c :: c in g && c != this && g[c].rank < g[this].rank ==> Mirrors(c, g, H)
      requires forall c :: c in g && c !in Sub(g, this) ==> LeafOk(g, c, H)
      ensures HeapUnder(Collapsed(g, this, newleaf), this, H)
    {
      hide Sum, Flat, Below, Sub, LineOk;
      var h := Collapsed(g, this, newleaf);
      forall c | c in h && h[c].rank < h[this].rank ensures Mirrors(c, h, H) {
      }
      forall c | c in h ensures LeafOk(h, c, H) {
        assert c in g && c != this ==> LeafOk(g, c, H);
      }
    }

    // ----- removing below a branch

    /** The heap while this branch removes lines from its children, one after the other:
        its size already is the final one, its height that of the lines still there. */
    ghost predicate Half(g: Chunks, H: Heights)
      reads this, g.Keys, LinesOf(g)
    {
      && this in g && AllIn(g, g[this].kids) && ChunksBelow(g, g[this].rank, H) && LinesOk(g, H)
      && !leaf && !g[this].leaf && children == g[this].kids && parent == OrNull(g[this].parent)
      && height == Sum(H, Flat(g, g[this].kids))
    }

    lemma ChildIsWhole(child: Chunk, g: Chunks, H: Heights)
      requires this in g && Half(g, H) && child in g && IsKid(g, this, child)
      ensures HeapUnder(g, child, H) && child.height == Sum(H, g[child].lines) && child != this
      ensures forall c :: c in g && g[c].rank < g[this].rank ==> Mirrors(c, g, H)
    {
      assert Mirrors(child, g, H);
    }

    method RemoveInChild(child: Chunk, at: nat, rm: nat, ghost g: Chunks, ghost H: Heights) returns (ghost h: Chunks)
      requires this in g && Half(g, H) && child in g && IsKid(g, this, child) && CanRemove(g, child, at, rm)
      modifies Lower(g, child), SetOf(g[child].lines)`parent
      ensures child in h && Removed(g, h, child, at, rm) && fresh(h.Keys - g.Keys)
      ensures ChunksBelow(h, g[this].rank, H) && LinesOk(h, H) && child.height == Sum(H, h[child].lines)
      ensures Orphaned(g[child].lines, h[child].lines)
      decreases g[this].rank, 0
    {
      hide Half, Sum, CanRemove, Orphaned, Ready, Delete, LinesOk;
      ChildIsWhole(child, g, H);
      hide Bounded;
      h := child.RemoveInner(at, rm, g, H);
      forall c | c in h && h[c].rank < g[this].rank ensures Mirrors(c, h, H) {
        if h[c].rank == g[child].rank && c != child {
          assert SameNode(g, h, c);
          assert old(Mirrors(c, g, H));
        }
      }
    }

    lemma HeightAfterChild(i: nat, at: nat, rm: nat, g0: Chunks, g: Chunks, h: Chunks, H: Heights)
      requires this in g && Removing(g0, g, this) && i < |g[this].kids|
      requires Removed(g, h, g[this].kids[i], at, rm) && Removing(g0, h, this) && SameNode(g, h, this)
      requires forall j :: 0 <= j < |g[this].kids| && j != i ==> SameNode(g, h, g[this].kids[j])
      ensures AllIn(g, g[this].kids) && AllIn(h, h[this].kids)
      ensures Sum(H, Flat(h, h[this].kids)) ==
              Sum(H, Flat(g, g[this].kids)) - Sum(H, g[g[this].kids[i]].lines) + Sum(H, h[g[this].kids[i]].lines)
    {
      var ks := g[this].kids;
      FlatSplit(g, ks, i);
      FlatUpdate(g, h, ks, i);
      var a, b := Flat(g, ks[..i]), Flat(g, ks[i + 1..]);
      SumCat(H, a + g[ks[i]].lines, b);
      SumCat(H, a, g[ks[i]].lines);
      SumCat(H, a + h[ks[i]].lines, b);
      SumCat(H, a, h[ks[i]].lines);
    }

    lemma OrphansAfterChild(i: nat, at: nat, rm: nat, g0: Chunks, g: Chunks, h: Chunks)
      requires this in g && Removing(g0, g, this) && i < |g[this].kids|
      requires Removed(g, h, g[this].kids[i], at, rm) && Removing(g0, h, this) && SameNode(g, h, this)
      requires forall j :: 0 <= j < |g[this].kids| && j != i ==> SameNode(g, h, g[this].kids[j])
      ensures AllIn(g, g[this].kids) && AllIn(h, h[this].kids)
      ensures forall l :: l in Flat(h, h[this].kids) ==> l in Flat(g, g[this].kids)
      ensures forall l :: l in Flat(g, g[this].kids) && l !in Flat(h, h[this].kids) ==>
                l in g[g[this].kids[i]].lines && l !in h[g[this].kids[i]].lines
      ensures forall l :: l in g[g[this].kids[i]].lines ==> l in Flat(g, g[this].kids)
    {
      var ks := g[this].kids;
      FlatSplit(g, ks, i);
      FlatUpdate(g, h, ks, i);
    }

    lemma LowerKid(child: Chunk, g: Chunks)
      requires this in g && child in g && IsKid(g, this, child)
      ensures Lower(g, child) <= Lower(g, this) && this !in Lower(g, child)
    {
    }

    /** Remove lines from child i and account for the height they had. */
    method RemoveFromChild(child: Chunk, i: nat, at: nat, rm: nat, ghost g0: Chunks, ghost g: Chunks, ghost H: Heights)
      returns (ghost h: Chunks)
      requires this in g && this in g0 && Removing(g0, g, this) && AllIn(g, g[this].kids) && Half(g, H)
      requires i < |g[this].kids| && child == g[this].kids[i] && child in g && at + rm <= |g[child].lines|
      modifies Lower(g, this), SetOf(Flat(g, g[this].kids))`parent
      ensures this in h && child in h && Removing(g0, h, this) && Half(h, H) && SameNode(g, h, this)
      ensures size == old(size) && fresh(h.Keys - g.Keys)
      ensures h[child].lines == Delete(g[child].lines, at, rm)
      ensures forall j :: 0 <= j < |g[this].kids| && j != i ==> SameNode(g, h, g[this].kids[j])
      ensures AllIn(h, h[this].kids) && Orphaned(Flat(g, g[this].kids), Flat(h, h[this].kids))
      ensures forall l :: l in Flat(h, h[this].kids) ==> l in Flat(g, g[this].kids)
      decreases g[this].rank, 1
    {
      hide Removing, Sum, Flat, CanRemove, Removed, Delete, Ready, NoDup, ChunksBelow, LinesOk;
      ChildCanRemove(g0, g, this, i, at, rm);
      RemovingPart(g, i, g0);
      ChildIsWhole(child, g, H);
      LowerKid(child, g);
      var oldHeight := child.height;
      assert forall c :: c in Lower(g, child) ==> c in Lower(g, this);
      assert forall l :: l in g[child].lines ==> l in Flat(g, g[this].kids);
      h := RemoveInChild(child, at, rm, g, H);
      RemovedLines(g, h, child, at, rm);
      ChildRemoved(g0, g, h, this, i, at, rm);
      HeightAfterChild(i, at, rm, g0, g, h, H);
      OrphansAfterChild(i, at, rm, g0, g, h);
      LowerHeight(oldHeight - child.height, h, H);
    }

    method LowerHeight(d: int, ghost g: Chunks, ghost H: Heights)
      requires this in g && AllIn(g, g[this].kids) && ChunksBelow(g, g[this].rank, H) && LinesOk(g, H)
      requires !leaf && !g[this].leaf && children == g[this].kids && parent == OrNull(g[this].parent)
      requires height - d == Sum(H, Flat(g, g[this].kids))
      modifies this`height
      ensures Half(g, H)
    {
      hide Sum, Flat;
      height := height - d;
    }

    lemma RemovingPart(g: Chunks, i: nat, g0: Chunks)
      requires this in g && Removing(g0, g, this) && i < |g[this].kids|
      ensures AllIn(g, g[this].kids)
      ensures forall l :: l in g[g[this].kids[i]].lines ==> l in Flat(g, g[this].kids)
    {
      FlatSplit(g, g[this].kids, i);
    }

    lemma RemovedLines(g: Chunks, h: Chunks, x: Chunk, at: nat, n: nat)
      requires Removed(g, h, x, at, n)
      ensures x in g && x in h && at + n <= |g[x].lines| && h[x].lines == Delete(g[x].lines, at, n)
    {
    }

    lemma KidOfRemoving(g0: Chunks, g: Chunks, p: Chunk, i: nat)
      requires Removing(g0, g, p) && i < |g[p].kids|
      ensures var k := g[p].kids[i];
        p in g && k in g && IsKid(g, p, k) && Local(g, k) && Below(g, g[k].rank) && KidsBelow(g, k, g[k].kids)
    {
      hide Flat, NoDup, Elsewhere, Bounded;
    }

    lemma DropReady(child: Chunk, i: nat, g0: Chunks, g: Chunks, H: Heights)
      requires this in g && Removing(g0, g, this) && Half(g, H) && i < |g[this].kids|
      requires child == g[this].kids[i] && child in g && g[child].lines == []
      ensures var h := Dropped(g, this, i);
              && child !in h && child != this && Removing(g0, h, this) && h.Keys <= g.Keys
              && Flat(h, h[this].kids) == Flat(g, g[this].kids) && h[this].rank == g[this].rank
              && (forall c :: c in h && c != this ==> h[c] == g[c])
              && (forall j :: 0 <= j < |g[this].kids| && j != i ==> SameNode(g, h, g[this].kids[j]))
    {
      hide Flat, NoDup, Elsewhere, Bounded, Below, LooseKids, Sub, Sum, Local, Half, Removing;
      KidOfRemoving(g0, g, this, i);
      SubIsClosed(g, child);
      ChildDropped(g0, g, this, i);
    }

    /** None of these children is empty. */
    ghost predicate HasLines(g: Chunks, ks: seq<Chunk>) {
      forall j :: 0 <= j < |ks| ==> ks[j] in g && g[ks[j]].lines != []
    }

    lemma DroppedHasLines(i: nat, g: Chunks, h: Chunks)
      requires this in g && this in h && i < |g[this].kids| && h[this].kids == g[this].kids[..i] + g[this].kids[i + 1..]
      requires forall j :: 0 <= j < |g[this].kids| && j != i ==> SameNode(g, h, g[this].kids[j])
      ensures (forall j :: 0 <= j < |g[this].kids| && j != i ==>
                 g[this].kids[j] in g && g[g[this].kids[j]].lines != []) ==> HasLines(h, h[this].kids)
    {
      var ks, now := g[this].kids, h[this].kids;
      forall j | 0 <= j < |now| ensures now[j] == ks[if j < i then j else j + 1] {
      }
    }

    /** Take out child i, which has no lines left. */
    method DropChild(child: Chunk, i: nat, ghost g0: Chunks, ghost g: Chunks,
      ghost H: Heights) returns (ghost h: Chunks)
      requires this in g && Removing(g0, g, this) && AllIn(g, g[this].kids) && Half(g, H)
      requires i < |g[this].kids| && child == g[this].kids[i] && child in g && g[child].lines == []
      modifies this`children, child`parent
      ensures h == Dropped(g, this, i) && Removing(g0, h, this) && Half(h, H) && h.Keys <= g.Keys
      ensures AllIn(h, h[this].kids) && Flat(h, h[this].kids) == Flat(g, g[this].kids)
      ensures forall j :: 0 <= j < |g[this].kids| && j != i ==> SameNode(g, h, g[this].kids[j])
      ensures child.parent == null
    {
      hide Removing, Sum, Flat, Sub;
      DropReady(child, i, g0, g, H);
      ghost var k := Dropped(g, this, i);
      h := k;
      children := children[..i] + children[i + 1..];
      child.parent := null;
      hide Dropped;
      forall c | c in k && k[c].rank < k[this].rank ensures Mirrors(c, k, H) {
        assert old(Mirrors(c, g, H));
      }
      forall c | c in k ensures LeafOk(k, c, H) {
        assert c != this ==> old(LeafOk(g, c, H));
      }
    }

    /** Halfway through removing n lines at `at`, of which m are left to remove at `a`
        behind the first i children. */
    ghost predicate Midway(g0: Chunks, g: Chunks, i: nat, a: nat, m: nat, target: seq<Line>, H: Heights)
      reads this, g.Keys, LinesOf(g), if this in g0 then SetOf(g0[this].lines) else {}
    {
      && this in g0 && this in g && Removing(g0, g, this) && Half(g, H)
      && Cutting(g, g[this].kids, i, a, m, target)
      && (forall l :: l in Flat(g, g[this].kids) ==> l in g0[this].lines)
      && Orphaned(g0[this].lines, Flat(g, g[this].kids))
    }

    method CutChild(child: Chunk, i: nat, a: nat, m: nat, ghost target: seq<Line>, ghost g0: Chunks, ghost g: Chunks,
      ghost H: Heights)
      returns (j: nat, rm: nat, ghost h: Chunks)
      requires this in g && this in g0 && Midway(g0, g, i, a, m, target, H) && AllIn(g, g[this].kids)
      requires i < |g[this].kids| && child == g[this].kids[i] && child in g && a < |g[child].lines|
      modifies Lower(g, this), SetOf(Flat(g, g[this].kids))`parent
      ensures rm <= m && this in h && Midway(g0, h, j, 0, m - rm, target, H) && fresh(h.Keys - g.Keys)
      ensures size == old(size) && j <= |h[this].kids| && |h[this].kids| - j < |g[this].kids| - i
      ensures HasLines(g, g[this].kids) ==> HasLines(h, h[this].kids)
      decreases g[this].rank, 2
    {
      hide Removing, Sum, Flat, Cutting, Half, Delete, HasLines;
      MidwayChild(child, i, a, m, target, g0, g, H);
      var sz := child.ChunkSize();
      rm := if m < sz - a then m else sz - a;
      ghost var k := RemoveFromChild(child, i, a, rm, g0, g, H);
      h := k;
      LineGraphCut(g, h, i, a, m, rm, target);
      LinesLeft(i, a, rm, g, k);
      if sz == rm {
        h := DropEmpty(child, i, m - rm, target, g0, h, H);
        DroppedHasLines(i, k, h);
        j := i;
      } else {
        j := i + 1;
      }
    }

    lemma LinesLeft(i: nat, a: nat, rm: nat, g: Chunks, h: Chunks)
      requires this in g && this in h && SameNode(g, h, this) && i < |g[this].kids|
      requires forall j :: 0 <= j < |g[this].kids| && j != i ==> SameNode(g, h, g[this].kids[j])
      requires g[this].kids[i] in g && g[this].kids[i] in h && a + rm <= |g[g[this].kids[i]].lines|
      requires h[g[this].kids[i]].lines == Delete(g[g[this].kids[i]].lines, a, rm)
      ensures HasLines(g, g[this].kids) ==> forall j :: 0 <= j < |h[this].kids| && j != i ==>
                h[this].kids[j] in h && h[h[this].kids[j]].lines != []
      ensures HasLines(g, g[this].kids) && rm < |g[g[this].kids[i]].lines| ==> HasLines(h, h[this].kids)
    {
    }

    lemma MidwayChild(child: Chunk, i: nat, a: nat, m: nat, target: seq<Line>, g0: Chunks, g: Chunks, H: Heights)
      requires Midway(g0, g, i, a, m, target, H)
      requires i < |g[this].kids| && child == g[this].kids[i]
      ensures child in g && child.ChunkSize() == |g[child].lines| && child in Lower(g, this) && this in Lower(g, this)
    {
      assert IsKid(g, this, child) && Mirrors(child, g, H);
    }

    lemma LineGraphCut(g: Chunks, h: Chunks, i: nat, a: nat, m: nat, rm: nat, target: seq<Line>)
      requires this in g && this in h && SameNode(g, h, this) && AllIn(g, g[this].kids) && AllIn(h, h[this].kids)
      requires i < |g[this].kids| && Cutting(g, g[this].kids, i, a, m, target)
      requires var c := g[this].kids[i];
        a < |g[c].lines| && rm == (if m < |g[c].lines| - a then m else |g[c].lines| - a) &&
        h[c].lines == Delete(g[c].lines, a, rm)
      requires forall j :: 0 <= j < |g[this].kids| && j != i ==> SameNode(g, h, g[this].kids[j])
      ensures rm <= m && Cutting(h, h[this].kids, i + 1, 0, m - rm, target)
      ensures rm == |g[g[this].kids[i]].lines| ==> h[g[this].kids[i]].lines == []
    {
      LineRemoval.CutChild(g, h, g[this].kids, i, a, m, rm, target);
    }

    method DropEmpty(child: Chunk, i: nat, m: nat, ghost target: seq<Line>, ghost g0: Chunks, ghost g: Chunks,
      ghost H: Heights)
      returns (ghost h: Chunks)
      requires this in g && Removing(g0, g, this) && AllIn(g, g[this].kids) && Half(g, H)
      requires i < |g[this].kids| && child == g[this].kids[i] && child in g && g[child].lines == []
      requires Cutting(g, g[this].kids, i + 1, 0, m, target)
      modifies this`children, child`parent
      ensures this in h && Removing(g0, h, this) && Half(h, H) && h.Keys <= g.Keys
      ensures AllIn(h, h[this].kids) && Flat(h, h[this].kids) == Flat(g, g[this].kids)
      ensures Cutting(h, h[this].kids, i, 0, m, target) && |h[this].kids| == |g[this].kids| - 1
      ensures child.parent == null && h[this].kids == g[this].kids[..i] + g[this].kids[i + 1..]
      ensures forall j :: 0 <= j < |g[this].kids| && j != i ==> SameNode(g, h, g[this].kids[j])
    {
      hide Removing, Sum, Flat, Cutting, Half, Sub;
      h := DropChild(child, i, g0, g, H);
      CutDropped(g, h, g[this].kids, i, m, target);
    }

    lemma MidwaySkip(i: nat, a: nat, m: nat, target: seq<Line>, g0: Chunks, g: Chunks, H: Heights)
      requires Midway(g0, g, i, a, m, target, H) && i < |g[this].kids| && g[this].kids[i] in g
      requires |g[g[this].kids[i]].lines| <= a
      ensures Midway(g0, g, i + 1, a - |g[g[this].kids[i]].lines|, m, target, H)
    {
      hide Cutting, Removing, Half, Flat, Orphaned;
      CutSkip(g, g[this].kids, i, a, m, target);
    }

    lemma MidwayIs(i: nat, a: nat, m: nat, target: seq<Line>, g0: Chunks, g: Chunks, H: Heights)
      requires Midway(g0, g, i, a, m, target, H)
      ensures this in g0 && this in g && children == g[this].kids && AllIn(g, g[this].kids) && i <= |g[this].kids|
      ensures g[this].rank == g0[this].rank
      ensures forall l :: l in Flat(g, g[this].kids) ==> l in g0[this].lines
      ensures Lower(g, this) <= Lower(g0, this) + (g.Keys - g0.Keys) && this in Lower(g0, this)
    {
    }

    /** Remove n lines below this branch, from one child after the other. */
    method CutChildren(at: nat, n: nat, ghost g: Chunks, ghost H: Heights) returns (m: nat, ghost h: Chunks)
      requires this in g && !g[this].leaf && at + n <= |g[this].lines|
      requires Midway(g, g, 0, at, n, Delete(g[this].lines, at, n), H)
      modifies Lower(g, this), SetOf(g[this].lines)`parent
      ensures m == 0 && this in h && Midway(g, h, 0, 0, 0, Delete(g[this].lines, at, n), H)
      ensures AllIn(h, h[this].kids) && Flat(h, h[this].kids) == Delete(g[this].lines, at, n)
      ensures HasLines(g, g[this].kids) ==> HasLines(h, h[this].kids)
      ensures size == old(size) && fresh(h.Keys - g.Keys)
      decreases g[this].rank, 3
    {
      hide Midway, Delete, Lower, HasLines;
      ghost var target := Delete(g[this].lines, at, n);
      h := g;
      var i: nat, a: nat := 0, at;
      m := n;
      MidwayIs(i, a, m, target, g, h, H);
      while i < |children|
        invariant this in h && Midway(g, h, i, a, m, target, H) && fresh(h.Keys - g.Keys)
        invariant children == h[this].kids && i <= |h[this].kids| && size == old(size)
        invariant HasLines(g, g[this].kids) ==> HasLines(h, h[this].kids)
        decreases |h[this].kids| - i
      {
        var child := children[i];
        MidwayIs(i, a, m, target, g, h, H);
        MidwayChild(child, i, a, m, target, g, h, H);
        var sz := child.ChunkSize();
        if a < sz {
          var rm: nat;
          ghost var k := h;
          label L:
          i, rm, h := CutChild(child, i, a, m, target, g, k, H);
          forall c | c in h.Keys && c !in g.Keys ensures fresh(c) {
            assert c in k.Keys || fresh@L(c);
          }
          m := m - rm;
          a := 0;
          MidwayIs(i, a, m, target, g, h, H);
          if m == 0 {
            break;
          }
        } else {
          MidwaySkip(i, a, m, target, g, h, H);
          a := a - sz;
          i := i + 1;
        }
      }
      MidwayDone(i, a, m, target, g, h, H);
    }

    lemma MidwayDone(i: nat, a: nat, m: nat, target: seq<Line>, g0: Chunks, g: Chunks, H: Heights)
      requires Midway(g0, g, i, a, m, target, H) && (m == 0 || i >= |g[this].kids|)
      ensures m == 0 && AllIn(g, g[this].kids) && Flat(g, g[this].kids) == target && Midway(g0, g, 0, 0, 0, target, H)
    {
      CutDone(g, g[this].kids, i, a, m, target);
      CutStart(g, g[this].kids, 0, 0);
      assert Delete(target, 0, 0) == target;
    }

    /** A branch smaller than 25 lines becomes a single leaf. */
    method MaybeCollapse(m: nat, at: nat, n: nat, ghost g0: Chunks, ghost g: Chunks, ghost H: Heights)
      returns (ghost h: Chunks)
      requires this in g0 && this in g && CanRemove(g0, this, at, n) && AllIn(g, g[this].kids)
      requires at + n <= |g0[this].lines|
      requires Midway(g0, g, 0, 0, 0, Delete(g0[this].lines, at, n), H)
      requires Flat(g, g[this].kids) == Delete(g0[this].lines, at, n)
      requires size == |Delete(g0[this].lines, at, n)| && m == 0
      modifies this`children, SetOf(Flat(g, g[this].kids))`parent
      ensures this in h && Removed(g0, h, this, at, n) && HeapUnder(h, this, H)
      ensures forall c :: c in h.Keys && c !in g.Keys ==> fresh(c)
      ensures Orphaned(g0[this].lines, h[this].lines) && (size < 25 ==> |children| == 1 && children[0].leaf)
    {
      hide Flat, Delete, Cutting, CanRemove, Removing, Half, HeapUnder, Removed, Collapsed;
      HalfIs(0, 0, 0, Delete(g0[this].lines, at, n), g0, g, H);
      if size - m < 25 && (|children| != 1 || !children[0].leaf) {
        var newleaf := CollapseHere(g, H);
        h := Collapsed(g, this, newleaf);
        RemovedCollapsed(g0, g, this, at, n, newleaf);
        CollapsedLines(newleaf, g);
      } else {
        KidsLeft(g, H);
        h := g[this := g[this].(lines := Flat(g, g[this].kids))];
        RemovedAsIs(g0, g, this, at, n);
        HeapAsIs(g, H);
      }
    }

    lemma HalfIs(i: nat, a: nat, m: nat, target: seq<Line>, g0: Chunks, g: Chunks, H: Heights)
      requires Midway(g0, g, i, a, m, target, H)
      ensures Removing(g0, g, this) && g[this].rank > 0 && LooseKids(g, this) && Below(g, g[this].rank)
      ensures ChunksBelow(g, g[this].rank, H) && LinesOk(g, H)
      ensures !leaf && children == g[this].kids && parent == OrNull(g[this].parent)
      ensures AllIn(g, g[this].kids) && height == Sum(H, Flat(g, g[this].kids)) && Half(g, H)
      ensures Orphaned(g0[this].lines, Flat(g, g[this].kids))
    {
    }

    lemma CollapsedLines(newleaf: Chunk, g: Chunks)
      requires this in g && g[this].rank > 0 && AllIn(g, g[this].kids)
      ensures var h := Collapsed(g, this, newleaf);
              this in h && h[this].lines == Flat(g, g[this].kids) && h.Keys <= g.Keys + {newleaf}
    {
    }

    lemma KidsLeft(g: Chunks, H: Heights)
      requires Half(g, H) && LooseKids(g, this) && size == |Flat(g, g[this].kids)|
      requires !(size < 25 && (|children| != 1 || !children[0].leaf))
      ensures |g[this].kids| > 0
    {
    }

    lemma HeapAsIs(g: Chunks, H: Heights)
      requires Half(g, H) && size == |Flat(g, g[this].kids)|
      ensures HeapUnder(g[this := g[this].(lines := Flat(g, g[this].kids))], this, H)
    {
      var h := g[this := g[this].(lines := Flat(g, g[this].kids))];
      forall c | c in h && h[c].rank < h[this].rank ensures Mirrors(c, h, H) {
        assert Mirrors(c, g, H);
      }
      forall c | c in h ensures LeafOk(h, c, H) {
        assert LeafOk(g, c, H);
      }
    }

    lemma RemoveFacts(at: nat, n: nat, g: Chunks, H: Heights)
      requires CanRemove(g, this, at, n) && HeapUnder(g, this, H)
      ensures this in g && leaf == g[this].leaf && at + n <= |g[this].lines| && NoDup(g[this].lines)
      ensures !leaf ==> size == |g[this].lines| && children == g[this].kids
      ensures this in Lower(g, this) && |Delete(g[this].lines, at, n)| == |g[this].lines| - n
    {
    }

    method TakeSize(at: nat, n: nat, ghost g: Chunks, ghost H: Heights)
      requires this in g && !g[this].leaf && at + n <= |g[this].lines| && CanRemove(g, this, at, n)
        && HeapUnder(g, this, H)
      modifies this`size
      ensures Midway(g, g, 0, at, n, Delete(g[this].lines, at, n), H) && size == |g[this].lines| - n
    {
      hide Removing, Cutting, CanRemove, Sum, Flat, Delete;
      StartRemoving(g, this, at, n);
      assert Mirrors(this, g, H) && ChunksBelow(g, g[this].rank, H);
      size := size - n;
    }

    method BranchRemove(at: nat, n: nat, ghost g: Chunks, ghost H: Heights) returns (ghost h: Chunks)
      requires this in g && !g[this].leaf && CanRemove(g, this, at, n) && HeapUnder(g, this, H)
      modifies Lower(g, this), SetOf(g[this].lines)`parent
      ensures this in h && Removed(g, h, this, at, n) && HeapUnder(h, this, H) && fresh(h.Keys - g.Keys)
      ensures Orphaned(g[this].lines, h[this].lines) && (size < 25 ==> |children| == 1 && children[0].leaf)
      decreases g[this].rank, 4
    {
      hide Midway, Delete, CanRemove, Removed, HeapUnder, Orphaned;
      RemoveFacts(at, n, g, H);
      TakeSize(at, n, g, H);
      var m;
      ghost var k;
      m, k := CutChildren(at, n, g, H);
      MidwayIs(0, 0, 0, Delete(g[this].lines, at, n), g, k, H);
      h := MaybeCollapse(m, at, n, g, k, H);
      forall c | c in h.Keys && c !in g.Keys ensures fresh(c) {
        assert c in k.Keys || fresh(c);
      }
    }

    /** Remove n lines of this chunk. */
    method RemoveInner(at: nat, n: nat, ghost g: Chunks, ghost H: Heights) returns (ghost h: Chunks)
      requires this in g && CanRemove(g, this, at, n) && HeapUnder(g, this, H)
      modifies Lower(g, this), SetOf(g[this].lines)`parent
      ensures this in h && Removed(g, h, this, at, n) && HeapUnder(h, this, H) && fresh(h.Keys - g.Keys)
      ensures Orphaned(g[this].lines, h[this].lines)
      ensures !leaf && size < 25 ==> |children| == 1 && children[0].leaf
      decreases g[this].rank, 5
    {
      hide CanRemove, Removed, HeapUnder, Orphaned, NoDup, Delete;
      RemoveFacts(at, n, g, H);
      if leaf {
        LeafRemove(at, n, g, H);
        h := g[this := g[this].(lines := Delete(g[this].lines, at, n))];
        LeafRemoved(g, this, at, n);
      } else {
        h := BranchRemove(at, n, g, H);
      }
    }
  }

  lemma SumEmpty(H: Heights)
    ensures Sum(H, []) == 0
  {
  }

  lemma SumOne(H: Heights, l: Line)
    requires l in H
    ensures Sum(H, [l]) == H[l]
  {
    assert [l][1..] == [];
  }

  lemma CutSum(H: Heights, s: seq<Line>, at: nat, n: nat)
    requires at + n <= |s|
    ensures Sum(H, s) == Sum(H, Delete(s, at, n)) + Sum(H, s[at..at + n])
  {
    assert s == s[..at] + (s[at..at + n] + s[at + n..]);
    SumCat(H, s[..at], s[at..at + n] + s[at + n..]);
    SumCat(H, s[at..at + n], s[at + n..]);
    SumCat(H, s[..at], s[at + n..]);
  }

  lemma CutFlat(g: Chunks, H: Heights, ks: seq<Chunk>, m: nat)
    requires AllIn(g, ks) && m <= |ks|
    ensures AllIn(g, ks[..m]) && AllIn(g, ks[m..])
    ensures |Flat(g, ks)| == |Flat(g, ks[..m])| + |Flat(g, ks[m..])|
    ensures Sum(H, Flat(g, ks)) == Sum(H, Flat(g, ks[..m])) + Sum(H, Flat(g, ks[m..]))
  {
    assert ks == ks[..m] + ks[m..];
    FlatCat(g, ks[..m], ks[m..]);
    SumCat(H, Flat(g, ks[..m]), Flat(g, ks[m..]));
  }
}
