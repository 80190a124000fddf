/** The shape of the line tree, without the heap: which node has which children, and
    which lines lie below it.  The chunks in the heap are kept equal to such a graph;
    everything about the tree as a sequence of lines is proved here. */
module LineGraph {
  import opened Wrappers

  /** `lines` are all lines below the node, in order; `rank` is its height in the tree,
      one less than its parent's. */
  datatype Node<C, L> = Node(leaf: bool, lines: seq<L>, kids: seq<C>, parent: Option<C>, rank: nat)

  type Graph<C, L> = map<C, Node<C, L>>

  ghost predicate AllIn<C, L>(g: Graph<C, L>, ks: seq<C>) {
    forall i :: 0 <= i < |ks| ==> ks[i] in g
  }

  /** The lines below a list of nodes. */
  ghost function Flat<C, L>(g: Graph<C, L>, ks: seq<C>): seq<L>
    requires AllIn(g, ks)
  {
    if |ks| == 0 then [] else g[ks[0]].lines + Flat(g, ks[1..])
  }

  ghost predicate IsKid<C, L>(g: Graph<C, L>, x: C, k: C)
    requires x in g
  {
    k in g && g[k].parent == Some(x) && g[k].rank + 1 == g[x].rank
  }

  ghost predicate KidsOk<C, L>(g: Graph<C, L>, x: C)
    requires x in g
  {
    && (g[x].leaf ==> g[x].kids == [])
    && (!g[x].leaf ==> |g[x].kids| > 0 && NoDup(g[x].kids))
    && forall i :: 0 <= i < |g[x].kids| ==> IsKid(g, x, g[x].kids[i])
  }

  /** A node agrees with its children: they name it as their parent and their lines
      together are its lines. */
  ghost predicate Local<C, L>(g: Graph<C, L>, x: C)
    requires x in g
  {
    KidsOk(g, x) && (!g[x].leaf ==> g[x].lines == Flat(g, g[x].kids))
  }

  /** Every node but the root is a child of its parent. */
  ghost predicate Attached<C, L>(g: Graph<C, L>, root: C, x: C)
    requires x in g
  {
    if x == root then g[x].parent == None
    else g[x].parent.Some? && g[x].parent.value in g && x in g[g[x].parent.value].kids
  }

  ghost predicate WF<C, L>(g: Graph<C, L>, root: C) {
    && root in g && !g[root].leaf
    && (forall x :: x in g ==> Local(g, x) && Attached(g, root, x) && g[x].rank <= g[root].rank)
    && NoDup(g[root].lines)
  }

  ghost function Insert<T>(s: seq<T>, at: nat, ls: seq<T>): seq<T>
    requires at <= |s|
  {
    s[..at] + ls + s[at..]
  }

  ghost function Delete<T>(s: seq<T>, at: nat, n: nat): seq<T>
    requires at + n <= |s|
  {
    s[..at] + s[at + n..]
  }

  // ----- lines of a list of nodes

  lemma {:induction false} FlatCat<C, L>(g: Graph<C, L>, a: seq<C>, b: seq<C>)
    requires AllIn(g, a) && AllIn(g, b)
    ensures AllIn(g, a + b) && Flat(g, a + b) == Flat(g, a) + Flat(g, b)
  {
    if |a| == 0 {
      assert a + b == b;
    } else {
      assert (a + b)[1..] == a[1..] + b;
      FlatCat(g, a[1..], b);
    }
  }

  lemma FlatOne<C, L>(g: Graph<C, L>, k: C)
    requires k in g
    ensures AllIn(g, [k]) && Flat(g, [k]) == g[k].lines
  {
    assert [k][1..] == [];
  }

  /** The lines of a list of nodes depend on nothing but the lines of each. */
  lemma {:induction false} FlatSame<C, L>(g: Graph<C, L>, h: Graph<C, L>, ks: seq<C>)
    requires AllIn(g, ks) && AllIn(h, ks)
    requires forall i :: 0 <= i < |ks| ==> h[ks[i]].lines == g[ks[i]].lines
    ensures Flat(h, ks) == Flat(g, ks)
  {
    if |ks| > 0 {
      FlatSame(g, h, ks[1..]);
    }
  }

  /** Cutting a list of nodes in three around node i. */
  lemma FlatSplit<C, L>(g: Graph<C, L>, ks: seq<C>, i: nat)
    requires AllIn(g, ks) && i < |ks|
    ensures AllIn(g, ks[..i]) && AllIn(g, ks[i + 1..])
    ensures Flat(g, ks) == Flat(g, ks[..i]) + g[ks[i]].lines + Flat(g, ks[i + 1..])
  {
    assert ks == ks[..i] + ([ks[i]] + ks[i + 1..]);
    FlatCat(g, ks[..i], [ks[i]] + ks[i + 1..]);
    FlatOne(g, ks[i]);
    FlatCat(g, [ks[i]], ks[i + 1..]);
  }

  /** Giving one of the nodes other lines changes only that part. */
  lemma FlatUpdate<C, L>(g: Graph<C, L>, h: Graph<C, L>, ks: seq<C>, i: nat)
    requires AllIn(g, ks) && AllIn(h, ks) && i < |ks|
    requires forall j :: 0 <= j < |ks| && j != i ==> h[ks[j]].lines == g[ks[j]].lines
    ensures AllIn(g, ks[..i]) && AllIn(g, ks[i + 1..])
    ensures Flat(h, ks) == Flat(g, ks[..i]) + h[ks[i]].lines + Flat(g, ks[i + 1..])
  {
    FlatSplit(h, ks, i);
    FlatSame(g, h, ks[..i]);
    FlatSame(g, h, ks[i + 1..]);
  }

  // ----- inserting lines, from the root down

  /** The graph with lines inserted below x, as seen from x alone. */
  ghost function Grown<C, L>(g: Graph<C, L>, x: C, at: nat, ls: seq<L>): Graph<C, L>
    requires x in g && at <= |g[x].lines|
  {
    g[x := g[x].(lines := Insert(g[x].lines, at, ls))]
  }

  /** Lines are on their way to x: all nodes above it count them already, x and those
      below it do not yet. */
  ghost predicate Pending<C, L>(g: Graph<C, L>, root: C, x: C, at: nat, ls: seq<L>) {
    && root in g && !g[root].leaf && x in g && at <= |g[x].lines|
    && Local(g, x)
    && (forall y :: y in g && y != x ==> Local(Grown(g, x, at, ls), y))
    && (forall y :: y in g ==> Attached(g, root, y) && g[y].rank <= g[root].rank)
    && NoDup(Grown(g, x, at, ls)[root].lines)
  }

  lemma GrownElsewhere<C, L>(g: Graph<C, L>, x: C, at: nat, ls: seq<L>, y: C)
    requires x in g && at <= |g[x].lines| && y in g && y != x && Local(g, y) && x !in g[y].kids
    ensures Local(Grown(g, x, at, ls), y)
  {
    hide Flat, NoDup;
    assert forall i :: 0 <= i < |g[y].kids| ==> IsKid(g, y, g[y].kids[i]);
    LocalSame(g, Grown(g, x, at, ls), y);
  }

  lemma PendingAtRoot<C, L>(g: Graph<C, L>, root: C, at: nat, ls: seq<L>)
    requires WF(g, root) && at <= |g[root].lines| && NoDup(Insert(g[root].lines, at, ls))
    ensures Pending(g, root, root, at, ls)
  {
    hide Flat, NoDup, Local;
    RootIn(g, root);
    var h := Grown(g, root, at, ls);
    forall y | y in g ensures Local(g, y) && Attached(g, root, y) && g[y].rank <= g[root].rank {
      NodeIn(g, root, y);
    }
    forall y | y in g && y != root ensures Local(h, y) {
      KidsAreOk(g, y);
      NotAKid(g, y, root);
      GrownElsewhere(g, root, at, ls, y);
    }
  }

  lemma KidsAreOk<C, L>(g: Graph<C, L>, y: C)
    requires y in g && Local(g, y)
    ensures KidsOk(g, y)
  {
  }

  lemma NotAKid<C, L>(g: Graph<C, L>, y: C, k: C)
    requires y in g && k in g && KidsOk(g, y) && g[k].parent != Some(y)
    ensures k !in g[y].kids
  {
  }

  ghost predicate SameKid<C, L>(g: Graph<C, L>, h: Graph<C, L>, y: C, k: C)
    requires y in h
  {
    k in g && IsKid(h, y, k) && h[k].lines == g[k].lines
  }

  /** A node that agrees with its children still does in another graph that has the
      same node and the same lines, parents and ranks for its children. */
  lemma LocalSame<C, L>(g: Graph<C, L>, h: Graph<C, L>, y: C)
    requires y in g && y in h && Local(g, y)
    requires h[y].leaf == g[y].leaf && h[y].lines == g[y].lines && h[y].kids == g[y].kids
    requires forall i :: 0 <= i < |g[y].kids| ==> SameKid(g, h, y, g[y].kids[i])
    ensures Local(h, y)
  {
    if !g[y].leaf {
      FlatSame(g, h, g[y].kids);
    }
  }

  /** The step from a branch to the child the lines go to. */
  lemma PendingBelow<C, L>(g: Graph<C, L>, root: C, x: C, at: nat, ls: seq<L>, i: nat, off: nat)
    requires Pending(g, root, x, at, ls) && !g[x].leaf && i < |g[x].kids|
    requires AllIn(g, g[x].kids[..i]) && off == |Flat(g, g[x].kids[..i])|
    requires g[x].kids[i] in g && off <= at <= off + |g[g[x].kids[i]].lines|
    ensures Pending(Grown(g, x, at, ls), root, g[x].kids[i], at - off, ls)
  {
    hide Flat, NoDup;
    var k := g[x].kids[i];
    var g1 := Grown(g, x, at, ls);
    assert IsKid(g, x, k);
    assert k != x;
    var g2 := Grown(g1, k, at - off, ls);
    forall y | y in g1 && y != k ensures Local(g2, y) {
      if y == x {
        BelowIsLocal(g, x, at, ls, i, off);
      } else {
        NotAKid(g1, y, k);
        LocalSame(g1, g2, y);
      }
    }
    assert Local(g1, k) by {
      assert Local(Grown(g, x, at, ls), k);
    }
  }

  lemma KidsOfLocal<C, L>(g: Graph<C, L>, x: C)
    requires x in g && Local(g, x) && !g[x].leaf
    ensures KidsOk(g, x) && AllIn(g, g[x].kids) && NoDup(g[x].kids) && x !in g[x].kids
      && g[x].lines == Flat(g, g[x].kids)
  {
  }

  lemma LocalFrom<C, L>(g: Graph<C, L>, x: C)
    requires x in g && KidsOk(g, x) && AllIn(g, g[x].kids) && g[x].lines == Flat(g, g[x].kids)
    ensures Local(g, x)
  {
  }

  lemma GrownKids<C, L>(g: Graph<C, L>, x: C, c: C, at: nat, m: nat, ls: seq<L>)
    requires x in g && KidsOk(g, x) && !g[x].leaf && at <= |g[x].lines| && c in g && c != x && m <= |g[c].lines|
    ensures var h := Grown(Grown(g, x, at, ls), c, m, ls); KidsOk(h, x) && AllIn(h, g[x].kids)
  {
    hide NoDup, Insert;
    var h := Grown(Grown(g, x, at, ls), c, m, ls);
    forall j | 0 <= j < |g[x].kids| ensures IsKid(h, x, g[x].kids[j]) {
      assert IsKid(g, x, g[x].kids[j]);
    }
  }

  lemma InsertInPart<T>(a: seq<T>, m: seq<T>, b: seq<T>, at: nat, ls: seq<T>)
    requires |a| <= at <= |a| + |m|
    ensures Insert(a + m + b, at, ls) == a + Insert(m, at - |a|, ls) + b
  {
  }

  lemma BelowIsLocal<C, L>(g: Graph<C, L>, x: C, at: nat, ls: seq<L>, i: nat, off: nat)
    requires x in g && Local(g, x) && at <= |g[x].lines| && !g[x].leaf && i < |g[x].kids|
    requires AllIn(g, g[x].kids[..i]) && off == |Flat(g, g[x].kids[..i])|
    requires g[x].kids[i] in g && g[x].kids[i] != x && off <= at <= off + |g[g[x].kids[i]].lines|
    ensures Local(Grown(Grown(g, x, at, ls), g[x].kids[i], at - off, ls), x)
  {
    hide Flat, NoDup, Insert, Local, KidsOk;
    var ks := g[x].kids;
    var g2 := Grown(Grown(g, x, at, ls), ks[i], at - off, ls);
    KidsOfLocal(g, x);
    GrownKids(g, x, ks[i], at, at - off, ls);
    FlatSplit(g, ks, i);
    FlatUpdate(g, g2, ks, i);
    InsertInPart(Flat(g, ks[..i]), g[ks[i]].lines, Flat(g, ks[i + 1..]), at, ls);
    LocalFrom(g2, x);
  }

  /** At a leaf the lines have arrived: the whole graph is well-formed again. */
  lemma PendingDone<C, L>(g: Graph<C, L>, root: C, x: C, at: nat, ls: seq<L>)
    requires Pending(g, root, x, at, ls) && g[x].leaf
    ensures WF(Grown(g, x, at, ls), root)
  {
    var h := Grown(g, x, at, ls);
    forall y | y in h ensures Local(h, y) && Attached(h, root, y) && h[y].rank <= h[root].rank {
      assert Attached(g, root, y);
    }
  }

  // ----- splitting nodes

  ghost function IndexOf<T>(s: seq<T>, x: T): (i: nat)
    requires x in s
    ensures i < |s| && s[i] == x
  {
    if s[0] == x then 0 else IndexOf(s[1..], x) + 1
  }

  lemma IndexOfFirst<T>(s: seq<T>, i: nat)
    requires i < |s| && s[i] !in s[..i]
    ensures IndexOf(s, s[i]) == i
  {
    if i > 0 {
      assert s[1..][..i - 1] == s[..i][1..];
      IndexOfFirst(s[1..], i - 1);
    }
  }

  lemma IndexOfIs<T>(s: seq<T>, i: nat)
    requires i < |s| && NoDup(s)
    ensures IndexOf(s, s[i]) == i
  {
  }

  /** The children of p with n put right behind c. */
  ghost function Adopt<C, L>(g: Graph<C, L>, p: C, c: C, n: C): seq<C>
    requires p in g && c in g[p].kids
  {
    var i := IndexOf(g[p].kids, c) + 1;
    g[p].kids[..i] + [n] + g[p].kids[i..]
  }

  /** Leaf c keeps its first m lines; n, a new leaf next to it, gets the others. */
  ghost function SplitLeaf<C, L>(g: Graph<C, L>, c: C, n: C, m: nat): Graph<C, L>
    requires c in g && m <= |g[c].lines|
    requires g[c].parent.Some? && g[c].parent.value in g && c in g[g[c].parent.value].kids
  {
    var p := g[c].parent.value;
    g[c := g[c].(lines := g[c].lines[..m])]
     [n := Node(true, g[c].lines[m..], [], Some(p), g[c].rank)]
     [p := g[p].(kids := Adopt(g, p, c, n))]
  }

  ghost function Reparent<C, L>(g: Graph<C, L>, ks: seq<C>, p: C): Graph<C, L> {
    map y | y in g :: if y in ks then g[y].(parent := Some(p)) else g[y]
  }

  /** Branch x keeps its first m children; n, a new branch next to it, gets the others. */
  ghost function SplitBranch<C, L>(g: Graph<C, L>, x: C, n: C, m: nat): Graph<C, L>
    requires x in g && m <= |g[x].kids| && AllIn(g, g[x].kids)
    requires g[x].parent.Some? && g[x].parent.value in g && x in g[g[x].parent.value].kids
  {
    var p, kept, moved := g[x].parent.value, g[x].kids[..m], g[x].kids[m..];
    Reparent(g, moved, n)
      [x := g[x].(kids := kept, lines := Flat(g, kept))]
      [n := Node(false, Flat(g, moved), moved, Some(p), g[x].rank)]
      [p := g[p].(kids := Adopt(g, p, x, n))]
  }

  /** The root becomes the parent of two new branches that share its children. */
  ghost function SplitRoot<C, L>(g: Graph<C, L>, x: C, copy: C, n: C, m: nat): Graph<C, L>
    requires x in g && m <= |g[x].kids| && AllIn(g, g[x].kids)
  {
    var kept, moved := g[x].kids[..m], g[x].kids[m..];
    (map y | y in g :: if y in moved then g[y].(parent := Some(n))
                       else if y in kept then g[y].(parent := Some(copy)) else g[y])
      [x := g[x].(kids := [copy, n], rank := g[x].rank + 1)]
      [copy := Node(false, Flat(g, kept), kept, Some(x), g[x].rank)]
      [n := Node(false, Flat(g, moved), moved, Some(x), g[x].rank)]
  }

  ghost predicate Adopted<C, L>(g: Graph<C, L>, p: C, c: C, n: C) {
    && p in g && c in g[p].kids && NoDup(Adopt(g, p, c, n))
    && n in Adopt(g, p, c, n)
    && (forall k :: k in g[p].kids ==> k in Adopt(g, p, c, n))
    && (forall k :: k in Adopt(g, p, c, n) ==> k == n || k in g[p].kids)
  }

  lemma AdoptNoDup<C, L>(g: Graph<C, L>, p: C, c: C, n: C)
    requires p in g && c in g[p].kids && NoDup(g[p].kids) && n !in g[p].kids
    ensures Adopted(g, p, c, n)
  {
    var ks, i := g[p].kids, IndexOf(g[p].kids, c) + 1;
    assert ks == ks[..i] + ks[i..];
  }

  lemma AdoptParts<C, L>(g: Graph<C, L>, p: C, c: C, n: C)
    requires p in g && c in g[p].kids && NoDup(g[p].kids)
    ensures var ks, i := g[p].kids, IndexOf(g[p].kids, c);
      && i < |ks| && ks[i] == c && Adopt(g, p, c, n) == ks[..i] + [c] + ([n] + ks[i + 1..])
      && c !in ks[..i] && c !in ks[i + 1..]
  {
  }

  lemma PartSame<C, L>(g: Graph<C, L>, h: Graph<C, L>, ks: seq<C>, part: seq<C>, c: C)
    requires AllIn(g, ks) && AllIn(h, ks) && c !in part && forall k :: k in part ==> k in ks
    requires forall i :: 0 <= i < |ks| && ks[i] != c ==> h[ks[i]].lines == g[ks[i]].lines
    ensures AllIn(g, part) && AllIn(h, part) && Flat(h, part) == Flat(g, part)
  {
    hide Flat;
    forall i | 0 <= i < |part| ensures part[i] in g && part[i] in h && h[part[i]].lines == g[part[i]].lines {
      assert part[i] in part && part[i] in ks;
      var j :| 0 <= j < |ks| && ks[j] == part[i];
    }
    FlatSame(g, h, part);
  }

  lemma AdoptFlat<C, L>(g: Graph<C, L>, h: Graph<C, L>, p: C, c: C, n: C)
    requires p in g && c in g[p].kids && AllIn(g, g[p].kids) && NoDup(g[p].kids)
    requires n in h && AllIn(h, g[p].kids)
    requires forall i :: 0 <= i < |g[p].kids| && g[p].kids[i] != c ==> h[g[p].kids[i]].lines == g[g[p].kids[i]].lines
    requires h[c].lines + h[n].lines == g[c].lines
    ensures AllIn(h, Adopt(g, p, c, n))
    ensures Flat(h, Adopt(g, p, c, n)) == Flat(g, g[p].kids)
  {
    hide Flat, NoDup, Adopt, IndexOf;
    var ks, i := g[p].kids, IndexOf(g[p].kids, c);
    AdoptParts(g, p, c, n);
    var a, b := ks[..i], ks[i + 1..];
    FlatSplit(g, ks, i);
    PartSame(g, h, ks, a, c);
    PartSame(g, h, ks, b, c);
    FlatPair(h, a, c, n, b);
  }

  lemma FlatPair<C, L>(h: Graph<C, L>, a: seq<C>, c: C, n: C, b: seq<C>)
    requires AllIn(h, a) && AllIn(h, b) && c in h && n in h
    ensures AllIn(h, a + [c] + ([n] + b))
    ensures Flat(h, a + [c] + ([n] + b)) == Flat(h, a) + (h[c].lines + h[n].lines) + Flat(h, b)
  {
    FlatOne(h, c);
    FlatOne(h, n);
    FlatCat(h, a, [c]);
    FlatCat(h, [n], b);
    FlatCat(h, a + [c], [n] + b);
  }

  lemma SplitLeafWF<C, L>(g: Graph<C, L>, root: C, c: C, n: C, m: nat)
    requires WF(g, root) && c in g && g[c].leaf && m <= |g[c].lines| && n !in g
    ensures Attached(g, root, c) && c != root && WF(SplitLeaf(g, c, n, m), root)
    ensures SplitLeaf(g, c, n, m)[root].lines == g[root].lines
  {
    assert Local(g, root) && Attached(g, root, c);
    var p := g[c].parent.value;
    var h := SplitLeaf(g, c, n, m);
    assert Local(g, p) && n !in g[p].kids;
    AdoptNoDup(g, p, c, n);
    forall y | y in h ensures Local(h, y) && Attached(h, root, y) && h[y].rank <= h[root].rank {
      SplitLeafNode(g, root, c, n, m, y);
    }
  }

  lemma SplitLeafNode<C, L>(g: Graph<C, L>, root: C, c: C, n: C, m: nat, y: C)
    requires WF(g, root) && c in g && g[c].leaf && m <= |g[c].lines| && n !in g
    requires Attached(g, root, c) && c != root && (y in g || y == n)
    requires Adopted(g, g[c].parent.value, c, n)
    ensures var h := SplitLeaf(g, c, n, m);
            Local(h, y) && Attached(h, root, y) && h[y].rank <= h[root].rank
  {
    var p := g[c].parent.value;
    assert Local(g, p) && Local(g, c) && IsKid(g, p, c) && Attached(g, root, p);
    assert y in g ==> Local(g, y) && Attached(g, root, y);
    if y == p {
      SplitLeafParent(g, root, c, n, m);
    } else if y != n && y != c {
      SplitLeafElsewhere(g, root, c, n, m, y);
    }
  }

  lemma SplitLeafElsewhere<C, L>(g: Graph<C, L>, root: C, c: C, n: C, m: nat, y: C)
    requires c in g && g[c].leaf && m <= |g[c].lines| && n !in g
    requires Attached(g, root, c) && c != root
    requires Adopted(g, g[c].parent.value, c, n)
    requires y in g && y != c && y != g[c].parent.value && Local(g, y) && Attached(g, root, y)
    ensures var h := SplitLeaf(g, c, n, m); Local(h, y) && Attached(h, root, y)
  {
    hide Adopt, Flat;
    NotAKid(g, y, c);
    LocalSame(g, SplitLeaf(g, c, n, m), y);
  }

  lemma SplitLeafParent<C, L>(g: Graph<C, L>, root: C, c: C, n: C, m: nat)
    requires c in g && g[c].leaf && m <= |g[c].lines| && n !in g
    requires Attached(g, root, c) && c != root
    requires var p := g[c].parent.value; Adopted(g, p, c, n) && Local(g, p) && Attached(g, root, p)
    ensures var p, h := g[c].parent.value, SplitLeaf(g, c, n, m); Local(h, p) && Attached(h, root, p)
  {
    var p, h := g[c].parent.value, SplitLeaf(g, c, n, m);
    assert IsKid(g, p, c);
    var ks := Adopt(g, p, c, n);
    forall i | 0 <= i < |ks| ensures IsKid(h, p, ks[i]) {
      assert ks[i] == n || ks[i] in g[p].kids;
    }
    AdoptFlat(g, h, p, c, n);
  }

  lemma KidsCut<C, L>(g: Graph<C, L>, x: C, m: nat)
    requires x in g && Local(g, x) && !g[x].leaf && 0 < m < |g[x].kids|
    ensures AllIn(g, g[x].kids) && AllIn(g, g[x].kids[..m]) && AllIn(g, g[x].kids[m..])
    ensures NoDup(g[x].kids[..m]) && NoDup(g[x].kids[m..])
    ensures forall k :: k in g[x].kids[..m] ==> k in g && IsKid(g, x, k) && k !in g[x].kids[m..]
    ensures forall k :: k in g[x].kids[m..] ==> k in g && IsKid(g, x, k) && k !in g[x].kids[..m]
    ensures forall k :: k in g[x].kids ==> k in g[x].kids[..m] || k in g[x].kids[m..]
    ensures Flat(g, g[x].kids[..m]) + Flat(g, g[x].kids[m..]) == g[x].lines
  {
    assert g[x].kids == g[x].kids[..m] + g[x].kids[m..];
    FlatCat(g, g[x].kids[..m], g[x].kids[m..]);
  }

  /** A branch in h whose children have the lines they have in g. */
  lemma BranchLocal<C, L>(g: Graph<C, L>, h: Graph<C, L>, y: C)
    requires y in h && !h[y].leaf && |h[y].kids| > 0 && NoDup(h[y].kids) && AllIn(g, h[y].kids)
    requires forall i :: 0 <= i < |h[y].kids| ==> SameKid(g, h, y, h[y].kids[i])
    requires h[y].lines == Flat(g, h[y].kids)
    ensures Local(h, y)
  {
    FlatSame(g, h, h[y].kids);
  }

  /** Node k has the same lines, parent and rank in h. */
  ghost predicate Keeps<C, L>(g: Graph<C, L>, h: Graph<C, L>, k: C)
    requires k in g
  {
    k in h && h[k].lines == g[k].lines && h[k].parent == g[k].parent && h[k].rank == g[k].rank
  }

  ghost predicate Splittable<C, L>(g: Graph<C, L>, x: C, n: C, m: nat) {
    x in g && !g[x].leaf && Local(g, x) && n !in g && 0 < m < |g[x].kids| && AllIn(g, g[x].kids)
  }

  ghost predicate BranchSplittable<C, L>(g: Graph<C, L>, root: C, x: C, n: C, m: nat) {
    && Splittable(g, x, n, m) && x != root && Attached(g, root, x)
    && Adopted(g, g[x].parent.value, x, n)
  }

  lemma SplitBranchKept<C, L>(g: Graph<C, L>, root: C, x: C, n: C, m: nat)
    requires BranchSplittable(g, root, x, n, m) && IsKid(g, g[x].parent.value, x)
    ensures Local(SplitBranch(g, x, n, m), x)
  {
    hide Adopt, Local, Flat, NoDup;
    var kept := g[x].kids[..m];
    KidsCut(g, x, m);
    assert forall i :: 0 <= i < |kept| ==> IsKid(g, x, kept[i]);
    BranchLocal(g, SplitBranch(g, x, n, m), x);
  }

  lemma SplitBranchMoved<C, L>(g: Graph<C, L>, root: C, x: C, n: C, m: nat)
    requires BranchSplittable(g, root, x, n, m) && IsKid(g, g[x].parent.value, x)
    ensures Local(SplitBranch(g, x, n, m), n)
  {
    hide Adopt, Local, Flat, NoDup;
    var moved := g[x].kids[m..];
    KidsCut(g, x, m);
    assert forall i :: 0 <= i < |moved| ==> IsKid(g, x, moved[i]);
    BranchLocal(g, SplitBranch(g, x, n, m), n);
  }

  lemma SplitAdopted<C, L>(g: Graph<C, L>, root: C, x: C, n: C, m: nat)
    requires BranchSplittable(g, root, x, n, m)
    requires var p := g[x].parent.value; KidsOk(g, p) && !g[p].leaf && p != x
    ensures var p, h := g[x].parent.value, SplitBranch(g, x, n, m); KidsOk(h, p) && AllIn(h, h[p].kids)
  {
    hide Flat, NoDup, Local;
    var p, h := g[x].parent.value, SplitBranch(g, x, n, m);
    KidsCut(g, x, m);
    assert IsKid(g, p, x);
    var ks := Adopt(g, p, x, n);
    forall i | 0 <= i < |ks| ensures IsKid(h, p, ks[i]) {
      assert ks[i] == n || ks[i] in g[p].kids;
    }
  }

  lemma ParentAttached<C, L>(g: Graph<C, L>, root: C, x: C, n: C, m: nat)
    requires BranchSplittable(g, root, x, n, m)
    requires var p := g[x].parent.value; KidsOk(g, p) && Attached(g, root, p)
    ensures var p, h := g[x].parent.value, SplitBranch(g, x, n, m); p in h && Attached(h, root, p)
  {
    hide Flat, NoDup, Adopt;
    KidsCut(g, x, m);
    assert IsKid(g, g[x].parent.value, x);
  }

  lemma SplitBranchParent<C, L>(g: Graph<C, L>, root: C, x: C, n: C, m: nat)
    requires BranchSplittable(g, root, x, n, m)
    requires var p := g[x].parent.value; Local(g, p) && Attached(g, root, p) && !g[p].leaf
    ensures var p, h := g[x].parent.value, SplitBranch(g, x, n, m); Local(h, p) && Attached(h, root, p)
  {
    hide Flat, NoDup, Local, KidsOk;
    var p, h := g[x].parent.value, SplitBranch(g, x, n, m);
    KidsCut(g, x, m);
    KidsOfLocal(g, p);
    SplitAdopted(g, root, x, n, m);
    AdoptFlat(g, h, p, x, n);
    LocalFrom(h, p);
    ParentAttached(g, root, x, n, m);
  }

  lemma SplitBranchElsewhere<C, L>(g: Graph<C, L>, root: C, x: C, n: C, m: nat, y: C)
    requires BranchSplittable(g, root, x, n, m)
    requires y in g && y != x && y != g[x].parent.value && Local(g, y) && Attached(g, root, y)
    ensures var h := SplitBranch(g, x, n, m); Local(h, y) && Attached(h, root, y)
  {
    hide Adopt, Flat, Local, KidsOk, NoDup;
    var h := SplitBranch(g, x, n, m);
    KidsCut(g, x, m);
    KidsAreOk(g, y);
    NotAKid(g, y, x);
    assert Attached(h, root, y);
    hide Attached, Adopted;
    KeepsElsewhere(g, h, y, x, g[x].kids[m..]);
  }

  /** A node that keeps its children agrees with them still when none of them moved; x,
      who lost children, is not one of them. */
  lemma KeepsElsewhere<C, L>(g: Graph<C, L>, h: Graph<C, L>, y: C, x: C, moved: seq<C>)
    requires y in g && y in h && Local(g, y) && y != x && x !in g[y].kids
    requires h[y].leaf == g[y].leaf && h[y].lines == g[y].lines && h[y].kids == g[y].kids && h[y].rank == g[y].rank
    requires forall k :: k in moved ==> k in g && g[k].parent == Some(x)
    requires forall k :: k in g && k !in moved && k != x ==> Keeps(g, h, k)
    ensures Local(h, y)
  {
    forall i | 0 <= i < |g[y].kids| ensures SameKid(g, h, y, g[y].kids[i]) {
      assert IsKid(g, y, g[y].kids[i]);
      assert Keeps(g, h, g[y].kids[i]);
    }
    LocalSame(g, h, y);
  }

  lemma NodeIn<C, L>(g: Graph<C, L>, root: C, y: C)
    requires WF(g, root) && y in g
    ensures Local(g, y) && Attached(g, root, y) && g[y].rank <= g[root].rank
  {
  }

  lemma RootIn<C, L>(g: Graph<C, L>, root: C)
    requires WF(g, root)
    ensures root in g && !g[root].leaf && NoDup(g[root].lines) && g[root].parent == None
  {
    assert Attached(g, root, root);
  }

  lemma WFFrom<C, L>(h: Graph<C, L>, root: C)
    requires root in h && !h[root].leaf && NoDup(h[root].lines)
    requires forall y :: y in h ==> Local(h, y) && Attached(h, root, y) && h[y].rank <= h[root].rank
    ensures WF(h, root)
  {
  }

  lemma ParentOf<C, L>(g: Graph<C, L>, p: C, x: C, n: C)
    requires p in g && Local(g, p) && x in g[p].kids && n !in g
    ensures !g[p].leaf && IsKid(g, p, x) && NoDup(g[p].kids) && n !in g[p].kids
  {
    hide Flat;
  }

  lemma SplitBranchWF<C, L>(g: Graph<C, L>, root: C, x: C, n: C, m: nat)
    requires WF(g, root) && Splittable(g, x, n, m) && x != root
    ensures Attached(g, root, x) && WF(SplitBranch(g, x, n, m), root)
    ensures SplitBranch(g, x, n, m)[root].lines == g[root].lines
  {
    hide WF, Local, Flat, NoDup, SplitBranch, Adopt;
    NodeIn(g, root, x);
    var p := g[x].parent.value;
    NodeIn(g, root, p);
    RootIn(g, root);
    ParentOf(g, p, x, n);
    AdoptNoDup(g, p, x, n);
    SplitBranchKept(g, root, x, n, m);
    SplitBranchMoved(g, root, x, n, m);
    SplitBranchParent(g, root, x, n, m);
    SplitBranchRoot(g, root, x, n, m);
    SplitBranchRanks(g, root, x, n, m);
    hide Attached;
    var h := SplitBranch(g, x, n, m);
    forall y | y in h ensures Local(h, y) && Attached(h, root, y) && h[y].rank <= h[root].rank {
      if y in g {
        NodeIn(g, root, y);
        if y != p && y != x {
          SplitBranchElsewhere(g, root, x, n, m, y);
        }
      }
    }
    WFFrom(h, root);
  }

  lemma SplitBranchRoot<C, L>(g: Graph<C, L>, root: C, x: C, n: C, m: nat)
    requires WF(g, root) && BranchSplittable(g, root, x, n, m)
    ensures var h := SplitBranch(g, x, n, m);
            root in h && !h[root].leaf && h[root].lines == g[root].lines && Attached(h, root, x) && Attached(h, root, n)
  {
    KidsCut(g, x, m);
    assert Attached(g, root, root) && root !in g[x].kids[m..];
    hide Adopt, Flat, Local;
  }

  lemma SplitBranchRanks<C, L>(g: Graph<C, L>, root: C, x: C, n: C, m: nat)
    requires WF(g, root) && BranchSplittable(g, root, x, n, m)
    ensures var h := SplitBranch(g, x, n, m);
            h.Keys == g.Keys + {n} && forall y :: y in h ==> h[y].rank == if y == n then g[x].rank else g[y].rank
  {
    hide Adopt, Flat, Local, NoDup;
    KidsCut(g, x, m);
  }

  // ----- the root grows a level

  lemma SplitRootKept<C, L>(g: Graph<C, L>, x: C, copy: C, n: C, m: nat)
    requires Splittable(g, x, n, m) && copy !in g && copy != n && g[x].parent == None
    ensures Local(SplitRoot(g, x, copy, n, m), copy)
  {
    hide Local, Flat, NoDup;
    var kept := g[x].kids[..m];
    KidsCut(g, x, m);
    assert forall i :: 0 <= i < |kept| ==> IsKid(g, x, kept[i]) && kept[i] !in g[x].kids[m..];
    BranchLocal(g, SplitRoot(g, x, copy, n, m), copy);
  }

  lemma SplitRootMoved<C, L>(g: Graph<C, L>, x: C, copy: C, n: C, m: nat)
    requires Splittable(g, x, n, m) && copy !in g && copy != n && g[x].parent == None
    ensures Local(SplitRoot(g, x, copy, n, m), n)
  {
    hide Local, Flat, NoDup;
    var moved := g[x].kids[m..];
    KidsCut(g, x, m);
    assert forall i :: 0 <= i < |moved| ==> IsKid(g, x, moved[i]);
    BranchLocal(g, SplitRoot(g, x, copy, n, m), n);
  }

  lemma SplitRootTop<C, L>(g: Graph<C, L>, x: C, copy: C, n: C, m: nat)
    requires Splittable(g, x, n, m) && copy !in g && copy != n && g[x].parent == None
    ensures var h := SplitRoot(g, x, copy, n, m);
            Local(h, x) && Attached(h, x, x) && Attached(h, x, copy) && Attached(h, x, n)
  {
    hide Local, Flat, NoDup;
    KidsCut(g, x, m);
    RootOfTwo(SplitRoot(g, x, copy, n, m), x, copy, n);
  }

  lemma RootOfTwo<C, L>(h: Graph<C, L>, x: C, a: C, b: C)
    requires x in h && a in h && b in h && a != b && !h[x].leaf && h[x].kids == [a, b]
    requires IsKid(h, x, a) && IsKid(h, x, b) && h[x].lines == h[a].lines + h[b].lines
    ensures Local(h, x)
  {
    FlatOne(h, a);
    FlatOne(h, b);
    assert [a, b] == [a] + [b];
    FlatCat(h, [a], [b]);
  }

  lemma SplitRootElsewhere<C, L>(g: Graph<C, L>, x: C, copy: C, n: C, m: nat, y: C)
    requires Splittable(g, x, n, m) && copy !in g && copy != n && g[x].parent == None
    requires y in g && y != x && Local(g, y) && Attached(g, x, y)
    ensures var h := SplitRoot(g, x, copy, n, m); Local(h, y) && Attached(h, x, y)
  {
    hide Flat, Local, KidsOk, NoDup;
    var h := SplitRoot(g, x, copy, n, m);
    KidsCut(g, x, m);
    KidsAreOk(g, y);
    NotAKid(g, y, x);
    assert forall k :: k in g[x].kids ==> k in g && g[k].parent == Some(x);
    assert Attached(h, x, y);
    hide Attached;
    KeepsElsewhere(g, h, y, x, g[x].kids);
  }

  lemma SplitRootRanks<C, L>(g: Graph<C, L>, x: C, copy: C, n: C, m: nat)
    requires Splittable(g, x, n, m) && copy !in g && copy != n && forall y :: y in g ==> g[y].rank <= g[x].rank
    ensures var h := SplitRoot(g, x, copy, n, m);
      && h.Keys == g.Keys + {copy, n} && !h[x].leaf && h[x].lines == g[x].lines
      && forall y :: y in h ==> h[y].rank <= h[x].rank
  {
    hide Local, Flat, NoDup;
  }

  lemma SplitRootWF<C, L>(g: Graph<C, L>, x: C, copy: C, n: C, m: nat)
    requires WF(g, x) && Splittable(g, x, n, m) && copy !in g && copy != n
    ensures WF(SplitRoot(g, x, copy, n, m), x)
    ensures SplitRoot(g, x, copy, n, m)[x].lines == g[x].lines
  {
    hide WF, Local, Flat, NoDup, SplitRoot;
    RootIn(g, x);
    SplitRootKept(g, x, copy, n, m);
    SplitRootMoved(g, x, copy, n, m);
    SplitRootTop(g, x, copy, n, m);
    var h := SplitRoot(g, x, copy, n, m);
    forall y | y in g ensures g[y].rank <= g[x].rank {
      NodeIn(g, x, y);
    }
    SplitRootRanks(g, x, copy, n, m);
    hide Attached;
    forall y | y in h ensures Local(h, y) && Attached(h, x, y) && h[y].rank <= h[x].rank {
      if y != x && y != copy && y != n {
        NodeIn(g, x, y);
        SplitRootElsewhere(g, x, copy, n, m, y);
      }
    }
    WFFrom(h, x);
  }

  // ----- bounds

  /** At most 50 lines to a leaf and 10 children to a branch, except for the given nodes. */
  ghost predicate Bounded<C, L>(g: Graph<C, L>, except: set<C>) {
    forall c :: c in g && c !in except ==> if g[c].leaf then |g[c].lines| <= 50 else |g[c].kids| <= 10
  }

  ghost predicate SameButParent<C, L>(a: Node<C, L>, b: Node<C, L>) {
    a.leaf == b.leaf && a.lines == b.lines && a.kids == b.kids && a.rank == b.rank
  }

  /** Branch x below p can be split at m, and n is new. */
  ghost predicate BranchToSplit<C, L>(g: Graph<C, L>, x: C, p: C, n: C, m: nat) {
    && x in g && n !in g && m <= |g[x].kids| && AllIn(g, g[x].kids) && x !in g[x].kids
    && g[x].parent == Some(p) && p in g && x in g[p].kids && p != x && p !in g[x].kids
  }

  lemma PartsIn<C, L>(g: Graph<C, L>, ks: seq<C>, m: nat)
    requires AllIn(g, ks) && m <= |ks|
    ensures AllIn(g, ks[..m]) && AllIn(g, ks[m..])
  {
  }

  lemma SplitBranchNew<C, L>(g: Graph<C, L>, x: C, p: C, n: C, m: nat)
    requires BranchToSplit(g, x, p, n, m)
    ensures AllIn(g, g[x].kids[..m]) && AllIn(g, g[x].kids[m..])
    ensures var h := SplitBranch(g, x, n, m);
            && h.Keys == g.Keys + {n}
            && h[n] == Node(false, Flat(g, g[x].kids[m..]), g[x].kids[m..], Some(p), g[x].rank)
  {
    hide Adopt, Flat;
    PartsIn(g, g[x].kids, m);
  }

  lemma SplitBranchOld<C, L>(g: Graph<C, L>, x: C, p: C, n: C, m: nat)
    requires BranchToSplit(g, x, p, n, m)
    ensures AllIn(g, g[x].kids[..m])
    ensures var h := SplitBranch(g, x, n, m);
            && x in h && h[x] == g[x].(kids := g[x].kids[..m], lines := Flat(g, g[x].kids[..m]))
            && p in h && h[p] == g[p].(kids := Adopt(g, p, x, n))
  {
    hide Adopt, Flat;
    PartsIn(g, g[x].kids, m);
  }

  lemma SplitBranchOther<C, L>(g: Graph<C, L>, x: C, p: C, n: C, m: nat, y: C)
    requires BranchToSplit(g, x, p, n, m) && y in g && y != x && y != p
    ensures var h := SplitBranch(g, x, n, m); y in h && SameButParent(g[y], h[y])
  {
    hide Adopt, Flat;
  }

  /** What a split leaves as it was. */
  lemma SplitBranchShape<C, L>(g: Graph<C, L>, x: C, p: C, n: C, m: nat)
    requires BranchToSplit(g, x, p, n, m)
    ensures var h := SplitBranch(g, x, n, m);
            && h.Keys == g.Keys + {n}
            && AllIn(g, g[x].kids[..m]) && AllIn(g, g[x].kids[m..])
            && h[x] == g[x].(kids := g[x].kids[..m], lines := Flat(g, g[x].kids[..m]))
            && h[n] == Node(false, Flat(g, g[x].kids[m..]), g[x].kids[m..], Some(p), g[x].rank)
            && h[p] == g[p].(kids := Adopt(g, p, x, n))
            && forall y :: y in g && y != x && y != p ==> SameButParent(g[y], h[y])
  {
    hide Adopt, Flat, SplitBranch, SameButParent;
    SplitBranchNew(g, x, p, n, m);
    SplitBranchOld(g, x, p, n, m);
    forall y | y in g && y != x && y != p ensures SameButParent(g[y], SplitBranch(g, x, n, m)[y]) {
      SplitBranchOther(g, x, p, n, m, y);
    }
  }

  ghost predicate RootToSplit<C, L>(g: Graph<C, L>, x: C, copy: C, n: C, m: nat) {
    && x in g && n !in g && copy !in g && copy != n
    && m <= |g[x].kids| && AllIn(g, g[x].kids) && x !in g[x].kids
  }

  lemma SplitRootNew<C, L>(g: Graph<C, L>, x: C, copy: C, n: C, m: nat)
    requires RootToSplit(g, x, copy, n, m)
    ensures AllIn(g, g[x].kids[..m]) && AllIn(g, g[x].kids[m..])
    ensures var h := SplitRoot(g, x, copy, n, m);
            && h.Keys == g.Keys + {n, copy}
            && h[n] == Node(false, Flat(g, g[x].kids[m..]), g[x].kids[m..], Some(x), g[x].rank)
            && h[copy] == Node(false, Flat(g, g[x].kids[..m]), g[x].kids[..m], Some(x), g[x].rank)
  {
    hide Flat;
    PartsIn(g, g[x].kids, m);
  }

  lemma SplitRootOld<C, L>(g: Graph<C, L>, x: C, copy: C, n: C, m: nat)
    requires RootToSplit(g, x, copy, n, m)
    ensures var h := SplitRoot(g, x, copy, n, m);
            x in h && h[x] == g[x].(kids := [copy, n], rank := g[x].rank + 1)
  {
    hide Flat;
  }

  lemma SplitRootOther<C, L>(g: Graph<C, L>, x: C, copy: C, n: C, m: nat, y: C)
    requires RootToSplit(g, x, copy, n, m) && y in g && y != x
    ensures var h := SplitRoot(g, x, copy, n, m); y in h && SameButParent(g[y], h[y])
  {
    hide Flat;
  }

  lemma SplitRootShape<C, L>(g: Graph<C, L>, x: C, copy: C, n: C, m: nat)
    requires RootToSplit(g, x, copy, n, m)
    ensures var h := SplitRoot(g, x, copy, n, m);
            && h.Keys == g.Keys + {n, copy}
            && AllIn(g, g[x].kids[..m]) && AllIn(g, g[x].kids[m..])
            && h[x] == g[x].(kids := [copy, n], rank := g[x].rank + 1)
            && h[n] == Node(false, Flat(g, g[x].kids[m..]), g[x].kids[m..], Some(x), g[x].rank)
            && h[copy] == Node(false, Flat(g, g[x].kids[..m]), g[x].kids[..m], Some(x), g[x].rank)
            && forall y :: y in g && y != x ==> SameButParent(g[y], h[y])
  {
    hide Flat, SplitRoot, SameButParent;
    SplitRootNew(g, x, copy, n, m);
    SplitRootOld(g, x, copy, n, m);
    forall y | y in g && y != x ensures SameButParent(g[y], SplitRoot(g, x, copy, n, m)[y]) {
      SplitRootOther(g, x, copy, n, m, y);
    }
  }

  /** A branch that is not the root sits in its parent. */
  lemma InParent<C, L>(g: Graph<C, L>, root: C, x: C)
    requires WF(g, root) && x in g && x != root
    ensures g[x].parent.Some?
    ensures var p := g[x].parent.value;
            && p in g && !g[p].leaf && p != x && x in g[p].kids && NoDup(g[p].kids) && p !in g[x].kids
            && g[p].rank == g[x].rank + 1
  {
    assert Attached(g, root, x);
    var p := g[x].parent.value;
    assert Local(g, p) && IsKid(g, p, x);
    assert Local(g, x);
  }

  lemma OwnKids<C, L>(g: Graph<C, L>, root: C, x: C)
    requires WF(g, root) && x in g && !g[x].leaf
    ensures NoDup(g[x].kids) && AllIn(g, g[x].kids) && x !in g[x].kids && Local(g, x)
    ensures g[x].lines == Flat(g, g[x].kids)
  {
    assert Local(g, x);
  }

  /** x, a branch below the root, may have too many children, and so may its parent. */
  ghost predicate Overfull<C, L>(g: Graph<C, L>, root: C, x: C, p: C) {
    && WF(g, root) && x in g && !g[x].leaf && x != root && g[x].parent == Some(p) && p in g
    && Bounded(g, {x, p})
  }

  lemma AfterSplitBranch<C, L>(g: Graph<C, L>, root: C, x: C, p: C, n: C)
    requires Overfull(g, root, x, p) && |g[x].kids| > 10 && n !in g && AllIn(g, g[x].kids) && x in g[p].kids
    ensures var h := SplitBranch(g, x, n, |g[x].kids| - 5);
            && Overfull(h, root, x, p) && h.Keys == g.Keys + {n} && root in h && root in g
            && h[root].lines == g[root].lines && h[root].rank == g[root].rank
            && h[p].rank == g[p].rank && |h[x].kids| == |g[x].kids| - 5 && |h[p].kids| == |g[p].kids| + 1
  {
    hide SplitBranch, WF, Flat, Local, NoDup;
    var m := |g[x].kids| - 5;
    RootIn(g, root);
    OwnKids(g, root, x);
    InParent(g, root, x);
    SplitBranchWF(g, root, x, n, m);
    SplitBranchShape(g, x, p, n, m);
    assert SplitBranch(g, x, n, m)[root].rank == g[root].rank;
  }

  lemma AfterSplitRoot<C, L>(g: Graph<C, L>, x: C, copy: C, n: C)
    requires WF(g, x) && |g[x].kids| > 10 && n !in g && copy !in g && copy != n && Bounded(g, {x})
    requires AllIn(g, g[x].kids)
    ensures var h := SplitRoot(g, x, copy, n, |g[x].kids| - 5);
            && Overfull(h, x, copy, x) && h.Keys == g.Keys + {n, copy}
            && h[x].lines == g[x].lines && |h[copy].kids| == |g[x].kids| - 5 && |h[x].kids| == 2
  {
    hide SplitRoot, Flat, Local, Attached, NoDup;
    var m := |g[x].kids| - 5;
    OwnKids(g, x, x);
    SplitRootWF(g, x, copy, n, m);
    SplitRootShape(g, x, copy, n, m);
  }

  /** Every node's lines are a stretch of its parent's. */
  lemma LinesInParent<C, L>(g: Graph<C, L>, p: C, i: nat) returns (off: nat)
    requires p in g && Local(g, p) && !g[p].leaf && i < |g[p].kids|
    ensures g[p].kids[i] in g && off + |g[g[p].kids[i]].lines| <= |g[p].lines|
    ensures g[p].lines[off..off + |g[g[p].kids[i]].lines|] == g[g[p].kids[i]].lines
    ensures AllIn(g, g[p].kids[..i]) && off == |Flat(g, g[p].kids[..i])|
  {
    FlatSplit(g, g[p].kids, i);
    off := |Flat(g, g[p].kids[..i])|;
  }

  lemma {:induction false} LinesNoDup<C, L>(g: Graph<C, L>, root: C, x: C)
    requires WF(g, root) && x in g
    ensures NoDup(g[x].lines)
    decreases g[root].rank - g[x].rank
  {
    if x != root {
      InParent(g, root, x);
      var p := g[x].parent.value;
      LinesNoDup(g, root, p);
      assert Local(g, p);
      var off := LinesInParent(g, p, IndexOf(g[p].kids, x));
      NoDupPart(g[p].lines, off, g[x].lines);
    }
  }

  lemma NoDupPart<T>(s: seq<T>, off: nat, part: seq<T>)
    requires NoDup(s) && off + |part| <= |s| && s[off..off + |part|] == part
    ensures NoDup(part)
  {
    assert forall i :: 0 <= i < |part| ==> part[i] == s[off + i];
  }

  /** c, a leaf below branch p, may have too many lines, and p too many children. */
  ghost predicate LongLeaf<C, L>(g: Graph<C, L>, root: C, p: C, i: nat, c: C) {
    && root in g && WF(g, root) && p in g && !g[p].leaf && i < |g[p].kids| && g[p].kids[i] == c && c in g
    && g[c].leaf && g[c].parent == Some(p) && Bounded(g, {c, p})
  }

  lemma RootIsBranch<C, L>(g: Graph<C, L>, root: C)
    requires WF(g, root)
    ensures root in g && !g[root].leaf
  {
  }

  lemma AfterSplitLeaf<C, L>(g: Graph<C, L>, root: C, p: C, i: nat, c: C, n: C)
    requires LongLeaf(g, root, p, i, c) && |g[c].lines| > 50 && n !in g && c in g[p].kids
    ensures var h := SplitLeaf(g, c, n, |g[c].lines| - 25);
            && LongLeaf(h, root, p, i, c) && h.Keys == g.Keys + {n} && root in h && root in g
            && h[root].lines == g[root].lines && h[p].rank == g[p].rank && h[root].rank == g[root].rank
            && h[c].lines == g[c].lines[..|g[c].lines| - 25]
  {
    hide WF, Flat, NoDup, IndexOf;
    OwnKids(g, root, p);
    RootIsBranch(g, root);
    IndexOfIs(g[p].kids, i);
    SplitLeafWF(g, root, c, n, |g[c].lines| - 25);
    assert c != p && root != c;
  }

  /** Filling the leaf the lines were on their way to. */
  lemma Arrived<C, L>(g: Graph<C, L>, root: C, p: C, i: nat, at: nat, ls: seq<L>)
    requires p in g && KidsOk(g, p) && !g[p].leaf && i < |g[p].kids| && g[p].kids[i] in g
    requires var c := g[p].kids[i]; Pending(g, root, c, at, ls) && g[c].leaf && Bounded(g, {})
    ensures var c, h := g[p].kids[i], Grown(g, g[p].kids[i], at, ls);
            && LongLeaf(h, root, p, i, c) && root in h && root in g && h[root].lines == g[root].lines
            && (|h[c].lines| <= 50 ==> Bounded(h, {}))
  {
    PendingDone(g, root, g[p].kids[i], at, ls);
    assert IsKid(g, p, g[p].kids[i]);
  }
}
