/** Removing lines from the tree's shape: what one level of the removal keeps, dropping
    an emptied child, and collapsing a small branch into one leaf. */
module LineRemoval {
  import opened Wrappers
  import opened LineGraph

  ghost predicate Hangs<C, L>(g: Graph<C, L>, y: C)
    requires y in g
  {
    g[y].parent.Some? && g[y].parent.value in g && y in g[g[y].parent.value].kids
  }

  /** All nodes of lower rank agree with their children and hang from their parents. */
  ghost predicate Below<C, L>(g: Graph<C, L>, r: nat) {
    forall y :: y in g && g[y].rank < r ==> Local(g, y) && Hangs(g, y)
  }

  ghost predicate LooseKids<C, L>(g: Graph<C, L>, x: C) {
    && x in g && !g[x].leaf && NoDup(g[x].kids) && AllIn(g, g[x].kids)
    && forall i :: 0 <= i < |g[x].kids| ==> IsKid(g, x, g[x].kids[i])
  }

  ghost predicate SameNode<C, L>(g: Graph<C, L>, h: Graph<C, L>, y: C) {
    y in g && y in h && h[y] == g[y]
  }

  /** Only x and nodes below it have changed; of those far below nothing is said here. */
  ghost predicate Elsewhere<C, L>(g: Graph<C, L>, h: Graph<C, L>, x: C) {
    && x in g && x in h && h[x].rank == g[x].rank && h[x].parent == g[x].parent && h[x].leaf == g[x].leaf
    && (forall y :: y in g && y != x && g[y].rank >= g[x].rank ==> SameNode(g, h, y))
    && (forall y :: y in g && g[y].rank + 1 == g[x].rank && g[y].parent != Some(x) ==> SameNode(g, h, y))
    && (forall y :: y in h ==> if y in g then h[y].rank == g[y].rank else h[y].rank < g[x].rank)
  }

  /** x is about to lose lines: all is well below it. */
  ghost predicate Ready<C, L>(g: Graph<C, L>, x: C) {
    x in g && Below(g, g[x].rank) && Local(g, x)
  }

  /** x, a child of branch p, has lost lines: all is still well below p. */
  lemma BelowAfterChild<C, L>(g: Graph<C, L>, h: Graph<C, L>, p: C, x: C)
    requires p in g && x in g && IsKid(g, p, x) && LooseKids(g, p) && Below(g, g[p].rank)
    requires Elsewhere(g, h, x) && Ready(h, x)
    ensures Below(h, g[p].rank) && LooseKids(h, p) && SameNode(g, h, p)
    ensures forall i :: 0 <= i < |g[p].kids| && g[p].kids[i] != x ==> SameNode(g, h, g[p].kids[i])
  {
    forall y | y in h && h[y].rank < g[p].rank ensures Local(h, y) && Hangs(h, y) {
      ChildStillLocal(g, h, p, x, y);
    }
    forall i | 0 <= i < |g[p].kids| ensures IsKid(h, p, g[p].kids[i]) {
      assert IsKid(g, p, g[p].kids[i]);
      assert g[p].kids[i] != x ==> SameNode(g, h, g[p].kids[i]);
    }
    assert forall i :: 0 <= i < |g[p].kids| && g[p].kids[i] != x ==> IsKid(g, p, g[p].kids[i]);
  }

  lemma ChildStillLocal<C, L>(g: Graph<C, L>, h: Graph<C, L>, p: C, x: C, y: C)
    requires p in g && x in g && IsKid(g, p, x) && x in g[p].kids && Below(g, g[p].rank)
    requires Elsewhere(g, h, x) && Ready(h, x)
    requires y in h && h[y].rank < g[p].rank
    ensures Local(h, y) && Hangs(h, y)
  {
    if y == x {
      assert SameNode(g, h, p);
    } else if h[y].rank == g[x].rank {
      assert Local(g, y) && Hangs(g, y) && SameNode(g, h, y);
      assert SameNode(g, h, g[y].parent.value);
      forall i | 0 <= i < |g[y].kids| ensures SameKid(g, h, y, g[y].kids[i]) {
        assert IsKid(g, y, g[y].kids[i]);
        assert SameNode(g, h, g[y].kids[i]);
      }
      LocalSame(g, h, y);
    }
  }

  // ----- the nodes below a node

  ghost function Sub<C, L>(g: Graph<C, L>, x: C): set<C>
    requires x in g
    decreases g[x].rank, 1, 0
  {
    {x} + SubAll(g, g[x].kids, g[x].rank)
  }

  ghost function SubAll<C, L>(g: Graph<C, L>, ks: seq<C>, r: nat): set<C>
    decreases r, 0, |ks|
  {
    if |ks| == 0 then {}
    else (if ks[0] in g && g[ks[0]].rank < r then Sub(g, ks[0]) else {}) + SubAll(g, ks[1..], r)
  }

  /** D holds x and, closed under parents and children, nodes of lower rank below it. */
  ghost predicate Closed<C, L>(g: Graph<C, L>, x: C, D: set<C>) {
    && x in D
    && (forall y :: y in D ==> y in g && (forall i :: 0 <= i < |g[y].kids| ==> g[y].kids[i] in D))
    && (forall y :: y in D && y != x ==> g[y].rank < g[x].rank && g[y].parent.Some? && g[y].parent.value in D)
  }

  ghost predicate KidsBelow<C, L>(g: Graph<C, L>, x: C, ks: seq<C>) {
    x in g && forall i :: 0 <= i < |ks| ==> IsKid(g, x, ks[i])
  }

  /** As Closed, for the nodes below some children of x. */
  ghost predicate ClosedAll<C, L>(g: Graph<C, L>, x: C, ks: seq<C>, D: set<C>) {
    && x in g
    && (forall i :: 0 <= i < |ks| ==> ks[i] in D)
    && (forall y :: y in D ==> y in g && (forall i :: 0 <= i < |g[y].kids| ==> g[y].kids[i] in D))
    && (forall y :: y in D ==>
      g[y].rank < g[x].rank && g[y].parent.Some? && (g[y].parent.value in D || g[y].parent == Some(x)))
  }

  lemma {:induction false} SubIsClosed<C, L>(g: Graph<C, L>, x: C)
    requires x in g && Below(g, g[x].rank) && KidsBelow(g, x, g[x].kids)
    ensures Closed(g, x, Sub(g, x))
    decreases g[x].rank, 1, 0
  {
    SubAllIsClosed(g, x, g[x].kids);
  }

  lemma {:induction false} SubAllIsClosed<C, L>(g: Graph<C, L>, x: C, ks: seq<C>)
    requires x in g && Below(g, g[x].rank) && KidsBelow(g, x, ks)
    ensures ClosedAll(g, x, ks, SubAll(g, ks, g[x].rank))
    decreases g[x].rank, 0, |ks|
  {
    if |ks| > 0 {
      assert IsKid(g, x, ks[0]) && Local(g, ks[0]);
      assert forall i :: 0 <= i < |ks| - 1 ==> ks[1..][i] == ks[i + 1];
      SubIsClosed(g, ks[0]);
      SubAllIsClosed(g, x, ks[1..]);
      JoinClosed(g, x, ks, Sub(g, ks[0]), SubAll(g, ks[1..], g[x].rank));
    }
  }

  lemma JoinClosed<C, L>(g: Graph<C, L>, x: C, ks: seq<C>, D: set<C>, E: set<C>)
    requires |ks| > 0 && x in g && IsKid(g, x, ks[0]) && Closed(g, ks[0], D) && ClosedAll(g, x, ks[1..], E)
    ensures ClosedAll(g, x, ks, D + E)
  {
  }

  /** Every line below a node of D is in some leaf of D. */
  lemma {:induction false} LineHasLeaf<C, L>(g: Graph<C, L>, x: C, k: C, D: set<C>, l: L) returns (z: C)
    requires Closed(g, x, D) && Below(g, g[x].rank) && k in D && Local(g, k) && l in g[k].lines
    ensures z in D && g[z].leaf && l in g[z].lines
    decreases g[k].rank
  {
    if g[k].leaf {
      z := k;
    } else {
      var i := LineHasKid(g, g[k].kids, l);
      assert IsKid(g, k, g[k].kids[i]);
      z := LineHasLeaf(g, x, g[k].kids[i], D, l);
    }
  }

  lemma {:induction false} LineHasKid<C, L>(g: Graph<C, L>, ks: seq<C>, l: L) returns (i: nat)
    requires AllIn(g, ks) && l in Flat(g, ks)
    ensures i < |ks| && l in g[ks[i]].lines
  {
    if l in g[ks[0]].lines {
      i := 0;
    } else {
      i := LineHasKid(g, ks[1..], l);
      i := i + 1;
    }
  }

  // ----- dropping nodes

  ghost function Without<C, L>(g: Graph<C, L>, D: set<C>): Graph<C, L> {
    map y | y in g && y !in D :: g[y]
  }

  /** Nodes outside D are not attached to nodes inside, except x. */
  lemma Detached<C, L>(g: Graph<C, L>, x: C, D: set<C>, y: C)
    requires Closed(g, x, D) && Below(g, g[x].rank + 1) && y in g && y !in D && g[y].rank <= g[x].rank
    ensures forall i :: 0 <= i < |g[y].kids| ==> g[y].kids[i] in g && g[y].kids[i] !in D
    ensures g[y].parent.Some? && g[y].parent.value in g && g[y].parent.value !in D
  {
  }

  /** The graph without a child of p that has no lines left, and without all below it. */
  ghost function Dropped<C, L>(g: Graph<C, L>, p: C, i: nat): Graph<C, L>
    requires p in g && i < |g[p].kids| && g[p].kids[i] in g
  {
    Without(g, Sub(g, g[p].kids[i]))[p := g[p].(kids := g[p].kids[..i] + g[p].kids[i + 1..])]
  }

  lemma DroppedIsBelow<C, L>(g: Graph<C, L>, p: C, i: nat)
    requires LooseKids(g, p) && Below(g, g[p].rank) && i < |g[p].kids|
    ensures var h := Dropped(g, p, i); Below(h, g[p].rank) && LooseKids(h, p)
  {
    var x := g[p].kids[i];
    var D := Sub(g, x);
    var h := Dropped(g, p, i);
    assert IsKid(g, p, x) && Local(g, x);
    SubIsClosed(g, x);
    assert p !in D;
    forall y | y in h && h[y].rank < g[p].rank ensures Local(h, y) && Hangs(h, y) {
      assert Local(g, y) && Hangs(g, y);
      Detached(g, x, D, y);
      forall j | 0 <= j < |g[y].kids| ensures SameKid(g, h, y, g[y].kids[j]) {
        assert IsKid(g, y, g[y].kids[j]);
      }
      LocalSame(g, h, y);
    }
    DroppedKids(g, p, i, D);
  }

  lemma DroppedKids<C, L>(g: Graph<C, L>, p: C, i: nat, D: set<C>)
    requires LooseKids(g, p) && i < |g[p].kids| && Closed(g, g[p].kids[i], D) && p !in D
    ensures LooseKids(Without(g, D)[p := g[p].(kids := g[p].kids[..i] + g[p].kids[i + 1..])], p)
  {
  }

  /** The graph in which p has one child left, leaf n with all of p's lines. */
  ghost function Collapsed<C, L>(g: Graph<C, L>, p: C, n: C): Graph<C, L>
    requires p in g && g[p].rank > 0 && AllIn(g, g[p].kids)
  {
    var lines := Flat(g, g[p].kids);
    Without(g, Sub(g, p))[n := Node(true, lines, [], Some(p), g[p].rank - 1)]
                         [p := g[p].(kids := [n], lines := lines)]
  }

  lemma CollapsedIsReady<C, L>(g: Graph<C, L>, p: C, n: C)
    requires LooseKids(g, p) && Below(g, g[p].rank) && g[p].rank > 0 && n !in g
    ensures Ready(Collapsed(g, p, n), p)
  {
    var D := Sub(g, p);
    var h := Collapsed(g, p, n);
    SubIsClosed(g, p);
    forall y | y in h && h[y].rank < g[p].rank ensures Local(h, y) && Hangs(h, y) {
      if y != n {
        CollapsedElsewhere(g, p, n, D, y);
      }
    }
    FlatOne(h, n);
    assert IsKid(h, p, n);
  }

  lemma CollapsedElsewhere<C, L>(g: Graph<C, L>, p: C, n: C, D: set<C>, y: C)
    requires LooseKids(g, p) && Below(g, g[p].rank) && g[p].rank > 0 && n !in g && Closed(g, p, D) && D == Sub(g, p)
    requires y in g && y !in D && g[y].rank < g[p].rank
    ensures var h := Collapsed(g, p, n); y in h && Local(h, y) && Hangs(h, y)
  {
    hide Flat, NoDup, Sub;
    var h := Collapsed(g, p, n);
    assert Local(g, y) && Hangs(g, y);
    forall j | 0 <= j < |g[y].kids| ensures SameKid(g, h, y, g[y].kids[j]) {
      assert IsKid(g, y, g[y].kids[j]);
    }
    LocalSame(g, h, y);
  }

  // ----- what stays elsewhere

  lemma ElsewhereChild<C, L>(g0: Graph<C, L>, g: Graph<C, L>, h: Graph<C, L>, p: C, x: C)
    requires Elsewhere(g0, g, p) && x in g && IsKid(g, p, x) && Elsewhere(g, h, x)
    requires forall y :: y in h && y !in g ==> y !in g0
    ensures Elsewhere(g0, h, p)
  {
  }

  lemma ElsewhereDropped<C, L>(g0: Graph<C, L>, g: Graph<C, L>, p: C, i: nat)
    requires Elsewhere(g0, g, p) && LooseKids(g, p) && Below(g, g[p].rank) && i < |g[p].kids|
    ensures Elsewhere(g0, Dropped(g, p, i), p)
  {
    var x := g[p].kids[i];
    assert IsKid(g, p, x) && Local(g, x);
    SubIsClosed(g, x);
    var D := Sub(g, x);
    forall y | y in g0 && y != p && g0[y].rank >= g0[p].rank ensures SameNode(g0, Dropped(g, p, i), y) {
      assert SameNode(g0, g, y);
    }
    forall y | y in g0 && g0[y].rank + 1 == g0[p].rank && g0[y].parent != Some(p)
      ensures SameNode(g0, Dropped(g, p, i), y)
    {
      assert SameNode(g0, g, y);
    }
  }

  lemma NotBelow<C, L>(g: Graph<C, L>, p: C, D: set<C>, y: C)
    requires p in g && Below(g, g[p].rank) && Closed(g, p, D) && y in g && g[y].rank + 1 == g[p].rank
      && g[y].parent != Some(p)
    ensures y !in D
  {
  }

  lemma ElsewhereCollapsed<C, L>(g0: Graph<C, L>, g: Graph<C, L>, p: C, n: C)
    requires Elsewhere(g0, g, p) && LooseKids(g, p) && Below(g, g[p].rank) && g[p].rank > 0 && n !in g && n !in g0
    ensures Elsewhere(g0, Collapsed(g, p, n), p)
  {
    hide Below, Flat, Sub, Closed;
    SubIsClosed(g, p);
    var D := Sub(g, p);
    forall y | y in g0 && y != p && g0[y].rank >= g0[p].rank ensures SameNode(g0, Collapsed(g, p, n), y) {
      assert SameNode(g0, g, y);
    }
    forall y | y in g0 && g0[y].rank + 1 == g0[p].rank && g0[y].parent != Some(p)
      ensures SameNode(g0, Collapsed(g, p, n), y)
    {
      assert SameNode(g0, g, y);
      NotBelow(g, p, D, y);
    }
  }

  // ----- the lines while children are cut one after the other

  /** With n lines still to remove at `at` behind the first i children, the result will
      be `target`. */
  ghost predicate Cutting<C, L>(g: Graph<C, L>, ks: seq<C>, i: nat, at: nat, n: nat, target: seq<L>) {
    && AllIn(g, ks) && i <= |ks| && AllIn(g, ks[..i]) && AllIn(g, ks[i..])
    && at + n <= |Flat(g, ks[i..])|
    && Flat(g, ks[..i]) + Delete(Flat(g, ks[i..]), at, n) == target
  }

  lemma CutStart<C, L>(g: Graph<C, L>, ks: seq<C>, at: nat, n: nat)
    requires AllIn(g, ks) && at + n <= |Flat(g, ks)|
    ensures Cutting(g, ks, 0, at, n, Delete(Flat(g, ks), at, n))
  {
  }

  lemma CutHere<C, L>(g: Graph<C, L>, ks: seq<C>, i: nat, at: nat, n: nat, target: seq<L>)
    requires Cutting(g, ks, i, at, n, target) && i < |ks|
    ensures AllIn(g, ks[i + 1..]) && AllIn(g, ks[..i + 1])
    ensures Flat(g, ks[i..]) == g[ks[i]].lines + Flat(g, ks[i + 1..])
    ensures Flat(g, ks[..i + 1]) == Flat(g, ks[..i]) + g[ks[i]].lines
  {
    assert ks[i..][0] == ks[i] && ks[i..][1..] == ks[i + 1..];
    assert ks[..i + 1] == ks[..i] + [ks[i]];
    FlatOne(g, ks[i]);
    FlatCat(g, ks[..i], [ks[i]]);
  }

  lemma CutSkip<C, L>(g: Graph<C, L>, ks: seq<C>, i: nat, at: nat, n: nat, target: seq<L>)
    requires Cutting(g, ks, i, at, n, target) && i < |ks| && |g[ks[i]].lines| <= at
    ensures Cutting(g, ks, i + 1, at - |g[ks[i]].lines|, n, target)
  {
    CutHere(g, ks, i, at, n, target);
    var a, b := g[ks[i]].lines, Flat(g, ks[i + 1..]);
    assert Delete(a + b, at, n) == a + Delete(b, at - |a|, n);
  }

  lemma CutChild<C, L>(g: Graph<C, L>, h: Graph<C, L>, ks: seq<C>, i: nat, at: nat, n: nat, rm: nat, target: seq<L>)
    requires Cutting(g, ks, i, at, n, target) && i < |ks| && at < |g[ks[i]].lines|
    requires rm == if n < |g[ks[i]].lines| - at then n else |g[ks[i]].lines| - at
    requires AllIn(h, ks) && h[ks[i]].lines == Delete(g[ks[i]].lines, at, rm)
    requires forall j :: 0 <= j < |ks| && j != i ==> h[ks[j]].lines == g[ks[j]].lines
    ensures rm <= n && (n == rm || at + rm == |g[ks[i]].lines|) && Cutting(h, ks, i + 1, 0, n - rm, target)
  {
    hide Flat;
    CutHere(g, ks, i, at, n, target);
    FlatSame(g, h, ks[..i]);
    FlatSame(g, h, ks[i + 1..]);
    assert ks[..i + 1] == ks[..i] + [ks[i]];
    FlatOne(h, ks[i]);
    FlatCat(h, ks[..i], [ks[i]]);
    var a, b := g[ks[i]].lines, Flat(g, ks[i + 1..]);
    assert Delete(a + b, at, n) == Delete(a, at, rm) + Delete(b, 0, n - rm);
  }

  lemma CutDropped<C, L>(g: Graph<C, L>, h: Graph<C, L>, ks: seq<C>, i: nat, n: nat, target: seq<L>)
    requires i < |ks| && Cutting(g, ks, i + 1, 0, n, target) && g[ks[i]].lines == []
    requires AllIn(h, ks[..i] + ks[i + 1..])
    requires forall j :: 0 <= j < |ks| && j != i ==> ks[j] in h && h[ks[j]].lines == g[ks[j]].lines
    ensures Cutting(h, ks[..i] + ks[i + 1..], i, 0, n, target)
  {
    var rest := ks[..i] + ks[i + 1..];
    assert rest[..i] == ks[..i] && rest[i..] == ks[i + 1..];
    assert ks[..i + 1] == ks[..i] + [ks[i]];
    FlatOne(g, ks[i]);
    FlatCat(g, ks[..i], [ks[i]]);
    FlatSame(g, h, ks[..i]);
    FlatSame(g, h, ks[i + 1..]);
  }

  lemma CutDone<C, L>(g: Graph<C, L>, ks: seq<C>, i: nat, at: nat, n: nat, target: seq<L>)
    requires Cutting(g, ks, i, at, n, target) && (n == 0 || i == |ks|)
    ensures n == 0 && Flat(g, ks) == target
  {
    assert ks == ks[..i] + ks[i..];
    FlatCat(g, ks[..i], ks[i..]);
  }

  // ----- one branch while lines are removed below it

  ghost predicate CanRemove<C, L>(g: Graph<C, L>, x: C, at: nat, n: nat) {
    Ready(g, x) && at + n <= |g[x].lines| && NoDup(g[x].lines) && Bounded(g, {})
  }

  ghost predicate Removed<C, L>(g: Graph<C, L>, h: Graph<C, L>, x: C, at: nat, n: nat) {
    && Ready(h, x) && Elsewhere(g, h, x) && Bounded(h, {})
    && at + n <= |g[x].lines| && h[x].lines == Delete(g[x].lines, at, n)
  }

  /** In graph h, p has removed lines from some of its children. */
  ghost predicate Removing<C, L>(g: Graph<C, L>, h: Graph<C, L>, p: C) {
    && Elsewhere(g, h, p) && Below(h, h[p].rank) && LooseKids(h, p) && Bounded(h, {})
    && h[p].rank > 0 && NoDup(Flat(h, h[p].kids))
  }

  lemma ReadyIsBranch<C, L>(g: Graph<C, L>, p: C)
    requires Ready(g, p) && !g[p].leaf
    ensures LooseKids(g, p) && g[p].rank > 0 && g[p].lines == Flat(g, g[p].kids)
  {
  }

  lemma StartRemoving<C, L>(g: Graph<C, L>, p: C, at: nat, n: nat)
    requires CanRemove(g, p, at, n) && !g[p].leaf
    ensures Removing(g, g, p) && AllIn(g, g[p].kids) && g[p].lines == Flat(g, g[p].kids)
    ensures Cutting(g, g[p].kids, 0, at, n, Delete(g[p].lines, at, n))
  {
    ReadyIsBranch(g, p);
    hide Flat, NoDup, Local, Below, Bounded;
    ElsewhereNothing(g, p);
    hide Elsewhere;
    CutStart(g, g[p].kids, at, n);
  }

  lemma ChildCanRemove<C, L>(g: Graph<C, L>, h: Graph<C, L>, p: C, i: nat, at: nat, rm: nat)
    requires Removing(g, h, p) && i < |h[p].kids| && at + rm <= |h[h[p].kids[i]].lines|
    ensures var x := h[p].kids[i]; CanRemove(h, x, at, rm) && h[x].rank < h[p].rank && x != p && IsKid(h, p, x)
  {
    var x := h[p].kids[i];
    assert IsKid(h, p, x);
    FlatSplit(h, h[p].kids, i);
    NoDupPart(Flat(h, h[p].kids), |Flat(h, h[p].kids[..i])|, h[x].lines);
  }

  lemma NoDupDelete<T>(s: seq<T>, at: nat, n: nat)
    requires at + n <= |s| && NoDup(s)
    ensures NoDup(Delete(s, at, n))
  {
  }

  lemma DeleteInPart<T>(a: seq<T>, m: seq<T>, b: seq<T>, at: nat, n: nat)
    requires at + n <= |m|
    ensures Delete(a + m + b, |a| + at, n) == a + Delete(m, at, n) + b
  {
  }

  lemma FlatCut<C, L>(h: Graph<C, L>, k: Graph<C, L>, ks: seq<C>, i: nat, at: nat, rm: nat)
    requires AllIn(h, ks) && AllIn(k, ks) && i < |ks| && at + rm <= |h[ks[i]].lines| && NoDup(Flat(h, ks))
    requires k[ks[i]].lines == Delete(h[ks[i]].lines, at, rm)
    requires forall j :: 0 <= j < |ks| && j != i ==> k[ks[j]].lines == h[ks[j]].lines
    ensures NoDup(Flat(k, ks))
  {
    hide Flat, NoDup;
    FlatUpdate(h, k, ks, i);
    FlatSplit(h, ks, i);
    DeleteInPart(Flat(h, ks[..i]), h[ks[i]].lines, Flat(h, ks[i + 1..]), at, rm);
    NoDupDelete(Flat(h, ks), |Flat(h, ks[..i])| + at, rm);
  }

  lemma ChildRemoved<C, L>(g: Graph<C, L>, h: Graph<C, L>, k: Graph<C, L>, p: C, i: nat, at: nat, rm: nat)
    requires Removing(g, h, p) && i < |h[p].kids| && Removed(h, k, h[p].kids[i], at, rm)
    requires forall y :: y in k && y !in h ==> y !in g
    ensures Removing(g, k, p) && SameNode(h, k, p)
    ensures forall j :: 0 <= j < |h[p].kids| && j != i ==> SameNode(h, k, h[p].kids[j])
  {
    var ks := h[p].kids;
    var x := ks[i];
    assert IsKid(h, p, x);
    hide Below, Flat, NoDup, Ready, Bounded, Delete;
    BelowAfterChild(h, k, p, x);
    ElsewhereChild(g, h, k, p, x);
    assert forall j :: 0 <= j < |ks| && j != i ==> SameNode(h, k, ks[j]) by {
      OtherKids(h, ks, i);
    }
    FlatCut(h, k, ks, i, at, rm);
  }

  lemma OtherKids<C, L>(h: Graph<C, L>, ks: seq<C>, i: nat)
    requires NoDup(ks) && i < |ks|
    ensures forall j :: 0 <= j < |ks| && j != i ==> ks[j] != ks[i]
  {
  }

  lemma FlatDropped<C, L>(h: Graph<C, L>, k: Graph<C, L>, ks: seq<C>, i: nat)
    requires AllIn(h, ks) && i < |ks| && h[ks[i]].lines == []
    requires forall j :: 0 <= j < |ks| && j != i ==> SameNode(h, k, ks[j])
    ensures AllIn(k, ks[..i] + ks[i + 1..]) && Flat(k, ks[..i] + ks[i + 1..]) == Flat(h, ks)
  {
    assert forall j :: 0 <= j < i ==> SameNode(h, k, ks[j]);
    assert forall j :: i < j < |ks| ==> SameNode(h, k, ks[j]);
    FlatSplit(h, ks, i);
    FlatSame(h, k, ks[..i]);
    FlatSame(h, k, ks[i + 1..]);
    FlatCat(k, ks[..i], ks[i + 1..]);
  }

  lemma DroppedKeepsKids<C, L>(h: Graph<C, L>, p: C, i: nat)
    requires LooseKids(h, p) && Below(h, h[p].rank) && i < |h[p].kids|
    ensures p !in Sub(h, h[p].kids[i])
    ensures forall j :: 0 <= j < |h[p].kids| && j != i ==> SameNode(h, Dropped(h, p, i), h[p].kids[j])
  {
    var x := h[p].kids[i];
    assert IsKid(h, p, x) && Local(h, x);
    SubIsClosed(h, x);
    OtherKids(h, h[p].kids, i);
    assert forall j :: 0 <= j < |h[p].kids| ==> IsKid(h, p, h[p].kids[j]);
    hide Sub, Below, Flat, NoDup;
  }

  lemma LooseAreIn<C, L>(h: Graph<C, L>, p: C)
    requires LooseKids(h, p)
    ensures p in h && AllIn(h, h[p].kids)
  {
  }

  lemma ChildDropped<C, L>(g: Graph<C, L>, h: Graph<C, L>, p: C, i: nat)
    requires Removing(g, h, p) && i < |h[p].kids| && h[h[p].kids[i]].lines == []
    ensures var k := Dropped(h, p, i);
            && Removing(g, k, p) && k.Keys <= h.Keys && Flat(k, k[p].kids) == Flat(h, h[p].kids)
            && forall j :: 0 <= j < |h[p].kids| && j != i ==> SameNode(h, k, h[p].kids[j])
  {
    LooseAreIn(h, p);
    hide Below, Flat, Elsewhere, NoDup, Sub, LooseKids;
    DroppedIsBelow(h, p, i);
    ElsewhereDropped(g, h, p, i);
    DroppedKeepsKids(h, p, i);
    FlatDropped(h, Dropped(h, p, i), h[p].kids, i);
  }

  /** All lines removed: p is whole again as it stands ... */
  lemma RemovedAsIs<C, L>(g: Graph<C, L>, h: Graph<C, L>, p: C, at: nat, n: nat)
    requires CanRemove(g, p, at, n) && Removing(g, h, p) && |h[p].kids| > 0
    requires Flat(h, h[p].kids) == Delete(g[p].lines, at, n)
    ensures Removed(g, h[p := h[p].(lines := Flat(h, h[p].kids))], p, at, n)
  {
    var lines := Flat(h, h[p].kids);
    WholeAgain(h, p, lines);
    ElsewhereLines(g, h, p, lines);
    hide Below, Flat, NoDup, LooseKids, Ready, Elsewhere;
  }

  lemma ElsewhereLines<C, L>(g: Graph<C, L>, h: Graph<C, L>, p: C, lines: seq<L>)
    requires Elsewhere(g, h, p)
    ensures Elsewhere(g, h[p := h[p].(lines := lines)], p)
  {
  }

  lemma WholeAgain<C, L>(h: Graph<C, L>, p: C, lines: seq<L>)
    requires LooseKids(h, p) && Below(h, h[p].rank) && |h[p].kids| > 0 && lines == Flat(h, h[p].kids)
    ensures Ready(h[p := h[p].(lines := lines)], p)
  {
    hide Flat, NoDup;
    var k := h[p := h[p].(lines := lines)];
    assert forall i :: 0 <= i < |h[p].kids| ==> IsKid(h, p, h[p].kids[i]);
    FlatSame(h, k, h[p].kids);
    forall y | y in k && k[y].rank < k[p].rank ensures Local(k, y) && Hangs(k, y) {
      assert Local(h, y) && Hangs(h, y);
      assert forall i :: 0 <= i < |h[y].kids| ==> IsKid(h, y, h[y].kids[i]);
      LocalSame(h, k, y);
    }
  }

  /** ... or collapsed into one leaf. */
  lemma RemovedCollapsed<C, L>(g: Graph<C, L>, h: Graph<C, L>, p: C, at: nat, n: nat, l: C)
    requires CanRemove(g, p, at, n) && Removing(g, h, p) && l !in g && l !in h
    requires Flat(h, h[p].kids) == Delete(g[p].lines, at, n) && |Flat(h, h[p].kids)| <= 50
    ensures Removed(g, Collapsed(h, p, l), p, at, n)
  {
    hide Flat, NoDup, Local, LooseKids, Below, Elsewhere;
    CollapsedIsReady(h, p, l);
    ElsewhereCollapsed(g, h, p, l);
  }

  lemma LeafReady<C, L>(g: Graph<C, L>, x: C, lines: seq<L>)
    requires Ready(g, x) && g[x].leaf
    ensures Ready(g[x := g[x].(lines := lines)], x)
  {
    hide Flat, NoDup;
    var h := g[x := g[x].(lines := lines)];
    forall y | y in h && h[y].rank < h[x].rank ensures Local(h, y) && Hangs(h, y) {
      assert Local(g, y) && Hangs(g, y);
      assert forall i :: 0 <= i < |g[y].kids| ==> IsKid(g, y, g[y].kids[i]);
      LocalSame(g, h, y);
    }
  }

  lemma LeafBounded<C, L>(g: Graph<C, L>, x: C, lines: seq<L>)
    requires Bounded(g, {}) && x in g && g[x].leaf && |lines| <= |g[x].lines|
    ensures Bounded(g[x := g[x].(lines := lines)], {})
  {
  }

  lemma ElsewhereNothing<C, L>(g: Graph<C, L>, x: C)
    requires x in g
    ensures Elsewhere(g, g, x)
  {
  }

  /** A leaf without some of its lines. */
  lemma LeafRemoved<C, L>(g: Graph<C, L>, x: C, at: nat, n: nat)
    requires CanRemove(g, x, at, n) && g[x].leaf
    ensures Removed(g, g[x := g[x].(lines := Delete(g[x].lines, at, n))], x, at, n)
  {
    hide Ready, Elsewhere, Bounded, NoDup;
    ReadyNode(g, x);
    var lines := Delete(g[x].lines, at, n);
    ElsewhereNothing(g, x);
    ElsewhereLines(g, g, x, lines);
    LeafReady(g, x, lines);
    LeafBounded(g, x, lines);
  }

  lemma ReadyNode<C, L>(g: Graph<C, L>, x: C)
    requires Ready(g, x)
    ensures x in g
  {
  }
}
