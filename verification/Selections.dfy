/** Selections with several ranges: how an arbitrary list of ranges becomes a
    selection, and how all ranges are replaced at once. */
module Selections {
  import opened Text

  function MinPos(a: Pos, b: Pos): Pos {
    if Cmp(a, b) < 0 then a else b
  }

  function MaxPos(a: Pos, b: Pos): Pos {
    if Cmp(a, b) < 0 then b else a
  }

  datatype Range = Range(anchor: Pos, head: Pos) {
    function From(): Pos {
      MinPos(anchor, head)
    }

    function To(): Pos {
      MaxPos(anchor, head)
    }

    predicate Empty() {
      anchor == head
    }

    predicate Inverted() {
      Cmp(head, anchor) < 0
    }
  }

  datatype Selection = Selection(ranges: seq<Range>, prim: int)

  /** The ranges lie in the text, sorted and with gaps between them. */
  predicate SelectionIn(t: Text, sel: Selection) {
    && 0 <= sel.prim < |sel.ranges| && Apart(sel.ranges, |sel.ranges|)
    && forall i :: 0 <= i < |sel.ranges| ==> ValidSpan(t, sel.ranges[i].From(), sel.ranges[i].To())
  }

  // ----- normalizing

  predicate Inside(r: Range, s: Range) {
    Le(s.From(), r.From()) && Le(r.To(), s.To())
  }

  predicate Holds(r: Range, p: Pos) {
    Le(r.From(), p) && Le(p, r.To())
  }

  ghost predicate Covered(rs: seq<Range>, p: Pos) {
    exists i :: 0 <= i < |rs| && Holds(rs[i], p)
  }

  /** From index k on, the ranges are sorted by where they start. */
  predicate SortedByFrom(rs: seq<Range>, k: nat) {
    forall i, j :: k <= i < j < |rs| ==> Le(rs[i].From(), rs[j].From())
  }

  /** Each of the first n ranges ends before any later one of them starts, with a gap. */
  predicate Apart(rs: seq<Range>, n: nat)
    requires n <= |rs|
  {
    forall i, j :: 0 <= i < j < n ==> Cmp(rs[i].To(), rs[j].From()) < 0
  }

  ghost predicate SameCover(rs: seq<Range>, ss: seq<Range>) {
    && (forall p :: Covered(rs, p) <==> Covered(ss, p))
    && forall r :: r in rs ==> InsideSome(r, ss)
  }

  ghost predicate InsideSome(r: Range, ss: seq<Range>) {
    exists k :: 0 <= k < |ss| && Inside(r, ss[k])
  }

  ghost predicate IsEnd(rs: seq<Range>, p: Pos) {
    exists i :: 0 <= i < |rs| && (rs[i].anchor == p || rs[i].head == p)
  }

  /** All ends of these ranges are ends of those. */
  ghost predicate EndsAmong(ss: seq<Range>, rs: seq<Range>) {
    forall k :: 0 <= k < |ss| ==> IsEnd(rs, ss[k].anchor) && IsEnd(rs, ss[k].head)
  }

  /** A range that is not empty starts where a given one inside it does that is not empty
      either, and has the direction of that one: it is the first of those inside. */
  ghost predicate Leads(r: Range, s: Range) {
    && !r.Empty() && Inside(r, s) && r.From() == s.From() && (r.Inverted() <==> s.Inverted())
  }

  ghost predicate Led(rs: seq<Range>, s: Range) {
    s.Empty() || exists i :: 0 <= i < |rs| && Leads(rs[i], s)
  }

  ghost predicate Directed(rs: seq<Range>, ss: seq<Range>) {
    forall k :: 0 <= k < |ss| ==> Led(rs, ss[k])
  }

  /** No two of the ranges touch. */
  predicate Separate(rs: seq<Range>) {
    forall i, j :: 0 <= i < j < |rs| ==>
      Cmp(rs[i].To(), rs[j].From()) < 0 || Cmp(rs[j].To(), rs[i].From()) < 0
  }

  /** What becomes of an arbitrary list of ranges: sorted ranges with a gap between
      neighbours that cover exactly the positions the given ones cover, hold every given
      range (in exactly one of them, by InsideIsUnique), end where given ranges end and
      point where the first given range inside them does; the primary one holds the given
      primary range.  Ranges that do not touch are only sorted. */
  ghost predicate Normalized(ranges: seq<Range>, primIndex: int, sel: Selection)
    requires 0 <= primIndex < |ranges|
  {
    && 0 <= sel.prim < |sel.ranges| && Apart(sel.ranges, |sel.ranges|)
    && SameCover(ranges, sel.ranges) && EndsAmong(sel.ranges, ranges) && Directed(ranges, sel.ranges)
    && Inside(ranges[primIndex], sel.ranges[sel.prim])
    && (Separate(ranges) ==>
          multiset(sel.ranges) == multiset(ranges) && sel.ranges[sel.prim] == ranges[primIndex])
  }

  lemma LedByItself(rs: seq<Range>, s: Range)
    requires s in rs
    ensures Led(rs, s)
  {
    var i :| 0 <= i < |rs| && rs[i] == s;
    assert !s.Empty() ==> Leads(rs[i], s);
  }

  lemma PermutationIsDirected(rs: seq<Range>, ss: seq<Range>)
    requires multiset(rs) == multiset(ss)
    ensures Directed(rs, ss)
  {
    hide Led;
    forall k | 0 <= k < |ss| ensures Led(rs, ss[k]) {
      assert ss[k] in multiset(ss);
      LedByItself(rs, ss[k]);
    }
  }

  lemma JoinedFirst(prev: Range, cur: Range)
    requires Le(prev.From(), cur.From()) && Cmp(prev.To(), cur.From()) >= 0
    ensures var first, joined := if prev.Empty() then cur else prev, Joined(prev, cur);
      && Inside(first, joined)
      && (!joined.Empty() ==>
            !first.Empty() && first.From() == joined.From() && (first.Inverted() <==> joined.Inverted()))
  {
  }

  lemma JoinedIsLed(all: seq<Range>, prev: Range, cur: Range)
    requires Led(all, prev) && Led(all, cur)
    requires Le(prev.From(), cur.From()) && Cmp(prev.To(), cur.From()) >= 0
    ensures Led(all, Joined(prev, cur))
  {
    JoinedFirst(prev, cur);
    hide Range.From, Range.To, Range.Empty, Range.Inverted, Inside, Joined;
    var first, joined := if prev.Empty() then cur else prev, Joined(prev, cur);
    if !joined.Empty() {
      var i :| 0 <= i < |all| && Leads(all[i], first);
      InsideTransitive(all[i], first, joined);
      assert Leads(all[i], joined);
    }
  }

  lemma JoinAtIsDirected(all: seq<Range>, rs: seq<Range>, i: nat)
    requires 0 < i < |rs| && Directed(all, rs)
    requires Le(rs[i - 1].From(), rs[i].From()) && Cmp(rs[i - 1].To(), rs[i].From()) >= 0
    ensures Directed(all, JoinAt(rs, i))
  {
    hide Led, Joined;
    JoinedIsLed(all, rs[i - 1], rs[i]);
    var ss := JoinAt(rs, i);
    forall k | 0 <= k < |ss| ensures Led(all, ss[k]) {
      assert k < i - 1 ==> ss[k] == rs[k];
      assert k >= i ==> ss[k] == rs[k + 1];
    }
  }

  lemma {:induction false} TwoPlaces(rs: seq<Range>, r: Range)
    requires multiset(rs)[r] > 1
    ensures exists i, j :: 0 <= i < j < |rs| && rs[i] == r && rs[j] == r
  {
    var n := |rs| - 1;
    assert rs == rs[..n] + [rs[n]];
    if rs[n] == r {
      assert r in multiset(rs[..n]);
      var i :| 0 <= i < n && rs[i] == r;
      assert rs[n] == r;
    } else {
      TwoPlaces(rs[..n], r);
      var i, j :| 0 <= i < j < n && rs[..n][i] == r && rs[..n][j] == r;
      assert rs[i] == r && rs[j] == r;
    }
  }

  /** Neighbours that touch come from two given ranges that touch. */
  lemma TouchingGiven(ranges: seq<Range>, rs: seq<Range>, i: nat)
    requires multiset(rs) == multiset(ranges) && 0 < i < |rs|
    requires Le(rs[i - 1].From(), rs[i].From()) && Cmp(rs[i - 1].To(), rs[i].From()) >= 0
    ensures !Separate(ranges)
  {
    var prev, cur := rs[i - 1], rs[i];
    assert prev in multiset(rs) && cur in multiset(rs);
    if prev == cur {
      assert rs == rs[..i - 1] + [prev, cur] + rs[i + 1..];
      assert multiset(rs)[prev] > 1;
      TwoPlaces(ranges, prev);
    } else {
      var k :| 0 <= k < |ranges| && ranges[k] == prev;
      var m :| 0 <= m < |ranges| && ranges[m] == cur;
      assert Cmp(cur.To(), prev.From()) >= 0;
    }
  }

  lemma OneIsLast(rs: seq<Range>, i: nat, j: nat)
    requires Apart(rs, |rs|) && i < j < |rs|
    ensures Cmp(rs[i].From(), rs[j].From()) < 0
  {
  }

  lemma SameLast(rs: seq<Range>, ss: seq<Range>)
    requires Apart(rs, |rs|) && Apart(ss, |ss|) && multiset(rs) == multiset(ss) && |rs| == |ss| > 0
    ensures rs[|rs| - 1] == ss[|ss| - 1]
  {
    hide Apart;
    var n := |rs| - 1;
    assert rs[n] in multiset(ss) && ss[n] in multiset(rs);
    var i :| 0 <= i <= n && ss[i] == rs[n];
    var j :| 0 <= j <= n && rs[j] == ss[n];
    if i < n && j < n {
      OneIsLast(ss, i, n);
      OneIsLast(rs, j, n);
      assert false;
    }
  }

  lemma SameLength(rs: seq<Range>, ss: seq<Range>)
    requires multiset(rs) == multiset(ss)
    ensures |rs| == |ss|
  {
    assert |rs| == |multiset(rs)| && |ss| == |multiset(ss)|;
  }

  lemma WithoutLast(rs: seq<Range>)
    requires |rs| > 0
    ensures multiset(rs[..|rs| - 1]) == multiset(rs) - multiset{rs[|rs| - 1]}
  {
    assert rs == rs[..|rs| - 1] + [rs[|rs| - 1]];
  }

  lemma ApartPrefix(rs: seq<Range>, n: nat)
    requires n <= |rs| && Apart(rs, |rs|)
    ensures Apart(rs[..n], n)
  {
  }

  lemma {:induction false} ApartIsUnique(rs: seq<Range>, ss: seq<Range>)
    requires Apart(rs, |rs|) && Apart(ss, |ss|) && multiset(rs) == multiset(ss)
    ensures rs == ss
    decreases |rs|
  {
    hide Apart;
    SameLength(rs, ss);
    if |rs| > 0 {
      var n := |rs| - 1;
      SameLast(rs, ss);
      WithoutLast(rs);
      WithoutLast(ss);
      ApartPrefix(rs, n);
      ApartPrefix(ss, n);
      ApartIsUnique(rs[..n], ss[..n]);
      assert rs == rs[..n] + [rs[n]];
      assert ss == ss[..n] + [ss[n]];
    }
  }

  /** Ranges that are sorted and apart are left as they are. */
  lemma ApartStays(ranges: seq<Range>, primIndex: int, sel: Selection)
    requires 0 <= primIndex < |ranges| && Apart(ranges, |ranges|) && Normalized(ranges, primIndex, sel)
    ensures sel == Selection(ranges, primIndex)
  {
    hide SameCover, EndsAmong, Directed, Inside;
    ApartIsUnique(sel.ranges, ranges);
  }

  lemma PermutationKeepsEnds(rs: seq<Range>, ss: seq<Range>)
    requires multiset(rs) == multiset(ss)
    ensures EndsAmong(ss, rs)
  {
    forall k | 0 <= k < |ss| ensures IsEnd(rs, ss[k].anchor) && IsEnd(rs, ss[k].head) {
      assert ss[k] in multiset(ss);
      var i :| 0 <= i < |rs| && rs[i] == ss[k];
    }
  }

  lemma JoinAtKeepsEnds(all: seq<Range>, rs: seq<Range>, i: nat)
    requires 0 < i < |rs| && EndsAmong(rs, all)
    ensures EndsAmong(JoinAt(rs, i), all)
  {
    hide IsEnd;
    var ss := JoinAt(rs, i);
    forall k | 0 <= k < |ss| ensures IsEnd(all, ss[k].anchor) && IsEnd(all, ss[k].head) {
      assert k < i - 1 ==> ss[k] == rs[k];
      assert k >= i ==> ss[k] == rs[k + 1];
    }
  }

  method SortByFrom(ranges: seq<Range>) returns (sorted: seq<Range>)
    ensures SortedByFrom(sorted, 0) && multiset(sorted) == multiset(ranges)
  {
    sorted := [];
    for n := 0 to |ranges|
      invariant SortedByFrom(sorted, 0)
      invariant multiset(sorted) == multiset(ranges[..n])
    {
      assert ranges[..n + 1] == ranges[..n] + [ranges[n]];
      sorted := InsertByFrom(sorted, ranges[n]);
    }
    assert ranges == ranges[..|ranges|];
  }

  method InsertByFrom(sorted: seq<Range>, r: Range) returns (out: seq<Range>)
    requires SortedByFrom(sorted, 0)
    ensures SortedByFrom(out, 0) && multiset(out) == multiset(sorted) + multiset{r}
  {
    var k := |sorted|;
    while k > 0 && Cmp(sorted[k - 1].From(), r.From()) > 0
      invariant 0 <= k <= |sorted|
      invariant k < |sorted| ==> Le(r.From(), sorted[k].From())
    {
      k := k - 1;
    }
    InsertKeepsOrder(sorted, r, k);
    assert sorted == sorted[..k] + sorted[k..];
    out := sorted[..k] + [r] + sorted[k..];
  }

  lemma InsertKeepsOrder(sorted: seq<Range>, r: Range, k: nat)
    requires SortedByFrom(sorted, 0) && k <= |sorted|
    requires k < |sorted| ==> Le(r.From(), sorted[k].From())
    requires k > 0 ==> Le(sorted[k - 1].From(), r.From())
    ensures SortedByFrom(sorted[..k] + [r] + sorted[k..], 0)
  {
  }

  method IndexOf(rs: seq<Range>, r: Range) returns (k: nat)
    requires r in rs
    ensures k < |rs| && rs[k] == r
  {
    k := 0;
    while rs[k] != r
      invariant k < |rs| && r !in rs[..k]
      decreases |rs| - k
    {
      k := k + 1;
      assert rs == rs[..k] + rs[k..];
    }
  }

  /** Two neighbours that touch, joined into one range. */
  function Joined(prev: Range, cur: Range): Range {
    var from, to := MinPos(prev.From(), cur.From()), MaxPos(prev.To(), cur.To());
    var inv := if prev.Empty() then cur.From() == cur.head else prev.From() == prev.head;
    if inv then Range(to, from) else Range(from, to)
  }

  function JoinAt(rs: seq<Range>, i: nat): seq<Range>
    requires 0 < i < |rs|
  {
    rs[..i - 1] + [Joined(rs[i - 1], rs[i])] + rs[i + 1..]
  }

  lemma JoinedCovers(prev: Range, cur: Range)
    requires Le(prev.From(), cur.From()) && Cmp(prev.To(), cur.From()) >= 0
    ensures Joined(prev, cur).From() == prev.From()
    ensures Inside(prev, Joined(prev, cur)) && Inside(cur, Joined(prev, cur))
    ensures forall p :: Holds(Joined(prev, cur), p) <==> Holds(prev, p) || Holds(cur, p)
  {
  }

  /** Joining touching neighbours loses and adds no position, and every range stays
      inside some range. */
  lemma JoinAtKeepsCover(rs: seq<Range>, i: nat)
    requires 0 < i < |rs|
    requires Le(rs[i - 1].From(), rs[i].From()) && Cmp(rs[i - 1].To(), rs[i].From()) >= 0
    ensures SameCover(rs, JoinAt(rs, i))
  {
    hide Holds, Inside, Joined;
    var ss := JoinAt(rs, i);
    JoinedCovers(rs[i - 1], rs[i]);
    InsideItself();
    forall k | 0 <= k < |rs|
      ensures var k' := if k < i then k else k - 1; Inside(rs[k], ss[k'])
    {
    }
    forall r | r in rs ensures InsideSome(r, ss) {
      var k :| 0 <= k < |rs| && rs[k] == r;
      assert Inside(r, ss[if k < i then k else k - 1]);
    }
    forall p ensures Covered(rs, p) <==> Covered(ss, p) {
      if Covered(rs, p) {
        var k :| 0 <= k < |rs| && Holds(rs[k], p);
        assert Holds(ss[if k < i then k else k - 1], p);
      }
      if Covered(ss, p) {
        var k :| 0 <= k < |ss| && Holds(ss[k], p);
        assert Holds(rs[if k < i - 1 then k else if k == i - 1 && Holds(rs[i - 1], p) then k else k + 1], p);
      }
    }
  }

  lemma InsideItself()
    ensures forall r :: Inside(r, r)
  {
  }

  lemma SameCoverTransitive(a: seq<Range>, b: seq<Range>, c: seq<Range>)
    requires SameCover(a, b) && SameCover(b, c)
    ensures SameCover(a, c)
  {
    forall r | r in a ensures InsideSome(r, c) {
      var k :| 0 <= k < |b| && Inside(r, b[k]);
      assert b[k] in b;
      var m :| 0 <= m < |c| && Inside(b[k], c[m]);
      InsideTransitive(r, b[k], c[m]);
    }
  }

  lemma InsideTransitive(r: Range, s: Range, t: Range)
    requires Inside(r, s) && Inside(s, t)
    ensures Inside(r, t)
  {
  }

  /** In a normalized selection no range can lie inside two ranges. */
  lemma InsideIsUnique(rs: seq<Range>, r: Range, i: nat, j: nat)
    requires Apart(rs, |rs|) && i < |rs| && j < |rs| && i != j
    requires Inside(r, rs[i])
    ensures !Inside(r, rs[j])
  {
  }

  lemma PermutationKeepsCover(rs: seq<Range>, ss: seq<Range>)
    requires multiset(rs) == multiset(ss)
    ensures SameCover(rs, ss)
  {
    forall r | r in rs ensures r in ss && InsideSome(r, ss) {
      assert r in multiset(rs);
      var k :| 0 <= k < |ss| && ss[k] == r;
      assert Inside(r, ss[k]);
    }
    forall r | r in ss ensures r in rs {
      assert r in multiset(ss);
    }
    forall p ensures Covered(rs, p) <==> Covered(ss, p) {
      if Covered(rs, p) {
        var k :| 0 <= k < |rs| && Holds(rs[k], p);
        assert rs[k] in rs && rs[k] in ss;
        var m :| 0 <= m < |ss| && ss[m] == rs[k];
      }
      if Covered(ss, p) {
        var k :| 0 <= k < |ss| && Holds(ss[k], p);
        assert ss[k] in ss && ss[k] in rs;
        var m :| 0 <= m < |rs| && rs[m] == ss[k];
      }
    }
  }

  method NormalizeSelection(ranges: seq<Range>, primIndex: nat) returns (sel: Selection)
    requires primIndex < |ranges|
    ensures Normalized(ranges, primIndex, sel)
  {
    hide SameCover, Inside, Joined, EndsAmong, Directed, Separate;
    InsideItself();
    var prim := ranges[primIndex];
    var rs := SortByFrom(ranges);
    PermutationKeepsCover(ranges, rs);
    PermutationKeepsEnds(ranges, rs);
    PermutationIsDirected(ranges, rs);
    assert prim in multiset(ranges);
    var p: int := IndexOf(rs, prim);
    var i := 1;
    while i < |rs|
      invariant 1 <= i <= |rs|
      invariant Apart(rs, i) && SortedByFrom(rs, i - 1)
      invariant SameCover(ranges, rs) && EndsAmong(rs, ranges) && Directed(ranges, rs)
      invariant 0 <= p < |rs| && Inside(prim, rs[p])
      invariant Separate(ranges) ==> multiset(rs) == multiset(ranges) && rs[p] == prim
      decreases |rs| - i, |rs|
    {
      var cur, prev := rs[i], rs[i - 1];
      if Cmp(prev.To(), cur.From()) >= 0 {
        if Separate(ranges) {
          TouchingGiven(ranges, rs, i);
        }
        JoinAtKeepsCover(rs, i);
        JoinAtIsDirected(ranges, rs, i);
        JoinAtKeepsEnds(ranges, rs, i);
        SameCoverTransitive(ranges, rs, JoinAt(rs, i));
        JoinedCovers(prev, cur);
        JoinAtKeepsOrder(rs, i);
        if p == i || p == i - 1 {
          InsideTransitive(prim, rs[p], Joined(prev, cur));
        }
        if i <= p {
          p := p - 1;
        }
        i := i - 1;
        rs := rs[..i] + [Joined(prev, cur)] + rs[i + 2..];
      } else {
        GapExtends(rs, i);
      }
      i := i + 1;
    }
    sel := Selection(rs, p);
  }

  lemma JoinAtKeepsOrder(rs: seq<Range>, i: nat)
    requires 0 < i < |rs| && Apart(rs, i) && SortedByFrom(rs, i - 1)
    requires Joined(rs[i - 1], rs[i]).From() == rs[i - 1].From()
    ensures Apart(JoinAt(rs, i), i) && SortedByFrom(JoinAt(rs, i), i - 1)
  {
  }

  lemma GapExtends(rs: seq<Range>, i: nat)
    requires 0 < i < |rs| && Apart(rs, i) && SortedByFrom(rs, i - 1)
    requires Cmp(rs[i - 1].To(), rs[i].From()) < 0
    ensures Apart(rs, i + 1) && SortedByFrom(rs, i)
  {
  }
}
