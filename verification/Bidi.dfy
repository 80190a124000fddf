/** The sections of a line with text in both directions, in the order they are seen. */
module Bidi {

  datatype BidiSpan = BidiSpan(level: nat, from: nat, to: nat)

  predicate CountsAsLeft(c: char) {
    c == 'L' || c == 'b' || c == '1' || c == 'n'
  }

  predicate CountsAsNum(c: char) {
    c == '1' || c == 'n'
  }

  datatype Kind = CountingAsLeft | NotLeft | CountingAsNum | NotNum

  predicate Is(c: char, kind: Kind) {
    match kind
    case CountingAsLeft => CountsAsLeft(c)
    case NotLeft => c != 'L'
    case CountingAsNum => CountsAsNum(c)
    case NotNum => !CountsAsNum(c)
  }

  /** The end of the stretch from i on of characters of a kind. */
  ghost function StretchEnd(types: string, i: nat, end: nat, kind: Kind): (e: nat)
    requires i <= end <= |types|
    ensures i <= e <= end && (forall k :: i <= k < e ==> Is(types[k], kind)) && (e < end ==> !Is(types[e], kind))
    decreases end - i
  {
    if i < end && Is(types[i], kind) then StretchEnd(types, i + 1, end, kind) else i
  }

  ghost function LeftEnd(types: string, i: nat): (e: nat)
    requires i < |types| && CountsAsLeft(types[i])
    ensures i < e <= |types|
  {
    StretchEnd(types, i, |types|, CountingAsLeft)
  }

  ghost function RightEnd(types: string, i: nat): (e: nat)
    requires i < |types| && !CountsAsLeft(types[i])
    ensures i < e <= |types|
  {
    StretchEnd(types, i, |types|, NotLeft)
  }

  function PieceKind(c: char): Kind {
    if CountsAsNum(c) then CountingAsNum else NotNum
  }

  ghost function PieceEnd(types: string, i: nat, end: nat): (e: nat)
    requires i < end <= |types|
    ensures i < e <= end
  {
    StretchEnd(types, i, end, PieceKind(types[i]))
  }

  /** A right-to-left run: its pieces, numbers and others, the last one first. */
  ghost function RightRun(types: string, i: nat, end: nat): seq<BidiSpan>
    requires i <= end <= |types|
    decreases end - i
  {
    if i == end then []
    else
      var e := PieceEnd(types, i, end);
      RightRun(types, e, end) + [BidiSpan(if CountsAsNum(types[i]) then 2 else 1, i, e)]
  }

  /** The sections of the line from i on, in visual order. */
  ghost function Sections(types: string, i: nat): seq<BidiSpan>
    requires i <= |types|
    decreases |types| - i
  {
    if i == |types| then []
    else if CountsAsLeft(types[i]) then
      [BidiSpan(0, i, LeftEnd(types, i))] + Sections(types, LeftEnd(types, i))
    else RightRun(types, i, RightEnd(types, i)) + Sections(types, RightEnd(types, i))
  }

  function InsertSpan(order: seq<BidiSpan>, at: nat, span: BidiSpan): seq<BidiSpan>
    requires at <= |order|
  {
    order[..at] + [span] + order[at..]
  }

  /** Build the sections on the fly, inserting those of a right-to-left run in reverse. */
  method BuildOrder(types: string) returns (order: seq<BidiSpan>)
    ensures order == Sections(types, 0)
  {
    hide Sections, RightRun;
    order := [];
    var i: nat := 0;
    while i < |types|
      invariant i <= |types| && order + Sections(types, i) == Sections(types, 0)
    {
      if CountsAsLeft(types[i]) {
        var start := i;
        i := i + 1;
        while i < |types| && CountsAsLeft(types[i])
          invariant start < i <= |types| && forall k :: start <= k < i ==> CountsAsLeft(types[k])
        {
          i := i + 1;
        }
        LeftSection(types, start, i, order);
        order := order + [BidiSpan(0, start, i)];
      } else {
        var pos := i;
        i := i + 1;
        while i < |types| && types[i] != 'L'
          invariant pos < i <= |types| && forall k :: pos <= k < i ==> types[k] != 'L'
        {
          i := i + 1;
        }
        RightSections(types, pos, i, order);
        order := AddRightRun(types, pos, i, order);
      }
    }
    NoSections(types, order);
  }

  lemma NoSections(types: string, order: seq<BidiSpan>)
    ensures order + Sections(types, |types|) == order
  {
  }

  lemma LeftSection(types: string, start: nat, i: nat, order: seq<BidiSpan>)
    requires start < i <= |types| && (forall k :: start <= k < i ==> CountsAsLeft(types[k]))
    requires i < |types| ==> !CountsAsLeft(types[i])
    ensures order + Sections(types, start) == (order + [BidiSpan(0, start, i)]) + Sections(types, i)
  {
  }

  lemma RightSections(types: string, pos: nat, i: nat, order: seq<BidiSpan>)
    requires pos < i <= |types| && !CountsAsLeft(types[pos]) && (forall k :: pos <= k < i ==> types[k] != 'L')
    requires i < |types| ==> types[i] == 'L'
    ensures order + Sections(types, pos) == (order + RightRun(types, pos, i)) + Sections(types, i)
  {
    StretchIs(types, pos, i, |types|, NotLeft);
  }

  method AddRightRun(types: string, from: nat, end: nat, before: seq<BidiSpan>) returns (order: seq<BidiSpan>)
    requires from < end <= |types|
    ensures order == before + RightRun(types, from, end)
  {
    hide RightRun;
    order := before;
    var at, pos, j := |order|, from, from;
    ghost var tail := [];
    while j < end
      invariant from <= pos <= j <= end && order == before + tail
      invariant RightRun(types, pos, end) + tail == RightRun(types, from, end)
      invariant forall k :: pos <= k < j ==> !CountsAsNum(types[k])
    {
      if CountsAsNum(types[j]) {
        if pos < j {
          PieceInserted(types, pos, j, end, before, tail);
          order := InsertSpan(order, at, BidiSpan(1, pos, j));
          tail := [BidiSpan(1, pos, j)] + tail;
        }
        var nstart := j;
        j := j + 1;
        while j < end && CountsAsNum(types[j])
          invariant nstart < j <= end && forall k :: nstart <= k < j ==> CountsAsNum(types[k])
        {
          j := j + 1;
        }
        PieceInserted(types, nstart, j, end, before, tail);
        order := InsertSpan(order, at, BidiSpan(2, nstart, j));
        tail := [BidiSpan(2, nstart, j)] + tail;
        pos := j;
      } else {
        j := j + 1;
      }
    }
    if pos < end {
      PieceInserted(types, pos, end, end, before, tail);
      order := InsertSpan(order, at, BidiSpan(1, pos, end));
      tail := [BidiSpan(1, pos, end)] + tail;
    }
    NoPieces(types, end, tail);
  }

  lemma NoPieces(types: string, end: nat, tail: seq<BidiSpan>)
    requires end <= |types|
    ensures RightRun(types, end, end) + tail == tail
  {
  }

  /** Inserting the next piece of a run in front of the pieces already there. */
  lemma PieceInserted(types: string, pos: nat, j: nat, end: nat, before: seq<BidiSpan>, tail: seq<BidiSpan>)
    requires pos < j <= end <= |types|
    requires forall k :: pos <= k < j ==> CountsAsNum(types[k]) == CountsAsNum(types[pos])
    requires j < end ==> CountsAsNum(types[j]) != CountsAsNum(types[pos])
    ensures var piece := BidiSpan(if CountsAsNum(types[pos]) then 2 else 1, pos, j);
      && RightRun(types, pos, end) + tail == RightRun(types, j, end) + ([piece] + tail)
      && InsertSpan(before + tail, |before|, piece) == before + ([piece] + tail)
  {
  }

  lemma {:induction false} StretchIs(types: string, i: nat, e: nat, end: nat, kind: Kind)
    requires i <= e <= end <= |types| && (forall k :: i <= k < e ==> Is(types[k], kind))
      && (e < end ==> !Is(types[e], kind))
    ensures StretchEnd(types, i, end, kind) == e
    decreases e - i
  {
  }

  // ----- the sections partition the line

  /** How many sections hold a character. */
  ghost function Times(order: seq<BidiSpan>, k: nat): nat {
    if |order| == 0 then 0
    else (if order[0].from <= k < order[0].to then 1 else 0) + Times(order[1..], k)
  }

  lemma {:induction false} TimesCat(a: seq<BidiSpan>, b: seq<BidiSpan>, k: nat)
    ensures Times(a + b, k) == Times(a, k) + Times(b, k)
  {
    if |a| == 0 {
      assert a + b == b;
    } else {
      assert (a + b)[1..] == a[1..] + b;
      TimesCat(a[1..], b, k);
    }
  }

  lemma {:induction false} RunHoldsOnce(types: string, i: nat, end: nat, k: nat)
    requires i <= end <= |types|
    ensures Times(RightRun(types, i, end), k) == (if i <= k < end then 1 else 0)
    decreases end - i
  {
    if i < end {
      var e := PieceEnd(types, i, end);
      RunHoldsOnce(types, e, end, k);
      TimesCat(RightRun(types, e, end), [BidiSpan(if CountsAsNum(types[i]) then 2 else 1, i, e)], k);
    }
  }

  /** Every character is in exactly one section. */
  lemma {:induction false} SectionsPartition(types: string, i: nat, k: nat)
    requires i <= |types|
    ensures Times(Sections(types, i), k) == (if i <= k < |types| then 1 else 0)
    decreases |types| - i
  {
    if i < |types| {
      if CountsAsLeft(types[i]) {
        var e := LeftEnd(types, i);
        SectionsPartition(types, e, k);
        TimesCat([BidiSpan(0, i, e)], Sections(types, e), k);
      } else {
        var e := RightEnd(types, i);
        SectionsPartition(types, e, k);
        RunHoldsOnce(types, i, e, k);
        TimesCat(RightRun(types, i, e), Sections(types, e), k);
      }
    }
  }

  // ----- what a section holds, and the order of the sections

  /** A section is not empty, and its characters are those its level is for. */
  ghost predicate Fits(types: string, s: BidiSpan) {
    && s.from < s.to <= |types| && s.level <= 2
    && forall k :: s.from <= k < s.to ==>
      if s.level == 0 then types[k] in "Lb1n"
      else types[k] != 'L' && (s.level == 2 <==> types[k] in "1n")
  }

  lemma KindsAre(c: char)
    ensures CountsAsLeft(c) <==> c in "Lb1n"
    ensures CountsAsNum(c) <==> c in "1n"
  {
    var left, num := "Lb1n", "1n";
    assert left[0] == 'L' && left[1] == 'b' && left[2] == '1' && left[3] == 'n' && num[0] == '1' && num[1] == 'n';
  }

  lemma AllKindsAre(types: string)
    ensures forall k :: 0 <= k < |types| ==>
      (CountsAsLeft(types[k]) <==> types[k] in "Lb1n") && (CountsAsNum(types[k]) <==> types[k] in "1n")
  {
    forall k | 0 <= k < |types|
      ensures (CountsAsLeft(types[k]) <==> types[k] in "Lb1n") && (CountsAsNum(types[k]) <==> types[k] in "1n")
    {
      KindsAre(types[k]);
    }
  }

  lemma {:induction false} RunFits(types: string, i: nat, end: nat)
    requires i <= end <= |types| && forall k :: i <= k < end ==> types[k] != 'L'
    ensures forall s :: s in RightRun(types, i, end) ==> Fits(types, s) && i <= s.from && s.to <= end
    decreases end - i
  {
    if i < end {
      AllKindsAre(types);
      RunFits(types, PieceEnd(types, i, end), end);
    }
  }

  lemma {:induction false} SectionsFit(types: string, i: nat)
    requires i <= |types|
    ensures forall s :: s in Sections(types, i) ==> Fits(types, s) && i <= s.from
    decreases |types| - i
  {
    if i < |types| {
      if CountsAsLeft(types[i]) {
        AllKindsAre(types);
        SectionsFit(types, LeftEnd(types, i));
      } else {
        RunFits(types, i, RightEnd(types, i));
        SectionsFit(types, RightEnd(types, i));
      }
    }
  }

  /** Within a right-to-left run, what comes later in the text is seen first. */
  lemma {:induction false} RunDescends(types: string, i: nat, end: nat)
    requires i <= end <= |types|
    ensures forall s :: s in RightRun(types, i, end) ==> i <= s.from
    ensures forall a, b :: 0 <= a < b < |RightRun(types, i, end)| ==>
      RightRun(types, i, end)[b].to <= RightRun(types, i, end)[a].from
    decreases end - i
  {
    if i < end {
      RunDescends(types, PieceEnd(types, i, end), end);
    }
  }

  // ----- the visual order

  /** From i on, character k belongs to a right-to-left run: one that does not count as left
      comes first, and no 'L' since. */
  ghost predicate Right(types: string, i: nat, k: nat) {
    exists m :: i <= m <= k < |types| && !CountsAsLeft(types[m]) && NoL(types, m, k + 1)
  }

  predicate NoL(types: string, from: nat, end: nat) {
    forall n :: from <= n < end && n < |types| ==> types[n] != 'L'
  }

  /** Characters j and k, not before j, are in one right-to-left run. */
  ghost predicate SameRun(types: string, i: nat, j: nat, k: nat) {
    Right(types, i, j) && NoL(types, j, k + 1)
  }

  /** Two sections, a in front of b, follow the text or, in a right-to-left run, go against it. */
  ghost predicate InVisualOrder(types: string, i: nat, a: BidiSpan, b: BidiSpan) {
    if SameRun(types, i, if a.from < b.from then a.from else b.from, if a.from < b.from then b.from else a.from)
    then b.to <= a.from else a.to <= b.from
  }

  /** Where a section ends the next character is not of its kind. */
  ghost predicate Maximal(types: string, s: BidiSpan) {
    s.to < |types| ==>
      if s.level == 0 then !CountsAsLeft(types[s.to])
      else types[s.to] == 'L' || (CountsAsNum(types[s.to]) <==> s.level == 1)
  }

  lemma {:induction false} RunIsMaximal(types: string, i: nat, end: nat)
    requires i <= end <= |types| && (end < |types| ==> types[end] == 'L')
    ensures forall s :: s in RightRun(types, i, end) ==> Maximal(types, s)
    decreases end - i
  {
    if i < end {
      RunIsMaximal(types, PieceEnd(types, i, end), end);
    }
  }

  lemma {:induction false} SectionsAreMaximal(types: string, i: nat)
    requires i <= |types|
    ensures forall s :: s in Sections(types, i) ==> Maximal(types, s)
    decreases |types| - i
  {
    if i < |types| {
      if CountsAsLeft(types[i]) {
        SectionsAreMaximal(types, LeftEnd(types, i));
      } else {
        RunIsMaximal(types, i, RightEnd(types, i));
        SectionsAreMaximal(types, RightEnd(types, i));
      }
    }
  }

  /** What begins behind a section, or a run, does not depend on it. */
  lemma RightFrom(types: string, i: nat, e: nat, k: nat)
    requires i < e <= k && (k < |types| ==>
      (forall m :: i <= m < e ==> CountsAsLeft(types[m])) || types[e] == 'L')
    ensures Right(types, i, k) <==> Right(types, e, k)
  {
  }

  lemma OrderFrom(types: string, i: nat, e: nat, a: BidiSpan, b: BidiSpan)
    requires i < e <= a.from < |types| && e <= b.from < |types|
    requires (forall m :: i <= m < e ==> CountsAsLeft(types[m])) || types[e] == 'L'
    ensures InVisualOrder(types, i, a, b) <==> InVisualOrder(types, e, a, b)
  {
    RightFrom(types, i, e, a.from);
    RightFrom(types, i, e, b.from);
  }

  /** The sections come in visual order: those of one right-to-left run from its end to its
      beginning, all others as in the text. */
  lemma {:induction false} SectionsInOrder(types: string, i: nat, p: nat, q: nat)
    requires i <= |types| && p < q < |Sections(types, i)|
    ensures InVisualOrder(types, i, Sections(types, i)[p], Sections(types, i)[q])
    decreases |types| - i
  {
    hide InVisualOrder, Sections, RightRun;
    NoSections(types, []);
    var left := CountsAsLeft(types[i]);
    var e := if left then LeftEnd(types, i) else RightEnd(types, i);
    var first, rest := if left then [BidiSpan(0, i, e)] else RightRun(types, i, e), Sections(types, e);
    SectionsSplit(types, i);
    if !left {
      FirstFits(types, i);
    }
    SectionsFit(types, e);
    var a, b := Sections(types, i)[p], Sections(types, i)[q];
    if p >= |first| {
      assert a in rest && b in rest;
      SectionsInOrder(types, e, p - |first|, q - |first|);
      OrderFrom(types, i, e, a, b);
    } else if q >= |first| {
      assert a in first && b in rest;
      ApartRuns(types, i, e, a, b);
    } else {
      RunDescends(types, i, e);
      OneRun(types, i, e, a, b);
    }
  }

  lemma SectionsSplit(types: string, i: nat)
    requires i < |types|
    ensures Sections(types, i) ==
      if CountsAsLeft(types[i]) then [BidiSpan(0, i, LeftEnd(types, i))] + Sections(types, LeftEnd(types, i))
      else RightRun(types, i, RightEnd(types, i)) + Sections(types, RightEnd(types, i))
  {
  }

  lemma FirstFits(types: string, i: nat)
    requires i < |types| && !CountsAsLeft(types[i])
    ensures forall s :: s in RightRun(types, i, RightEnd(types, i)) ==>
      i <= s.from < s.to <= RightEnd(types, i)
  {
    RunFits(types, i, RightEnd(types, i));
  }

  /** A section of the first run, or the first section, and one behind it. */
  lemma ApartRuns(types: string, i: nat, e: nat, a: BidiSpan, b: BidiSpan)
    requires i <= a.from < a.to <= e <= b.from < |types|
    requires (forall m :: i <= m < e ==> CountsAsLeft(types[m])) || types[e] == 'L'
    ensures InVisualOrder(types, i, a, b)
  {
  }

  /** Two sections of the first run. */
  lemma OneRun(types: string, i: nat, e: nat, a: BidiSpan, b: BidiSpan)
    requires i <= b.from < b.to <= a.from < a.to <= e <= |types|
    requires !CountsAsLeft(types[i]) && NoL(types, i, e)
    ensures InVisualOrder(types, i, a, b)
  {
    assert Right(types, i, b.from);
  }
}
