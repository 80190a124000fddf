/** Style segments of a line: how a mode's tokens become segments, how overlays are merged
    into them, and how the style at a place is looked up. */
module Highlight {
  import opened Wrappers

  type Style = Option<string>

  /** A stretch that ends before `end`; it begins where the segment before it ends. */
  datatype Segment = Segment(end: nat, style: Style)

  function StartOf(st: seq<Segment>, i: nat): nat
    requires i <= |st|
  {
    if i == 0 then 0 else st[i - 1].end
  }

  ghost predicate NotEmpty(st: seq<Segment>, i: nat)
    requires i < |st|
  {
    StartOf(st, i) < st[i].end
  }

  /** The segments follow each other without a gap, none is empty, and they end at len. */
  ghost predicate Covers(st: seq<Segment>, len: nat) {
    (forall i :: 0 <= i < |st| ==> NotEmpty(st, i)) && StartOf(st, |st|) == len
  }

  ghost predicate Uniform(styles: seq<Style>, from: nat, end: nat, style: Style) {
    forall ch :: from <= ch < end && ch < |styles| ==> styles[ch] == style
  }

  ghost predicate HasStyle(st: seq<Segment>, i: nat, styles: seq<Style>)
    requires i < |st|
  {
    Uniform(styles, StartOf(st, i), st[i].end, st[i].style)
  }

  /** Every character has the style of its segment. */
  ghost predicate Styled(st: seq<Segment>, styles: seq<Style>) {
    forall i :: 0 <= i < |st| ==> HasStyle(st, i, styles)
  }

  lemma {:induction false} EndsGrow(st: seq<Segment>, len: nat, i: nat, j: nat)
    requires Covers(st, len) && i <= j <= |st|
    ensures StartOf(st, i) + (j - i) <= StartOf(st, j) <= len
    decreases |st| - i, j - i
  {
    if i < j {
      assert NotEmpty(st, i);
      EndsGrow(st, len, i + 1, j);
    } else if j < |st| {
      assert NotEmpty(st, j);
      EndsGrow(st, len, j + 1, |st|);
    }
  }

  // ----- running a mode

  /** A mode reads one token from a place on. */
  type Mode = nat -> Segment

  /** Reading always gets further, and not behind the end of the line. */
  ghost predicate Advances(mode: Mode, len: nat) {
    forall p :: 0 <= p < len ==> p < mode(p).end <= len
  }

  /** The style the mode gives a character, reading from p on; what begins behind the
      longest length that is highlighted has none. */
  ghost function ModeStyle(mode: Mode, len: nat, max: nat, p: nat, ch: nat): Style
    requires Advances(mode, len) && p <= ch < len
    decreases len - p
  {
    if p > max then None
    else if ch < mode(p).end then mode(p).style
    else ModeStyle(mode, len, max, mode(p).end, ch)
  }

  /** Reading from p on, a token begins at q. */
  ghost predicate Token(mode: Mode, len: nat, p: nat, q: nat)
    requires Advances(mode, len)
    decreases len - p
  {
    p < len && (q == p || Token(mode, len, mode(p).end, q))
  }

  /** Every character is in exactly one token, and has its style, unless that begins behind
      the longest length. */
  lemma {:induction false} StyleOfToken(mode: Mode, len: nat, max: nat, p: nat, ch: nat) returns (q: nat)
    requires Advances(mode, len) && p <= ch < len
    ensures Token(mode, len, p, q) && p <= q <= ch < mode(q).end
    ensures forall r: nat :: Token(mode, len, p, r) && r <= ch < mode(r).end ==> r == q
    ensures ModeStyle(mode, len, max, p, ch) == if q > max then None else mode(q).style
    decreases len - p
  {
    if ch < mode(p).end {
      q := p;
      forall r: nat | Token(mode, len, p, r) && r <= ch ensures r == q {
        if r != p {
          TokensGrow(mode, len, mode(p).end, r);
        }
      }
    } else {
      q := StyleOfToken(mode, len, max, mode(p).end, ch);
      if p > max {
        TokensGrow(mode, len, mode(p).end, q);
      }
    }
  }

  lemma {:induction false} TokensGrow(mode: Mode, len: nat, p: nat, q: nat)
    requires Advances(mode, len) && Token(mode, len, p, q)
    ensures p <= q < len
    decreases len - p
  {
    if q != p {
      TokensGrow(mode, len, mode(p).end, q);
    }
  }

  ghost function ModeStyles(mode: Mode, len: nat, max: nat): seq<Style>
    requires Advances(mode, len)
  {
    seq(len, ch requires 0 <= ch < len => ModeStyle(mode, len, max, 0, ch))
  }

  const LONGEST_SPAN: nat := 50000

  /** Emit a segment behind those there are. */
  lemma Emitted(st: seq<Segment>, from: nat, end: nat, style: Style, styles: seq<Style>)
    requires Covers(st, from) && from < end && Styled(st, styles)
    requires Uniform(styles, from, end, style)
    ensures Covers(st + [Segment(end, style)], end) && Styled(st + [Segment(end, style)], styles)
  {
    hide Uniform;
    var now := st + [Segment(end, style)];
    forall i | 0 <= i < |now| ensures NotEmpty(now, i) && HasStyle(now, i, styles) {
      if i < |st| {
        assert NotEmpty(st, i) && HasStyle(st, i, styles);
      }
    }
  }

  /** The segment is as long as one at the end of a line may be. */
  ghost predicate Long(st: seq<Segment>, i: nat)
    requires i < |st|
  {
    st[i].end - StartOf(st, i) == LONGEST_SPAN
  }

  /** Segments end where tokens begin, at the end of the line, or where they get too long. */
  ghost predicate EndsAtTokens(st: seq<Segment>, mode: Mode, len: nat)
    requires Advances(mode, len)
  {
    forall i :: 0 <= i < |st| ==> Token(mode, len, 0, st[i].end) || Long(st, i) || st[i].end == len
  }

  /** A segment with this style behind segment i is one of its own. */
  ghost predicate Separates(st: seq<Segment>, i: nat, style: Style, max: nat)
    requires i < |st|
  {
    st[i].style != style || Long(st, i) || st[i].end > max
  }

  /** Neighbouring segments have different styles, unless they get too long or nothing is
      highlighted any more. */
  ghost predicate Flattened(st: seq<Segment>, max: nat) {
    forall i :: 0 < i < |st| ==> Separates(st, i - 1, st[i].style, max)
  }

  ghost predicate EndsAt(st: seq<Segment>, end: nat) {
    exists i :: 0 <= i < |st| && st[i].end == end
  }

  /** Every token that is highlighted and ends in front of `end`, or there, ends a segment. */
  ghost predicate EachToken(st: seq<Segment>, mode: Mode, len: nat, max: nat, end: nat)
    requires Advances(mode, len)
  {
    forall p: nat :: Token(mode, len, 0, p) && p <= max && mode(p).end < len && mode(p).end <= end ==>
      EndsAt(st, mode(p).end)
  }

  lemma {:induction false} TokensFollow(mode: Mode, len: nat, from: nat, p: nat, q: nat)
    requires Advances(mode, len) && Token(mode, len, from, p) && Token(mode, len, from, q) && p < q
    ensures mode(p).end <= q
    decreases len - from
  {
    TokensGrow(mode, len, from, p);
    if from == p {
      TokensGrow(mode, len, mode(p).end, q);
    } else {
      TokensFollow(mode, len, mode(from).end, p, q);
    }
  }

  lemma {:induction false} NextToken(mode: Mode, len: nat, from: nat, p: nat)
    requires Advances(mode, len) && Token(mode, len, from, p) && mode(p).end < len
    ensures Token(mode, len, from, mode(p).end)
    decreases len - from
  {
    if from != p {
      NextToken(mode, len, mode(from).end, p);
    }
  }

  /** The segments so far, up to curStart, with curStyle for what comes from there on. */
  ghost predicate Borders(st: seq<Segment>, mode: Mode, len: nat, max: nat, flatten: bool, curStart: nat,
    curStyle: Style)
    requires Advances(mode, len)
  {
    && EndsAtTokens(st, mode, len)
    && (if flatten then Flattened(st, max) && (|st| > 0 ==> Separates(st, |st| - 1, curStyle, max))
        else EachToken(st, mode, len, max, curStart))
  }

  /** One more segment, from curStart to start; the next one begins there. */
  lemma NextBorder(st: seq<Segment>, mode: Mode, len: nat, max: nat, flatten: bool, curStart: nat, curStyle: Style,
    start: nat, style: Style)
    requires Advances(mode, len) && Borders(st, mode, len, max, flatten, curStart, curStyle)
    requires Token(mode, len, 0, start) && curStart < start
    requires flatten ==> curStyle != style || start > max
    requires !flatten ==> Token(mode, len, 0, curStart) && start == mode(curStart).end
    ensures Borders(st + [Segment(start, curStyle)], mode, len, max, flatten, start, style)
  {
    hide Token, Advances;
    var now := st + [Segment(start, curStyle)];
    BordersStay(st, Segment(start, curStyle));
    if !flatten {
      forall p: nat | Token(mode, len, 0, p) && p <= max && mode(p).end < len && mode(p).end <= start
        ensures EndsAt(now, mode(p).end)
      {
        if p < curStart {
          TokensFollow(mode, len, 0, p, curStart);
          EndsThere(st, mode(p).end, Segment(start, curStyle));
        } else if p == curStart {
          assert now[|st|].end == start;
        } else {
          TokensFollow(mode, len, 0, curStart, p);
          TokenAdvances(mode, len, p);
        }
      }
    }
  }

  lemma TokenAdvances(mode: Mode, len: nat, p: nat)
    requires Advances(mode, len) && Token(mode, len, 0, p)
    ensures p < mode(p).end
  {
    TokensGrow(mode, len, 0, p);
  }

  lemma EndsThere(st: seq<Segment>, end: nat, seg: Segment)
    requires EndsAt(st, end)
    ensures EndsAt(st + [seg], end)
  {
    var i :| 0 <= i < |st| && st[i].end == end;
    assert (st + [seg])[i].end == end;
  }

  lemma BordersStay(st: seq<Segment>, seg: Segment)
    ensures var now := st + [seg];
      && (forall i :: 0 <= i < |st| ==> now[i] == st[i] && StartOf(now, i) == StartOf(st, i))
      && StartOf(now, |st|) == StartOf(st, |st|)
  {
  }

  lemma NoBorders(mode: Mode, len: nat, max: nat, flatten: bool, style: Style)
    requires Advances(mode, len)
    ensures Borders([], mode, len, max, flatten, 0, style)
  {
    forall p: nat | Token(mode, len, 0, p) ensures mode(p).end > 0 {
      TokenAdvances(mode, len, p);
    }
  }

  /** Nothing but the segment from curStart on is left, which is the last token or not
      highlighted any more. */
  lemma RestBorders(st: seq<Segment>, mode: Mode, len: nat, max: nat, flatten: bool, curStart: nat, curStyle: Style)
    requires Advances(mode, len) && Borders(st, mode, len, max, flatten, curStart, curStyle)
    requires len > 0 && !flatten ==> Token(mode, len, 0, curStart) && (mode(curStart).end == len || curStart > max)
    ensures Borders(st, mode, len, max, flatten, len, curStyle)
  {
    hide Token, Advances;
    if !flatten {
      forall p: nat | Token(mode, len, 0, p) && p <= max && mode(p).end < len ensures mode(p).end <= curStart {
        TokensGrow(mode, len, 0, p);
        if p < curStart {
          TokensFollow(mode, len, 0, p, curStart);
        } else if curStart < p {
          TokensFollow(mode, len, 0, curStart, p);
        }
      }
    }
  }

  /** A piece of the rest of the line. */
  lemma LastBorder(st: seq<Segment>, mode: Mode, len: nat, max: nat, flatten: bool, curStart: nat, curStyle: Style,
    end: nat)
    requires Advances(mode, len) && Borders(st, mode, len, max, flatten, len, curStyle)
    requires curStart == StartOf(st, |st|) && (end == len || end == curStart + LONGEST_SPAN)
    ensures var now := st + [Segment(end, curStyle)];
      && EndsAtTokens(now, mode, len)
      && (if flatten then Flattened(now, max) else EachToken(now, mode, len, max, len))
      && (end == curStart + LONGEST_SPAN ==> Borders(now, mode, len, max, flatten, len, curStyle))
  {
    hide Token, Advances, EachToken, Flattened, EndsAtTokens;
    var seg := Segment(end, curStyle);
    BordersStay(st, seg);
    LastEnds(st, mode, len, seg);
    if flatten {
      LastSeparates(st, max, seg);
    } else {
      LastKeepsEach(st, mode, len, max, seg);
    }
  }

  lemma LastEnds(st: seq<Segment>, mode: Mode, len: nat, seg: Segment)
    requires Advances(mode, len) && EndsAtTokens(st, mode, len)
    requires seg.end == len || seg.end == StartOf(st, |st|) + LONGEST_SPAN
    ensures EndsAtTokens(st + [seg], mode, len)
  {
    hide Token, Advances;
    BordersStay(st, seg);
  }

  lemma LastSeparates(st: seq<Segment>, max: nat, seg: Segment)
    requires Flattened(st, max) && (|st| > 0 ==> Separates(st, |st| - 1, seg.style, max))
    ensures Flattened(st + [seg], max)
  {
    BordersStay(st, seg);
    var now := st + [seg];
    forall i | 0 < i < |now| ensures Separates(now, i - 1, now[i].style, max) {
      assert i < |st| ==> Separates(st, i - 1, st[i].style, max);
    }
  }

  lemma LastKeepsEach(st: seq<Segment>, mode: Mode, len: nat, max: nat, seg: Segment)
    requires Advances(mode, len) && EachToken(st, mode, len, max, len)
    ensures EachToken(st + [seg], mode, len, max, len)
  {
    hide Token, Advances;
    forall p: nat | Token(mode, len, 0, p) && p <= max && mode(p).end < len ensures EndsAt(st + [seg], mode(p).end) {
      EndsThere(st, mode(p).end, seg);
    }
  }

  /** Run a mode over a line.  Neighbouring tokens of one style are joined if wanted, and
      long stretches are cut. */
  method RunMode(mode: Mode, len: nat, max: nat, flatten: bool) returns (st: seq<Segment>)
    requires Advances(mode, len)
    ensures Covers(st, len) && Styled(st, ModeStyles(mode, len, max)) && EndsAtTokens(st, mode, len)
    ensures if flatten then Flattened(st, max) else EachToken(st, mode, len, max, len)
    ensures |st| > 0 ==> len - StartOf(st, |st| - 1) <= 50000
  {
    hide Styled, Covers, Borders, EndsAtTokens, Flattened, EachToken, Token;
    ghost var M := ModeStyles(mode, len, max);
    var flattenSpans, curStart: nat, curStyle: Style := flatten, 0, None;
    var start: nat, pos: nat := 0, 0;
    st := [];
    NothingYet(M);
    FirstToken(mode, len);
    NoBorders(mode, len, max, flatten, None);
    while pos < len
      invariant curStart <= start == pos <= len && Covers(st, curStart) && Styled(st, M)
      invariant forall ch :: curStart <= ch < start ==> M[ch] == curStyle
      invariant forall ch :: pos <= ch < len ==> M[ch] == ModeStyle(mode, len, max, pos, ch)
      invariant Borders(st, mode, len, max, flatten, curStart, curStyle)
      invariant len > 0 ==> Token(mode, len, 0, curStart)
      invariant pos < len ==> Token(mode, len, 0, pos) && flattenSpans == flatten
      invariant if start == 0 then st == [] else curStart < start
      invariant !flatten && start > 0 ==> mode(curStart).end == start || (start == len && curStart > max)
    {
      var style: Style;
      TokenGoesOn(mode, len, pos);
      if pos > max {
        flattenSpans, pos, style := false, len, None;
      } else {
        pos, style := mode(pos).end, mode(pos).style;
      }
      if !flattenSpans || curStyle != style {
        if curStart < start {
          Emitted(st, curStart, start, curStyle, M);
          NextBorder(st, mode, len, max, flatten, curStart, curStyle, start, style);
          st := st + [Segment(start, curStyle)];
        }
        curStart, curStyle := start, style;
        NoBorders(mode, len, max, flatten, style);
      }
      start := pos;
    }
    RestBorders(st, mode, len, max, flatten, curStart, curStyle);
    BordersEnd(st, mode, len, max, flatten, curStyle);
    CoversEnds(st, curStart);
    while curStart < pos
      invariant curStart <= pos == len && Covers(st, curStart) && Styled(st, M) && curStart == StartOf(st, |st|)
      invariant forall ch :: curStart <= ch < pos ==> M[ch] == curStyle
      invariant curStart < len ==> Borders(st, mode, len, max, flatten, len, curStyle)
      invariant curStart == len && |st| > 0 ==> len - StartOf(st, |st| - 1) <= LONGEST_SPAN
      invariant EndsAtTokens(st, mode, len)
      invariant if flatten then Flattened(st, max) else EachToken(st, mode, len, max, len)
    {
      var end := if curStart + LONGEST_SPAN < pos then curStart + LONGEST_SPAN else pos;
      Emitted(st, curStart, end, curStyle, M);
      LastBorder(st, mode, len, max, flatten, curStart, curStyle, end);
      st := st + [Segment(end, curStyle)];
      BordersEnd(st, mode, len, max, flatten, curStyle);
      curStart := end;
    }
  }

  lemma FirstToken(mode: Mode, len: nat)
    requires Advances(mode, len)
    ensures len > 0 ==> Token(mode, len, 0, 0)
  {
  }

  lemma TokenGoesOn(mode: Mode, len: nat, p: nat)
    requires Advances(mode, len) && Token(mode, len, 0, p)
    ensures mode(p).end < len ==> Token(mode, len, 0, mode(p).end)
  {
    if mode(p).end < len {
      NextToken(mode, len, 0, p);
    }
  }

  lemma BordersEnd(st: seq<Segment>, mode: Mode, len: nat, max: nat, flatten: bool, curStyle: Style)
    requires Advances(mode, len)
    ensures Borders(st, mode, len, max, flatten, len, curStyle) ==>
      EndsAtTokens(st, mode, len) && if flatten then Flattened(st, max) else EachToken(st, mode, len, max, len)
  {
  }

  lemma CoversEnds(st: seq<Segment>, at: nat)
    requires Covers(st, at)
    ensures StartOf(st, |st|) == at
  {
  }

  lemma NothingYet(styles: seq<Style>)
    ensures Covers([], 0) && Styled([], styles)
  {
  }

  // ----- merging overlays

  predicate Empty(style: Style) {
    style == None || style.value == ""
  }

  const OVERLAY := "cm-overlay "

  /** The style of one character after an overlay gave it a style. */
  function Merge(cur: Style, style: Style, replacing: bool): Style {
    if Empty(style) then cur
    else if replacing then Some(OVERLAY + style.value)
    else Some((if Empty(cur) then "" else cur.value + " ") + OVERLAY + style.value)
  }

  ghost function MergeFrom(styles: seq<Style>, from: nat, end: nat, style: Style, replacing: bool): (r: seq<Style>)
    requires from <= end <= |styles|
    ensures |r| == |styles|
    ensures forall ch :: 0 <= ch < |r| ==>
      r[ch] == if from <= ch < end then Merge(styles[ch], style, replacing) else styles[ch]
  {
    seq(|styles|, ch requires 0 <= ch < |styles| =>
      if from <= ch < end then Merge(styles[ch], style, replacing) else styles[ch])
  }

  /** Split segments so that one ends at `end`. */
  method SplitAt(st0: seq<Segment>, i0: nat, at0: nat, end: nat, len: nat, ghost styles: seq<Style>)
    returns (st: seq<Segment>, i: nat)
    requires Covers(st0, len) && Styled(st0, styles) && i0 <= |st0| && StartOf(st0, i0) == at0 < end <= len
    ensures Covers(st, len) && Styled(st, styles) && i0 < i <= |st| && StartOf(st, i) == end
    ensures StartOf(st, i0) == at0
  {
    st, i := st0, i0;
    var at := at0;
    while at < end
      invariant Covers(st, len) && Styled(st, styles) && i0 <= i <= |st| && StartOf(st, i) == at <= end
      invariant StartOf(st, i0) == at0 && (at > at0 ==> i > i0)
      decreases end - at
    {
      if i == |st| {
        assert false;
      }
      assert NotEmpty(st, i);
      var segEnd := st[i].end;
      if segEnd > end {
        SplitKeeps(st, i, end, len, styles);
        st := st[..i] + [Segment(end, st[i].style), Segment(segEnd, st[i].style)] + st[i + 1..];
      }
      i := i + 1;
      at := if end < segEnd then end else segEnd;
    }
  }

  lemma SplitUniform(styles: seq<Style>, from: nat, mid: nat, end: nat, style: Style)
    requires from <= mid <= end && Uniform(styles, from, end, style)
    ensures Uniform(styles, from, mid, style) && Uniform(styles, mid, end, style)
  {
  }

  lemma SplitKeeps(st: seq<Segment>, i: nat, end: nat, len: nat, styles: seq<Style>)
    requires Covers(st, len) && Styled(st, styles) && i < |st| && StartOf(st, i) < end < st[i].end
    ensures var now := st[..i] + [Segment(end, st[i].style), Segment(st[i].end, st[i].style)] + st[i + 1..];
      && Covers(now, len) && Styled(now, styles) && now[..i] == st[..i] && StartOf(now, i + 1) == end
  {
    assert HasStyle(st, i, styles);
    SplitUniform(styles, StartOf(st, i), end, st[i].end, st[i].style);
    hide Uniform;
    var now := st[..i] + [Segment(end, st[i].style), Segment(st[i].end, st[i].style)] + st[i + 1..];
    assert NotEmpty(st, i) && HasStyle(st, i, styles);
    forall j | 0 <= j < |now| ensures NotEmpty(now, j) && HasStyle(now, j, styles) {
      if j < i {
        assert NotEmpty(st, j) && HasStyle(st, j, styles);
      } else if j > i + 1 {
        assert NotEmpty(st, j - 1) && HasStyle(st, j - 1, styles);
      }
    }
  }

  /** The segments i0 to i, which make up a stretch, give way to one. */
  lemma JoinKeeps(st: seq<Segment>, i0: nat, i: nat, len: nat, style: Style, styles: seq<Style>)
    requires Covers(st, len) && Styled(st, styles) && i0 < i <= |st| && StartOf(st, i) <= |styles|
    requires StartOf(st, i0) <= StartOf(st, i) && !Empty(style)
    ensures var from, end := StartOf(st, i0), StartOf(st, i);
      var now := st[..i0] + [Segment(end, Some(OVERLAY + style.value))] + st[i..];
      && Covers(now, len) && Styled(now, MergeFrom(styles, from, end, style, true)) && StartOf(now, i0 + 1) == end
  {
    hide Uniform;
    var from, end := StartOf(st, i0), StartOf(st, i);
    var now := st[..i0] + [Segment(end, Some(OVERLAY + style.value))] + st[i..];
    var merged := MergeFrom(styles, from, end, style, true);
    MergedUniform(styles, from, end, style, true, from, end, None);
    EndsGrow(st, len, i0, i);
    forall j | 0 <= j < |now| ensures NotEmpty(now, j) && HasStyle(now, j, merged) {
      if j < i0 {
        OutsideKeeps(st, len, i0, i, j, style, true, styles);
      } else if j > i0 {
        OutsideKeeps(st, len, i0, i, j + i - i0 - 1, style, true, styles);
      }
    }
  }

  /** Where an opaque overlay gives a style it is that style alone; elsewhere, and under
      other overlays, a uniform stretch stays uniform. */
  lemma MergedUniform(styles: seq<Style>, from: nat, end: nat, style: Style, replacing: bool,
      a: nat, b: nat, cur: Style)
    requires from <= end <= |styles| && !Empty(style)
    requires replacing || Uniform(styles, a, b, cur)
    ensures from <= a && b <= end ==>
      Uniform(MergeFrom(styles, from, end, style, replacing), a, b, Merge(cur, style, replacing))
    ensures Uniform(styles, a, b, cur) && (b <= from || end <= a) ==>
      Uniform(MergeFrom(styles, from, end, style, replacing), a, b, cur)
  {
  }

  lemma OutsideKeeps(st: seq<Segment>, len: nat, i0: nat, i: nat, j: nat, style: Style, replacing: bool,
    styles: seq<Style>)
    requires Covers(st, len) && Styled(st, styles) && i0 <= i <= |st| && j < |st| && !(i0 <= j < i)
    requires StartOf(st, i0) <= StartOf(st, i) <= |styles| && !Empty(style)
    ensures NotEmpty(st, j)
    ensures HasStyle(st, j, MergeFrom(styles, StartOf(st, i0), StartOf(st, i), style, replacing))
  {
    hide Uniform;
    assert NotEmpty(st, j) && HasStyle(st, j, styles);
    if j < i0 {
      EndsGrow(st, len, j + 1, i0);
    } else {
      EndsGrow(st, len, i, j);
    }
    MergedUniform(styles, StartOf(st, i0), StartOf(st, i), style, replacing, StartOf(st, j), st[j].end, st[j].style);
  }

  /** Give the segments start to i the overlay's style beside their own. */
  method AddStyle(st0: seq<Segment>, start: nat, i: nat, len: nat, style: Style, ghost styles: seq<Style>)
    returns (st: seq<Segment>)
    requires Covers(st0, len) && Styled(st0, styles) && start < i <= |st0| && |styles| == len && !Empty(style)
    ensures |st| == |st0| && Covers(st, len) && StartOf(st, i) == StartOf(st0, i)
    ensures StartOf(st0, start) <= StartOf(st0, i) <= len
    ensures Styled(st, MergeFrom(styles, StartOf(st0, start), StartOf(st0, i), style, false))
  {
    hide Uniform;
    EndsGrow(st0, len, start, i);
    st := st0;
    var k := start;
    while k < i
      invariant start <= k <= i && |st| == |st0|
      invariant forall j :: 0 <= j < |st0| ==> st[j].end == st0[j].end
      invariant forall j :: 0 <= j < |st0| ==>
        st[j].style == if start <= j < k then Merge(st0[j].style, style, false) else st0[j].style
    {
      var cur := st[k].style;
      st := st[k := st[k].(style := Some((if Empty(cur) then "" else cur.value + " ") + OVERLAY + style.value))];
      k := k + 1;
    }
    AddedStyles(st0, st, start, i, len, style, styles);
  }

  lemma AddedStyles(st0: seq<Segment>, st: seq<Segment>, start: nat, i: nat, len: nat, style: Style, styles: seq<Style>)
    requires Covers(st0, len) && Styled(st0, styles) && start <= i <= |st0| && |st| == |st0| && !Empty(style)
    requires forall j :: 0 <= j < |st0| ==> st[j].end == st0[j].end
    requires forall j :: 0 <= j < |st0| ==>
      st[j].style == if start <= j < i then Merge(st0[j].style, style, false) else st0[j].style
    requires StartOf(st0, start) <= StartOf(st0, i) <= |styles|
    ensures Covers(st, len) && Styled(st, MergeFrom(styles, StartOf(st0, start), StartOf(st0, i), style, false))
    ensures StartOf(st, i) == StartOf(st0, i)
  {
    hide Uniform;
    var from, end := StartOf(st0, start), StartOf(st0, i);
    forall j | 0 <= j < |st| ensures NotEmpty(st, j) && HasStyle(st, j, MergeFrom(styles, from, end, style, false)) {
      if start <= j < i {
        assert NotEmpty(st0, j) && HasStyle(st0, j, styles);
        EndsGrow(st0, len, start, j);
        EndsGrow(st0, len, j + 1, i);
        MergedUniform(styles, from, end, style, false, StartOf(st0, j), st0[j].end, st0[j].style);
      } else {
        OutsideKeeps(st0, len, start, i, j, style, false, styles);
      }
    }
  }

  /** One overlay span: cut the segments at its end, then merge its style into those it covers. */
  method OverlaySpan(st0: seq<Segment>, i0: nat, at: nat, span: Segment, replacing: bool, len: nat,
      ghost styles: seq<Style>) returns (st: seq<Segment>, i: nat)
    requires Covers(st0, len) && Styled(st0, styles) && |styles| == len && i0 <= |st0|
    requires StartOf(st0, i0) == at < span.end <= len
    ensures Covers(st, len) && Styled(st, MergeFrom(styles, at, span.end, span.style, replacing))
    ensures i <= |st| && StartOf(st, i) == span.end
  {
    hide Covers, Styled;
    var start := i0;
    st, i := SplitAt(st0, i0, at, span.end, len, styles);
    if Empty(span.style) {
      assert MergeFrom(styles, at, span.end, span.style, replacing) == styles;
      return;
    }
    if replacing {
      JoinKeeps(st, start, i, len, span.style, styles);
      st := st[..start] + [Segment(span.end, Some(OVERLAY + span.style.value))] + st[i..];
      i := start + 1;
    } else {
      st := AddStyle(st, start, i, len, span.style, styles);
    }
  }

  /** What the style of each character is after an overlay. */
  ghost function Overlaid(styles: seq<Style>, over: seq<Style>, replacing: bool): (r: seq<Style>)
    requires |styles| == |over|
    ensures |r| == |styles| && forall ch :: 0 <= ch < |r| ==> r[ch] == Merge(styles[ch], over[ch], replacing)
  {
    seq(|styles|, ch requires 0 <= ch < |styles| => Merge(styles[ch], over[ch], replacing))
  }

  /** The style of each character when an overlay has been merged in up to a place. */
  ghost function OverlaidUpto(styles: seq<Style>, over: seq<Style>, replacing: bool, at: nat): (r: seq<Style>)
    requires |styles| == |over|
    ensures |r| == |styles|
    ensures forall ch :: 0 <= ch < |r| ==>
      r[ch] == if ch < at then Merge(styles[ch], over[ch], replacing) else styles[ch]
  {
    seq(|styles|, ch requires 0 <= ch < |styles| =>
      if ch < at then Merge(styles[ch], over[ch], replacing) else styles[ch])
  }

  lemma OverlayStep(styles: seq<Style>, over: seq<Style>, replacing: bool, spans: seq<Segment>, k: nat, len: nat)
    requires |styles| == |over| == len && Covers(spans, len) && Styled(spans, over) && k < |spans|
    ensures StartOf(spans, k) < spans[k].end <= len
    ensures MergeFrom(OverlaidUpto(styles, over, replacing, StartOf(spans, k)), StartOf(spans, k), spans[k].end,
        spans[k].style, replacing) == OverlaidUpto(styles, over, replacing, spans[k].end)
  {
    assert NotEmpty(spans, k) && HasStyle(spans, k, over);
    EndsGrow(spans, len, k + 1, |spans|);
  }

  /** Merge one overlay into the segments. */
  method ApplyOverlay(st0: seq<Segment>, spans: seq<Segment>, replacing: bool, len: nat,
      ghost styles: seq<Style>, ghost over: seq<Style>) returns (st: seq<Segment>)
    requires Covers(st0, len) && Styled(st0, styles) && |styles| == |over| == len
    requires Covers(spans, len) && Styled(spans, over)
    ensures Covers(st, len) && Styled(st, Overlaid(styles, over, replacing))
  {
    hide NotEmpty, Styled;
    st := st0;
    var i: nat, at: nat := 0, 0;
    assert OverlaidUpto(styles, over, replacing, 0) == styles;
    for k := 0 to |spans|
      invariant Covers(st, len) && Styled(st, OverlaidUpto(styles, over, replacing, at))
      invariant i <= |st| && StartOf(st, i) == at == StartOf(spans, k)
    {
      OverlayStep(styles, over, replacing, spans, k, len);
      st, i := OverlaySpan(st, i, at, spans[k], replacing, len, OverlaidUpto(styles, over, replacing, at));
      at := spans[k].end;
    }
    assert OverlaidUpto(styles, over, replacing, len) == Overlaid(styles, over, replacing);
  }

  datatype OverlayMode = OverlayMode(mode: Mode, replacing: bool, flatten: bool)

  /** The base styles with the first n overlays merged in, in order. */
  ghost function Highlighted(mode: Mode, overlays: seq<OverlayMode>, n: nat, len: nat, max: nat): (r: seq<Style>)
    requires Advances(mode, len) && n <= |overlays| && forall o :: o in overlays ==> Advances(o.mode, len)
    ensures |r| == len
  {
    if n == 0 then ModeStyles(mode, len, max)
    else Overlaid(Highlighted(mode, overlays, n - 1, len, max),
      ModeStyles(overlays[n - 1].mode, len, max), overlays[n - 1].replacing)
  }

  /** The segments of a line: those of its mode with the overlays merged in. */
  method HighlightLine(mode: Mode, flatten: bool, overlays: seq<OverlayMode>, len: nat, max: nat)
    returns (st: seq<Segment>)
    requires Advances(mode, len) && forall o :: o in overlays ==> Advances(o.mode, len)
    ensures Covers(st, len) && Styled(st, Highlighted(mode, overlays, |overlays|, len, max))
  {
    hide Covers, Styled, Advances;
    st := RunMode(mode, len, max, flatten);
    for o := 0 to |overlays|
      invariant Covers(st, len) && Styled(st, Highlighted(mode, overlays, o, len, max))
    {
      var spans := RunMode(overlays[o].mode, len, max, overlays[o].flatten);
      st := ApplyOverlay(st, spans, overlays[o].replacing, len,
        Highlighted(mode, overlays, o, len, max), ModeStyles(overlays[o].mode, len, max));
    }
  }

  // ----- looking a style up

  predicate OccursAt(pat: string, s: string, i: nat) {
    i + |pat| <= |s| && s[i..i + |pat|] == pat
  }

  /** The first place where a pattern occurs. */
  method IndexOf(s: string, pat: string) returns (at: Option<nat>)
    ensures at.Some? ==> OccursAt(pat, s, at.value) && forall k :: 0 <= k < at.value ==> !OccursAt(pat, s, k)
    ensures at == None ==> forall k :: 0 <= k <= |s| ==> !OccursAt(pat, s, k)
  {
    for i := 0 to |s| + 1
      invariant forall k :: 0 <= k < i ==> !OccursAt(pat, s, k)
    {
      if OccursAt(pat, s, i) {
        return Some(i);
      }
    }
    return None;
  }

  /** The style without what overlays added to it. */
  ghost predicate IsBase(style: Style, base: Style) {
    if style.Some? && exists k :: Cut(style.value, k) then
      exists k :: Cut(style.value, k) && base == if k == 0 then None else Some(style.value[..k - 1])
    else base == style
  }

  /** The first place where an overlay's part begins. */
  ghost predicate Cut(s: string, k: nat) {
    OccursAt(OVERLAY, s, k) && forall j :: 0 <= j < k ==> !OccursAt(OVERLAY, s, j)
  }

  /** Find the segment of the character before `ch` by bisection. */
  method FindSegment(st: seq<Segment>, ch: nat, len: nat) returns (mid: nat)
    requires Covers(st, len) && 0 < ch <= len
    ensures mid < |st| && StartOf(st, mid) < ch <= st[mid].end
  {
    hide NotEmpty;
    var before, after := 0, |st|;
    while true
      invariant before <= after <= |st| && StartOf(st, before) < ch <= StartOf(st, after)
      decreases after - before
    {
      mid := (before + after) / 2;
      if mid == |st| {
        EndsGrow(st, len, after, before);
        assert false;
      }
      if (if mid != 0 then st[mid - 1].end else 0) >= ch {
        after := mid;
      } else if st[mid].end < ch {
        before := mid + 1;
      } else {
        return;
      }
    }
  }

  method GetTokenTypeAt(st: seq<Segment>, ch: nat, len: nat, ghost styles: seq<Style>) returns (style: Style)
    requires Covers(st, len) && Styled(st, styles) && |styles| == len && ch <= len
    ensures IsBase(if len == 0 then None else styles[if ch == 0 then 0 else ch - 1], style)
  {
    var found: Style := None;
    if ch == 0 {
      if |st| > 0 {
        assert NotEmpty(st, 0) && HasStyle(st, 0, styles);
        EndsGrow(st, len, 1, |st|);
        found := st[0].style;
      }
    } else {
      var mid := FindSegment(st, ch, len);
      assert HasStyle(st, mid, styles);
      found := st[mid].style;
    }
    assert found == if len == 0 then None else styles[if ch == 0 then 0 else ch - 1];
    if found == None || found.value == "" {
      return found;
    }
    var cut := IndexOf(found.value, OVERLAY);
    assert cut.Some? ==> Cut(found.value, cut.value);
    assert forall k: nat :: Cut(found.value, k) ==> k <= |found.value|;
    style := if cut == None then found else if cut.value == 0 then None else Some(found.value[..cut.value - 1]);
  }

  // ----- what overlays make of the token type that is found

  /** What an overlay gives at a character. */
  datatype Layer = Layer(style: Style, replacing: bool)

  function MergeAll(base: Style, over: seq<Layer>): Style {
    if |over| == 0 then base
    else Merge(MergeAll(base, over[..|over| - 1]), over[|over| - 1].style, over[|over| - 1].replacing)
  }

  ghost function Layers(overlays: seq<OverlayMode>, n: nat, len: nat, max: nat, ch: nat): seq<Layer>
    requires n <= |overlays| && ch < len && forall o :: o in overlays ==> Advances(o.mode, len)
  {
    seq(n, o requires 0 <= o < n => Layer(ModeStyles(overlays[o].mode, len, max)[ch], overlays[o].replacing))
  }

  /** At each character a line has the style of its mode with the overlays merged in. */
  lemma {:induction false} StyleIsMerged(mode: Mode, overlays: seq<OverlayMode>, n: nat, len: nat, max: nat, ch: nat)
    requires Advances(mode, len) && n <= |overlays| && ch < len && forall o :: o in overlays ==> Advances(o.mode, len)
    ensures Highlighted(mode, overlays, n, len, max)[ch] ==
      MergeAll(ModeStyles(mode, len, max)[ch], Layers(overlays, n, len, max, ch))
    decreases n
  {
    hide Advances, ModeStyles, Merge;
    if n > 0 {
      StyleIsMerged(mode, overlays, n - 1, len, max, ch);
      var layers := Layers(overlays, n, len, max, ch);
      assert layers[..|layers| - 1] == Layers(overlays, n - 1, len, max, ch);
    }
  }

  function Lead(base: Style): string {
    if Empty(base) then "" else base.value + " "
  }

  predicate Replaced(over: seq<Layer>) {
    exists o :: o in over && !Empty(o.style) && o.replacing
  }

  lemma MergeNone(cur: Style, last: Layer)
    requires Empty(last.style)
    ensures Merge(cur, last.style, last.replacing) == cur
  {
  }

  lemma MergeReplacing(cur: Style, last: Layer)
    requires !Empty(last.style) && last.replacing
    ensures Merge(cur, last.style, last.replacing) == Some("" + OVERLAY + last.style.value)
  {
    assert "" + OVERLAY == OVERLAY;
  }

  lemma MergeFirst(base: Style, last: Layer)
    requires !Empty(last.style) && !last.replacing
    ensures Merge(base, last.style, last.replacing) == Some(Lead(base) + OVERLAY + last.style.value)
  {
  }

  lemma MergeNext(lead: string, mid: string, last: Layer)
    requires !Empty(last.style) && !last.replacing
    ensures Merge(Some(lead + OVERLAY + mid), last.style, last.replacing) ==
      Some(lead + OVERLAY + (mid + " " + OVERLAY + last.style.value))
  {
    var v := last.style.value;
    assert lead + OVERLAY + mid != "";
    assert lead + OVERLAY + mid + " " + OVERLAY + v == lead + OVERLAY + (mid + " " + OVERLAY + v);
  }

  /** Overlays leave the base style in front, unless one of them replaced it, followed by the
      mark of the first overlay that is left. */
  lemma {:induction false} MergedShape(base: Style, over: seq<Layer>) returns (rest: string)
    ensures if forall o :: o in over ==> Empty(o.style) then MergeAll(base, over) == base
      else MergeAll(base, over) == Some((if Replaced(over) then "" else Lead(base)) + OVERLAY + rest)
  {
    hide Merge;
    if |over| == 0 {
      return "";
    }
    var front, last := over[..|over| - 1], over[|over| - 1];
    var mid := MergedShape(base, front);
    assert over == front + [last];
    assert Replaced(over) <==> Replaced(front) || (!Empty(last.style) && last.replacing);
    if Empty(last.style) {
      rest := mid;
      MergeNone(MergeAll(base, front), last);
    } else if last.replacing {
      rest := last.style.value;
      MergeReplacing(MergeAll(base, front), last);
    } else if forall o :: o in front ==> Empty(o.style) {
      rest := last.style.value;
      MergeFirst(base, last);
    } else {
      rest := mid + " " + OVERLAY + last.style.value;
      MergeNext(if Replaced(over) then "" else Lead(base), mid, last);
    }
  }

  lemma Differs(pat: string, s: string, j: nat, m: nat)
    requires m < |pat| && j + m < |s| && s[j + m] != pat[m]
    ensures !OccursAt(pat, s, j)
  {
  }

  /** The mark that follows the base is the first one exactly when the base, with the space
      behind it, holds none. */
  lemma FirstMark(base: string, rest: string)
    ensures Cut(base + " " + OVERLAY + rest, |base| + 1) <==> !exists k :: OccursAt(OVERLAY, base + " ", k)
  {
    var s := base + " " + OVERLAY + rest;
    assert OccursAt(OVERLAY, s, |base| + 1);
    forall j | 0 <= j <= |base| ensures OccursAt(OVERLAY, s, j) <==> OccursAt(OVERLAY, base + " ", j) {
      if j + |OVERLAY| <= |base| + 1 {
        assert s[j..j + |OVERLAY|] == (base + " ")[j..j + |OVERLAY|];
      } else {
        assert s[|base|] == ' ' && OVERLAY[|base| - j] != ' ';
        Differs(OVERLAY, s, j, |base| - j);
      }
    }
  }

  /** Where overlays give a style, the token type found is none if the mode gave none or an
      overlay replaced it; otherwise it is the mode's own, unless the mode's style itself
      holds, or with the space behind it forms, an overlay mark. */
  lemma TokenTypeIsBase(base: Style, over: seq<Layer>)
    requires exists o :: o in over && !Empty(o.style)
    ensures Empty(base) || Replaced(over) ==> IsBase(MergeAll(base, over), None)
    ensures !Empty(base) && !Replaced(over) ==>
      (IsBase(MergeAll(base, over), base) <==> !exists k :: OccursAt(OVERLAY, base.value + " ", k))
  {
    var rest := MergedShape(base, over);
    if Empty(base) || Replaced(over) {
      assert "" + OVERLAY + rest == OVERLAY + rest;
      assert Cut(OVERLAY + rest, 0);
    } else {
      ModeStyleInFront(base.value, rest);
    }
  }

  lemma ModeStyleInFront(base: string, rest: string)
    requires base != ""
    ensures IsBase(Some(base + " " + OVERLAY + rest), Some(base)) <==> !exists k :: OccursAt(OVERLAY, base + " ", k)
  {
    var s := base + " " + OVERLAY + rest;
    FirstMark(base, rest);
    assert s[..|base|] == base;
    if exists k :: OccursAt(OVERLAY, base + " ", k) {
      var k: nat :| OccursAt(OVERLAY, base + " ", k);
      assert OccursAt(OVERLAY, s, k) by { assert s[k..k + |OVERLAY|] == (base + " ")[k..k + |OVERLAY|]; }
      var c := LeastOccurrence(s, k);
    }
  }

  lemma {:induction false} LeastOccurrence(s: string, k: nat) returns (c: nat)
    requires OccursAt(OVERLAY, s, k)
    ensures c <= k && Cut(s, c)
  {
    if exists j :: 0 <= j < k && OccursAt(OVERLAY, s, j) {
      var j: nat :| 0 <= j < k && OccursAt(OVERLAY, s, j);
      c := LeastOccurrence(s, j);
    } else {
      c := k;
    }
  }
}
