/** Columns of a string with tabs. */
module Columns {
  import opened Wrappers

  /** The column behind a character that is at column n. */
  function Step(c: char, n: int, tabSize: int): int
    requires tabSize > 0
  {
    if c == '\t' then n + tabSize - n % tabSize else n + 1
  }

  /** Behind a tab is the next tab stop: the least column further on that is a multiple of
      the tab size. */
  lemma TabReachesNextStop(n: int, tabSize: int, m: int)
    requires tabSize > 0
    ensures var next := Step('\t', n, tabSize);
            n < next && next % tabSize == 0 && (n < m && m % tabSize == 0 ==> next <= m)
  {
    var k, j := n / tabSize, m / tabSize;
    assert n == k * tabSize + n % tabSize && m == j * tabSize + m % tabSize;
    assert Step('\t', n, tabSize) == (k + 1) * tabSize;
    MultipleHasNoRest(k + 1, tabSize);
    TimesKeepsOrder(j, k, tabSize);
    TimesKeepsOrder(k + 1, j, tabSize);
  }

  lemma TimesKeepsOrder(a: int, b: int, n: int)
    requires n > 0
    ensures a <= b ==> a * n <= b * n
  {
  }

  lemma MultipleHasNoRest(k: int, n: int)
    requires n > 0
    ensures (k * n) % n == 0
  {
    var d := k - k * n / n;
    assert k * n == (k * n / n) * n + k * n % n;
    assert d * n == k * n % n;
    TimesKeepsOrder(1, d, n);
    TimesKeepsOrder(d, -1, n);
  }

  /** The column at `end`, walking from column n at `i`; there is nothing but single
      columns beyond the end of the string. */
  ghost function Column(s: string, i: nat, end: nat, n: int, tabSize: int): int
    requires tabSize > 0 && i <= end
    decreases end - i
  {
    if i == end then n
    else Column(s, i + 1, end, if i < |s| then Step(s[i], n, tabSize) else n + 1, tabSize)
  }

  lemma {:induction false} ColumnSplits(s: string, i: nat, m: nat, end: nat, n: int, tabSize: int)
    requires tabSize > 0 && i <= m <= end
    ensures Column(s, i, end, n, tabSize) == Column(s, m, end, Column(s, i, m, n, tabSize), tabSize)
    decreases m - i
  {
    if i < m {
      ColumnSplits(s, i + 1, m, end, if i < |s| then Step(s[i], n, tabSize) else n + 1, tabSize);
    }
  }

  lemma {:induction false} NoTabs(s: string, i: nat, end: nat, n: int, tabSize: int)
    requires tabSize > 0 && i <= end && forall k :: i <= k < end && k < |s| ==> s[k] != '\t'
    ensures Column(s, i, end, n, tabSize) == n + end - i
    decreases end - i
  {
    if i < end {
      NoTabs(s, i + 1, end, n + 1, tabSize);
    }
  }

  /** The first tab from a place on. */
  method IndexOfTab(s: string, from: nat) returns (at: Option<nat>)
    ensures at.Some? ==> from <= at.value < |s| && s[at.value] == '\t'
    ensures at.Some? ==> forall k :: from <= k < at.value ==> s[k] != '\t'
    ensures at == None ==> forall k :: from <= k < |s| ==> s[k] != '\t'
  {
    var i := from;
    while i < |s|
      invariant from <= i && forall k :: from <= k < i && k < |s| ==> s[k] != '\t'
      decreases |s| - i
    {
      if s[i] == '\t' {
        return Some(i);
      }
      i := i + 1;
    }
    return None;
  }

  /** Where the leading white space ends. */
  method IndentEnd(s: string, isSpace: char -> bool) returns (end: nat)
    ensures end <= |s| && (forall k :: 0 <= k < end ==> isSpace(s[k])) && (end < |s| ==> !isSpace(s[end]))
  {
    end := 0;
    while end < |s| && isSpace(s[end])
      invariant end <= |s| && forall k :: 0 <= k < end ==> isSpace(s[k])
    {
      end := end + 1;
    }
  }

  /** Count the columns from a place where the column is known; without an end, up to where
      the leading white space ends.  To an end further back the columns in between count
      as single ones, backwards. */
  method CountColumn(s: string, end: Option<nat>, tabSize: int, startIndex: nat, startValue: int,
      isSpace: char -> bool) returns (column: int, ghost stop: nat)
    requires tabSize > 0
    ensures if end.Some? then stop == end.value
      else stop <= |s| && (forall k :: 0 <= k < stop ==> isSpace(s[k])) && (stop < |s| ==> !isSpace(s[stop]))
    ensures column == if startIndex <= stop then Column(s, startIndex, stop, startValue, tabSize)
      else startValue + stop - startIndex
  {
    var last;
    if end == None {
      last := IndentEnd(s, isSpace);
    } else {
      last := end.value;
    }
    stop := last;
    var i: nat, n := startIndex, startValue;
    while true
      invariant startIndex > last ==> i == startIndex && n == startValue
      invariant startIndex <= last ==> startIndex <= i <= last
      invariant startIndex <= last ==>
        Column(s, startIndex, last, startValue, tabSize) == Column(s, i, last, n, tabSize)
      decreases last - i
    {
      var nextTab := IndexOfTab(s, i);
      if nextTab == None || nextTab.value >= last {
        if i <= last {
          NoTabs(s, i, last, n, tabSize);
        }
        return n + (last - i), last;
      }
      ColumnSplits(s, i, nextTab.value, last, n, tabSize);
      NoTabs(s, i, nextTab.value, n, tabSize);
      n := n + (nextTab.value - i);
      n := n + (tabSize - n % tabSize);
      i := nextTab.value + 1;
    }
  }

  /** The column of an offset. */
  ghost function At(s: string, k: nat, tabSize: int): int
    requires tabSize > 0
  {
    Column(s, 0, k, 0, tabSize)
  }

  lemma AtNext(s: string, k: nat, tabSize: int)
    requires tabSize > 0 && k < |s|
    ensures At(s, k + 1, tabSize) == Step(s[k], At(s, k, tabSize), tabSize)
    ensures At(s, k, tabSize) < At(s, k + 1, tabSize)
  {
    ColumnSplits(s, 0, k, k + 1, 0, tabSize);
  }

  lemma {:induction false} AtGrows(s: string, j: nat, k: nat, tabSize: int)
    requires tabSize > 0 && j <= k <= |s|
    ensures At(s, j, tabSize) + (k - j) <= At(s, k, tabSize)
    decreases k - j
  {
    if j < k {
      AtNext(s, j, tabSize);
      AtGrows(s, j + 1, k, tabSize);
    }
  }

  /** The least offset that reaches a column, or the end of the string. */
  ghost predicate Reaches(s: string, goal: int, tabSize: int, pos: int)
    requires tabSize > 0
  {
    && 0 <= pos <= |s|
    && (pos < |s| ==> At(s, pos, tabSize) >= goal)
    && forall k :: 0 <= k < pos ==> At(s, k, tabSize) < goal
  }

  /** The offset for a column: the least one that reaches it.  A negative column, which
      no offset has, is given back as it is. */
  method FindColumn(s: string, goal: int, tabSize: int) returns (offset: int)
    requires tabSize > 0
    ensures if goal >= 0 then Reaches(s, goal, tabSize, offset) else offset == goal
  {
    var pos: nat, col := 0, 0;
    while true
      invariant pos <= |s| && 0 <= col == At(s, pos, tabSize) && (pos > 0 ==> col < goal)
      decreases |s| - pos
    {
      var tab := IndexOfTab(s, pos);
      var nextTab := if tab == None then |s| else tab.value;
      var skipped := nextTab - pos;
      StraightAhead(s, pos, nextTab, tabSize);
      if nextTab == |s| || col + skipped >= goal {
        if goal >= 0 {
          Found(s, pos, nextTab, goal, tabSize);
        }
        return pos + if skipped <= goal - col then skipped else goal - col;
      }
      AtNext(s, nextTab, tabSize);
      col := col + (nextTab - pos);
      col := col + (tabSize - col % tabSize);
      pos := nextTab + 1;
      if col >= goal {
        BehindTab(s, pos, goal, tabSize);
        return pos;
      }
    }
  }

  lemma StraightAhead(s: string, pos: nat, stop: nat, tabSize: int)
    requires tabSize > 0 && pos <= stop <= |s| && forall k :: pos <= k < stop ==> s[k] != '\t'
    ensures forall k :: pos <= k <= stop ==> At(s, k, tabSize) == At(s, pos, tabSize) + k - pos
  {
    forall k | pos <= k <= stop ensures At(s, k, tabSize) == At(s, pos, tabSize) + k - pos {
      ColumnSplits(s, 0, pos, k, 0, tabSize);
      NoTabs(s, pos, k, At(s, pos, tabSize), tabSize);
    }
  }

  lemma Found(s: string, pos: nat, nextTab: nat, goal: int, tabSize: int)
    requires tabSize > 0 && pos <= nextTab <= |s| && goal >= 0 && (pos > 0 ==> At(s, pos, tabSize) < goal)
    requires forall k :: pos <= k <= nextTab ==> At(s, k, tabSize) == At(s, pos, tabSize) + k - pos
    requires nextTab == |s| || At(s, nextTab, tabSize) >= goal
    ensures var skipped, rest := nextTab - pos, goal - At(s, pos, tabSize);
      Reaches(s, goal, tabSize, pos + if skipped <= rest then skipped else rest)
  {
    forall k | 0 <= k < pos ensures At(s, k, tabSize) < goal {
      AtGrows(s, k, pos, tabSize);
    }
  }

  lemma BehindTab(s: string, pos: nat, goal: int, tabSize: int)
    requires tabSize > 0 && 0 < pos <= |s| && At(s, pos - 1, tabSize) < goal <= At(s, pos, tabSize)
    ensures Reaches(s, goal, tabSize, pos)
  {
    forall k | 0 <= k < pos ensures At(s, k, tabSize) < goal {
      AtGrows(s, k, pos - 1, tabSize);
    }
  }

  /** Only one offset is the least to reach a column ... */
  lemma ReachedOnce(s: string, goal: int, tabSize: int, p: int, q: int)
    requires tabSize > 0 && Reaches(s, goal, tabSize, p) && Reaches(s, goal, tabSize, q)
    ensures p == q
  {
  }

  /** ... so looking for the column of an offset finds that offset. */
  lemma ColumnFindsOffset(s: string, k: nat, tabSize: int)
    requires tabSize > 0 && k <= |s|
    ensures Reaches(s, At(s, k, tabSize), tabSize, k)
  {
    forall j | 0 <= j < k ensures At(s, j, tabSize) < At(s, k, tabSize) {
      AtGrows(s, j, k, tabSize);
    }
  }
}
