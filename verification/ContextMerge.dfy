/**
 The context display of matched log lines (buildDescription in
 plugins/logfile/logfile.go): windows around the shown matches are merged and printed.
 */
module ContextMerge {
  import opened Common

  /** An inclusive range of line numbers. */
  datatype Range = Range(start: nat, end: nat)

  /** One printed row: a context line with its marker, or the "..." between ranges. */
  datatype Row = Gap | Shown(index: nat, marked: bool)

  /** Line `i` lies in the window of match `m`, clipped to the `n` lines there are. */
  predicate InWindow(n: nat, before: nat, after: nat, m: nat, i: int) {
    0 <= i < n && m - before <= i <= m + after
  }

  /** Line `i` has to be displayed. */
  ghost predicate Near(n: nat, before: nat, after: nat, show: seq<nat>, i: int) {
    exists k :: 0 <= k < |show| && InWindow(n, before, after, show[k], i)
  }

  ghost predicate Covered(rs: seq<Range>, i: int) {
    exists k :: 0 <= k < |rs| && rs[k].start <= i <= rs[k].end
  }

  ghost predicate Increasing(s: seq<nat>) {
    forall i, j :: 0 <= i < j < |s| ==> s[i] < s[j]
  }

  /** Sorted, disjoint and with at least one line between neighbours. */
  ghost predicate Separated(rs: seq<Range>) {
    && (forall k :: 0 <= k < |rs| ==> rs[k].start <= rs[k].end)
    && (forall k, l :: 0 <= k < l < |rs| ==> rs[k].end + 1 < rs[l].start)
  }

  method ClipWindows(n: nat, before: nat, after: nat, show: seq<nat>) returns (ranges: seq<Range>)
    requires Increasing(show) && forall k :: 0 <= k < |show| ==> show[k] < n
    ensures |ranges| == |show|
    ensures forall k :: 0 <= k < |show| ==> ranges[k].start <= ranges[k].end
    ensures forall k, i :: 0 <= k < |show| ==>
      (ranges[k].start <= i <= ranges[k].end <==> InWindow(n, before, after, show[k], i))
    ensures forall k, l :: 0 <= k < l < |show| ==> ranges[k].start <= ranges[l].start
  {
    ranges := [];
    for k := 0 to |show|
      invariant |ranges| == k
      invariant forall j :: 0 <= j < k ==>
        ranges[j] == Range(if show[j] < before then 0 else show[j] - before, Min(show[j] + after, n - 1))
    {
      var start: int := show[k] - before;
      if start < 0 {
        start := 0;
      }
      var end := show[k] + after;
      if end >= n {
        end := n - 1;
      }
      ranges := ranges + [Range(start, end)];
    }
  }

  /** The merge loop, which extends the last merged range in place. */
  method MergeRanges(ranges: seq<Range>) returns (merged: seq<Range>)
    requires ranges != []
    requires forall k :: 0 <= k < |ranges| ==> ranges[k].start <= ranges[k].end
    requires forall k, l :: 0 <= k < l < |ranges| ==> ranges[k].start <= ranges[l].start
    ensures merged != [] && Separated(merged)
    ensures forall i :: Covered(merged, i) <==> Covered(ranges, i)
  {
    merged := [ranges[0]];
    for i := 1 to |ranges|
      invariant merged != [] && Separated(merged)
      invariant merged[|merged| - 1].start <= ranges[i - 1].start
      invariant forall x :: Covered(merged, x) <==> Covered(ranges[..i], x)
    {
      var n := |merged| - 1;
      ghost var was := merged;
      if ranges[i].start <= merged[n].end + 1 {
        if ranges[i].end > merged[n].end {
          merged := merged[n := Range(merged[n].start, ranges[i].end)];
        }
      } else {
        merged := merged + [ranges[i]];
      }
      MergeStep(was, merged, ranges, i);
    }
    assert ranges[..|ranges|] == ranges;
  }

  /** Absorbing or appending one range adds exactly its lines. */
  lemma MergeStep(was: seq<Range>, merged: seq<Range>, ranges: seq<Range>, i: nat)
    requires was != [] && i < |ranges| && ranges[i].start <= ranges[i].end
    requires was[|was| - 1].start <= ranges[i].start
    requires forall x :: Covered(was, x) <==> Covered(ranges[..i], x)
    requires var n := |was| - 1; var r := ranges[i];
      if r.start <= was[n].end + 1 then
        merged == was[n := Range(was[n].start, if r.end > was[n].end then r.end else was[n].end)]
      else merged == was + [r]
    ensures forall x :: Covered(merged, x) <==> Covered(ranges[..i + 1], x)
  {
    var n, r := |was| - 1, ranges[i];
    forall x
      ensures Covered(merged, x) <==> Covered(ranges[..i + 1], x)
    {
      CoveredSnoc(ranges[..i], r, x);
      assert ranges[..i + 1] == ranges[..i] + [r];
      if Covered(was, x) {
        var k :| 0 <= k < |was| && was[k].start <= x <= was[k].end;
        assert merged[k].start <= x <= merged[k].end;
      }
      if r.start <= x <= r.end {
        assert merged[|merged| - 1].start <= x <= merged[|merged| - 1].end;
      }
      if Covered(merged, x) {
        var k :| 0 <= k < |merged| && merged[k].start <= x <= merged[k].end;
        if k <= n {
          assert was[k].start <= x <= was[k].end || r.start <= x <= r.end;
        }
      }
    }
  }

  lemma CoveredSnoc(rs: seq<Range>, r: Range, x: int)
    ensures Covered(rs + [r], x) <==> Covered(rs, x) || r.start <= x <= r.end
  {
    var all := rs + [r];
    if Covered(rs, x) {
      var k :| 0 <= k < |rs| && rs[k].start <= x <= rs[k].end;
      assert all[k].start <= x <= all[k].end;
    }
    if r.start <= x <= r.end {
      assert all[|rs|].start <= x <= all[|rs|].end;
    }
  }

  /** Neighbouring rows: consecutive lines touch, a gap stands exactly where lines are
      skipped, and a gap is never first, last or doubled. */
  ghost predicate WellPrinted(rows: seq<Row>) {
    forall k :: 0 <= k < |rows| ==> RowOk(rows, k)
  }

  ghost predicate RowOk(rows: seq<Row>, k: nat)
    requires k < |rows|
  {
    match rows[k]
    case Gap =>
      && 0 < k < |rows| - 1 && rows[k - 1].Shown? && rows[k + 1].Shown?
      && rows[k - 1].index + 1 < rows[k + 1].index
    case Shown(i, _) =>
      k + 1 < |rows| && rows[k + 1].Shown? ==> rows[k + 1].index == i + 1
  }

  ghost predicate Prints(rows: seq<Row>, i: int) {
    exists k :: 0 <= k < |rows| && rows[k].Shown? && rows[k].index == i
  }

  ghost predicate MarkedBy(rows: seq<Row>, show: seq<nat>) {
    forall k :: 0 <= k < |rows| && rows[k].Shown? ==> (rows[k].marked <==> rows[k].index in show)
  }

  method PrintRange(r: Range, show: seq<nat>) returns (rows: seq<Row>)
    requires r.start <= r.end
    ensures |rows| == r.end - r.start + 1
    ensures forall k :: 0 <= k < |rows| ==> rows[k] == Shown(r.start + k, (r.start + k) in show)
  {
    rows := [];
    for i := r.start to r.end + 1
      invariant |rows| == i - r.start
      invariant forall k :: 0 <= k < |rows| ==> rows[k] == Shown(r.start + k, (r.start + k) in show)
    {
      rows := rows + [Shown(i, i in show)];
    }
  }

  method PrintMerged(merged: seq<Range>, show: seq<nat>) returns (rows: seq<Row>)
    requires merged != [] && Separated(merged)
    ensures WellPrinted(rows) && MarkedBy(rows, show)
    ensures forall i :: Prints(rows, i) <==> Covered(merged, i)
  {
    rows := [];
    for ri := 0 to |merged|
      invariant WellPrinted(rows) && MarkedBy(rows, show)
      invariant rows == [] <==> ri == 0
      invariant ri > 0 ==> rows[|rows| - 1].Shown? && rows[|rows| - 1].index == merged[ri - 1].end
      invariant forall i :: Prints(rows, i) <==> Covered(merged[..ri], i)
    {
      var r := merged[ri];
      var more := PrintRange(r, show);
      ghost var was := rows;
      assert ri > 0 ==> merged[ri - 1].end + 1 < r.start;
      if ri > 0 {
        rows := rows + [Gap];
      }
      rows := rows + more;
      LayoutStep(was, more, rows, r, show);
      PrintStep(was, more, rows, r, merged[..ri]);
      assert merged[..ri + 1] == merged[..ri] + [r];
    }
    assert merged[..|merged|] == merged;
  }

  lemma LayoutStep(was: seq<Row>, more: seq<Row>, rows: seq<Row>, r: Range, show: seq<nat>)
    requires WellPrinted(was) && MarkedBy(was, show)
    requires rows == if was == [] then more else was + [Gap] + more
    requires was != [] ==> was[|was| - 1].Shown? && was[|was| - 1].index + 1 < r.start
    requires r.start <= r.end && |more| == r.end - r.start + 1
    requires forall k :: 0 <= k < |more| ==> more[k] == Shown(r.start + k, (r.start + k) in show)
    ensures WellPrinted(rows) && MarkedBy(rows, show)
    ensures rows != [] && rows[|rows| - 1].Shown? && rows[|rows| - 1].index == r.end
  {
    var base := |rows| - |more|;
    forall k | 0 <= k < |rows|
      ensures RowOk(rows, k)
    {
      if k >= base {
        assert rows[k] == more[k - base];
      } else if k < |was| {
        assert RowOk(was, k);
      }
    }
    forall k | 0 <= k < |rows| && rows[k].Shown?
      ensures rows[k].marked <==> rows[k].index in show
    {
      assert k < |was| ==> was == [] || rows[k] == was[k];
      assert k >= base ==> rows[k] == more[k - base];
    }
  }

  lemma PrintStep(was: seq<Row>, more: seq<Row>, rows: seq<Row>, r: Range, done: seq<Range>)
    requires rows == was + more || rows == was + [Gap] + more
    requires r.start <= r.end && |more| == r.end - r.start + 1
    requires forall k :: 0 <= k < |more| ==> more[k].Shown? && more[k].index == r.start + k
    requires forall i :: Prints(was, i) <==> Covered(done, i)
    ensures forall i :: Prints(rows, i) <==> Covered(done + [r], i)
  {
    var base := |rows| - |more|;
    forall i
      ensures Prints(rows, i) <==> Covered(done + [r], i)
    {
      CoveredSnoc(done, r, i);
      if Prints(was, i) {
        var k :| 0 <= k < |was| && was[k].Shown? && was[k].index == i;
        assert rows[k] == was[k];
      }
      if r.start <= i <= r.end {
        assert rows[base + (i - r.start)] == more[i - r.start];
      }
      if Prints(rows, i) {
        var k :| 0 <= k < |rows| && rows[k].Shown? && rows[k].index == i;
        if k >= base {
          assert rows[k] == more[k - base];
        } else {
          assert rows[k] == was[k];
        }
      }
    }
  }

  /** The context display: every line near a shown match is printed, nothing else is,
      and the marker says which lines are shown matches. */
  method BuildContext(n: nat, before: nat, after: nat, maxLines: nat, matched: seq<nat>)
      returns (rows: seq<Row>, more: nat)
    requires matched != [] && Increasing(matched) && forall k :: 0 <= k < |matched| ==> matched[k] < n
    requires maxLines > 0
    ensures var show := matched[..Min(|matched|, maxLines)];
      && WellPrinted(rows) && MarkedBy(rows, show)
      && (forall i :: Prints(rows, i) <==> Near(n, before, after, show, i))
      && more == |matched| - |show|
  {
    var show := matched;
    if |show| > maxLines {
      show := show[..maxLines];
    }
    var ranges := ClipWindows(n, before, after, show);
    var merged := MergeRanges(ranges);
    rows := PrintMerged(merged, show);
    more := 0;
    if |matched| > maxLines {
      more := |matched| - maxLines;
    }
    forall i
      ensures Covered(ranges, i) <==> Near(n, before, after, show, i)
    {
      if Covered(ranges, i) {
        var k :| 0 <= k < |ranges| && ranges[k].start <= i <= ranges[k].end;
        assert InWindow(n, before, after, show[k], i);
      }
      if Near(n, before, after, show, i) {
        var k :| 0 <= k < |show| && InWindow(n, before, after, show[k], i);
        assert ranges[k].start <= i <= ranges[k].end;
      }
    }
  }

  /** Printed rows come in increasing order, so no line is printed twice. */
  lemma {:induction false} PrintedInOrder(rows: seq<Row>, j: nat, k: nat)
    requires WellPrinted(rows) && j < k < |rows| && rows[j].Shown? && rows[k].Shown?
    ensures rows[j].index < rows[k].index
    decreases k - j
  {
    assert RowOk(rows, j) && RowOk(rows, j + 1);
    if rows[j + 1].Shown? {
      if j + 1 < k {
        PrintedInOrder(rows, j + 1, k);
      }
    } else if j + 2 < k {
      PrintedInOrder(rows, j + 2, k);
    }
  }
}
