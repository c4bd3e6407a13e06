/** Splitting a text into layout chunks that end on line boundaries. */
module LayoutChunks {
  import opened Prelude
  import opened Renderability
  import opened Lines

  /** Behind the LF that ends the line at `e`, or the end of the text. */
  function NextEnd(t: string, e: nat): (n: nat)
    requires e < |t|
    ensures e < n <= |t| && (n == |t| || t[n - 1] == '\n') && Clear(t, e, n - 1)
  {
    LineEndAt(t, e);
    if Find(t, "\n", e) < 0 then |t| else Find(t, "\n", e) + 1
  }

  predicate Boundary(t: string, e: int) {
    e == 0 || (0 < e <= |t| && (e == |t| || t[e - 1] == '\n'))
  }

  /** From `start`, `count` lines reach up to `end`. */
  predicate LinesReach(t: string, start: nat, count: nat, end: nat)
    decreases count
  {
    if count == 0 then end == start
    else start < |t| && LinesReach(t, NextEnd(t, start), count - 1, end)
  }

  lemma {:induction false} OneMoreLine(t: string, start: nat, count: nat, end: nat)
    requires LinesReach(t, start, count, end) && end < |t|
    ensures LinesReach(t, start, count + 1, NextEnd(t, end))
    decreases count
  {
    if count == 0 {
    } else {
      OneMoreLine(t, NextEnd(t, start), count - 1, end);
    }
  }

  lemma NoLineYet(t: string, start: nat)
    ensures LinesReach(t, start, 0, start)
  {}

  /**
    A chunk holds at least one line and no part of one, at most `maxLines`, and more than one only within the
    target; it stops before `maxLines` only at the end of the text, at the target, or before a line that would pass it.
   */
  ghost predicate ChunkOk(t: string, start: nat, target: nat, maxLines: nat, end: nat) {
    start < end <= |t| && Boundary(t, end) && exists count: nat ::
      && 0 < count <= maxLines && LinesReach(t, start, count, end)
      && (count > 1 ==> end - start <= target)
      && (count < maxLines && end < |t| && end - start < target ==> NextEnd(t, end) - start > target)
  }

  /** How many lines, whole or cut off by the end of the text, lie between the two offsets. */
  function LineTotal(t: string, start: nat, end: nat): nat
    requires start <= end <= |t|
  {
    BreakCount(t[start..end]) + (if end > start && t[end - 1] != '\n' then 1 else 0)
  }

  /** A chunk could end here: at the end of a line, within both budgets, or behind its only line. */
  predicate Admissible(t: string, start: nat, target: nat, maxLines: nat, end: nat) {
    && start < end <= |t| && (end == |t| || t[end - 1] == '\n') && LineTotal(t, start, end) <= maxLines
    && (end - start <= target || LineTotal(t, start, end) == 1)
  }

  lemma LineTotalSplits(t: string, start: nat, mid: nat, end: nat)
    requires start < mid <= end <= |t| && t[mid - 1] == '\n'
    ensures LineTotal(t, start, end) == LineTotal(t, start, mid) + LineTotal(t, mid, end)
  {
    assert t[start..end] == t[start..mid] + t[mid..end];
    BreakCountConcat(t[start..mid], t[mid..end]);
  }

  lemma OneLineTotal(t: string, start: nat)
    requires start < |t|
    ensures LineTotal(t, start, NextEnd(t, start)) == 1
  {
    var n := NextEnd(t, start);
    BreakCountClear(t[start..n], 0, n - start - 1);
    assert t[start..n][..0] == "" && t[start..n][n - start - 1] == t[n - 1];
  }

  lemma {:induction false} ReachCounts(t: string, start: nat, count: nat, end: nat)
    requires start <= |t| && LinesReach(t, start, count, end)
    ensures start <= end <= |t| && LineTotal(t, start, end) == count && (count > 0 <==> start < end)
    decreases count
  {
    if count == 0 {
      assert t[start..start] == "";
    } else {
      var n := NextEnd(t, start);
      ReachCounts(t, n, count - 1, end);
      OneLineTotal(t, start);
      if n == |t| {
        assert n == end;
      } else {
        LineTotalSplits(t, start, n, end);
      }
    }
  }

  lemma BeyondHoldsMore(t: string, start: nat, end: nat, e: nat)
    requires start < end < e <= |t| && t[end - 1] == '\n' && (e == |t| || t[e - 1] == '\n')
    ensures LineTotal(t, start, e) > LineTotal(t, start, end) && NextEnd(t, end) <= e
  {
    LineTotalSplits(t, start, end, e);
    var n := NextEnd(t, end);
    OneLineTotal(t, end);
    if n < e {
      LineTotalSplits(t, end, n, e);
    }
  }

  /** A chunk ends at the last place where it could. */
  lemma ChunkEndsLast(t: string, start: nat, target: nat, maxLines: nat, end: nat, e: nat)
    requires ChunkOk(t, start, target, maxLines, end)
    ensures Admissible(t, start, target, maxLines, end)
    ensures Admissible(t, start, target, maxLines, e) ==> e <= end
  {
    var count: nat :| 0 < count <= maxLines && LinesReach(t, start, count, end)
      && (count > 1 ==> end - start <= target)
      && (count < maxLines && end < |t| && end - start < target ==> NextEnd(t, end) - start > target);
    ReachCounts(t, start, count, end);
    if Admissible(t, start, target, maxLines, e) && end < e { BeyondHoldsMore(t, start, end, e); }
  }

  datatype ChunkError = StartOutsideText | BadBudget

  method LogicalLineChunkEnd(t: string, start: int, target: int, maxLines: int) returns (r: Result<nat, ChunkError>)
    ensures if start < 0 || start > |t| then r == Err(StartOutsideText)
            else if target <= 0 || maxLines <= 0 then r == Err(BadBudget)
            else if start == |t| then r == Ok(start)
            else r.Ok? && ChunkOk(t, start, target, maxLines, r.value)
                 && Admissible(t, start, target, maxLines, r.value)
                 && forall e: nat | Admissible(t, start, target, maxLines, e) :: e <= r.value
  {
    if start < 0 || start > |t| {
      return Err(StartOutsideText);
    }
    if target <= 0 || maxLines <= 0 {
      return Err(BadBudget);
    }
    if start == |t| {
      return Ok(start);
    }
    hide LinesReach, Clear;
    NoLineYet(t, start);
    var end: nat, logicalLines := start, 0;
    while end < |t| && logicalLines < maxLines
      invariant start <= end <= |t| && 0 <= logicalLines <= maxLines && (logicalLines == 0 <==> end == start)
      invariant LinesReach(t, start, logicalLines, end) && (end > start ==> Boundary(t, end) && end - start < target)
      decreases |t| - end
    {
      var nextEnd := NextEnd(t, end);
      if end > start && nextEnd - start > target {
        break;
      }
      OneMoreLine(t, start, logicalLines, end);
      end := nextEnd;
      logicalLines := logicalLines + 1;
      if end - start >= target {
        break;
      }
    }
    assert LinesReach(t, start, logicalLines, end) && 0 < logicalLines;
    r := Ok(end);
    forall e: nat ensures Admissible(t, start, target, maxLines, end)
      ensures Admissible(t, start, target, maxLines, e) ==> e <= end
    {
      ChunkEndsLast(t, start, target, maxLines, end, e);
    }
  }

  function Concat(chunks: seq<string>): string {
    if chunks == [] then "" else chunks[0] + Concat(chunks[1..])
  }

  lemma {:induction false} ConcatSnoc(chunks: seq<string>, chunk: string)
    ensures Concat(chunks + [chunk]) == Concat(chunks) + chunk
    decreases |chunks|
  {
    if chunks == [] {
    } else {
      assert (chunks + [chunk])[1..] == chunks[1..] + [chunk];
      ConcatSnoc(chunks[1..], chunk);
    }
  }

  /** The caller's loop: the chunks put together are the text, and each but the last ends in LF. */
  method TextChunks(t: string, target: int, maxLines: int) returns (chunks: seq<string>)
    requires target > 0 && maxLines > 0
    ensures Concat(chunks) == t
    ensures forall i | 0 <= i < |chunks| :: chunks[i] != "" && (i < |chunks| - 1 ==> chunks[i][|chunks[i]| - 1] == '\n')
  {
    hide LinesReach, Find;
    chunks := [];
    var cursor := 0;
    while cursor < |t|
      invariant 0 <= cursor <= |t| && Boundary(t, cursor) && Concat(chunks) == t[..cursor]
      invariant forall i | 0 <= i < |chunks| :: chunks[i] != "" && (cursor < |t| || i < |chunks| - 1 ==>
                chunks[i][|chunks[i]| - 1] == '\n')
      decreases |t| - cursor
    {
      var end := LogicalLineChunkEnd(t, cursor, target, maxLines);
      ConcatSnoc(chunks, t[cursor..end.value]);
      assert t[..end.value] == t[..cursor] + t[cursor..end.value];
      chunks := chunks + [t[cursor..end.value]];
      cursor := end.value;
    }
    assert t[..cursor] == t;
  }
}
