/** Logical lines of a text, found by position and by enumeration, and the LF-separated pieces they hold. */
module Lines {
  import opened Prelude
  import opened Renderability

  /** A real line: its content, and its content with the LF that ends it, if there is one. */
  datatype Line = Line(start: nat, contentEnd: nat, fullEnd: nat)

  // --- The line around a character -----------------------------------------------------------

  function LineStart(t: string, x: nat): (s: nat)
    requires x <= |t|
    ensures s <= x && (s == 0 || t[s - 1] == '\n') && Clear(t, s, x)
  {
    if x == 0 || t[x - 1] == '\n' then x else LineStart(t, x - 1)
  }

  lemma LineEndAt(t: string, x: nat)
    requires x <= |t|
    ensures
      var newline := Find(t, "\n", x);
      if newline < 0 then Clear(t, x, |t|) else x <= newline < |t| && t[newline] == '\n' && Clear(t, x, newline)
  {
    var newline := Find(t, "\n", x);
    forall k | x <= k < (if newline < 0 then |t| else newline) ensures t[k] != '\n' { AtBreak(t, k); }
    AtBreak(t, newline);
  }

  function LineOf(t: string, x: nat): (l: Line)
    requires x < |t|
    ensures IsLine(t, l.start, l.contentEnd) && l.start <= x <= l.contentEnd && x < l.fullEnd <= |t|
    ensures l.fullEnd == (if l.contentEnd < |t| then l.contentEnd + 1 else l.contentEnd)
  {
    var newline := Find(t, "\n", x);
    LineEndAt(t, x);
    if newline < 0 then Line(LineStart(t, x), |t|, |t|) else Line(LineStart(t, x), newline, newline + 1)
  }

  /** End of the piece around `x`; behind a final LF that is the empty last piece. */
  function PieceEnd(t: string, x: nat): (e: nat)
    requires x <= |t|
    ensures x <= e <= |t| && Clear(t, x, e) && (e == |t| || t[e] == '\n')
  {
    LineEndAt(t, x);
    if Find(t, "\n", x) < 0 then |t| else Find(t, "\n", x)
  }

  /** Lines do not overlap: the one around a character is the only one. */
  lemma OneLine(t: string, x: nat, s: int, e: int)
    requires x < |t| && IsLine(t, s, e) && s <= x <= e
    ensures LineOf(t, x).start == s && LineOf(t, x).contentEnd == e
  {
    var l := LineOf(t, x);
    assert l.start <= s by { assert s > 0 ==> t[s - 1] == '\n'; }
    assert s <= l.start by { assert l.start > 0 ==> t[l.start - 1] == '\n'; }
  }

  // --- Enumeration ---------------------------------------------------------------------------

  predicate IsRealLine(t: string, l: Line) {
    IsLine(t, l.start, l.contentEnd) && l.start < l.fullEnd <= |t|
    && l.fullEnd == (if l.contentEnd < |t| then l.contentEnd + 1 else l.contentEnd)
  }

  predicate Follows(lines: seq<Line>, i: int)
    requires 0 <= i < |lines| - 1
  {
    lines[i + 1].start == lines[i].fullEnd
  }

  /** `lines` are the lines of `t` in order; an empty text has one empty line, a final LF opens no further one. */
  predicate AreLines(t: string, lines: seq<Line>) {
    if t == "" then lines == [Line(0, 0, 0)]
    else
      && lines != [] && lines[0].start == 0 && lines[|lines| - 1].fullEnd == |t|
      && (forall i {:trigger IsRealLine(t, lines[i])} | 0 <= i < |lines| :: IsRealLine(t, lines[i]))
      && (forall i | 0 <= i < |lines| - 1 :: Follows(lines, i))
  }

  /** The lines found so far reach up to `end`. */
  predicate LinesUpTo(t: string, lines: seq<Line>, end: int) {
    && end == (if lines == [] then 0 else lines[|lines| - 1].fullEnd)
    && (lines != [] ==> lines[0].start == 0)
    && (forall i {:trigger IsRealLine(t, lines[i])} | 0 <= i < |lines| :: IsRealLine(t, lines[i]))
    && (forall i | 0 <= i < |lines| - 1 :: Follows(lines, i))
  }

  lemma AddLine(t: string, lines: seq<Line>, l: Line)
    requires LinesUpTo(t, lines, l.start) && IsRealLine(t, l)
    ensures LinesUpTo(t, lines + [l], l.fullEnd)
  {
    var longer := lines + [l];
    forall i | 0 <= i < |longer| - 1 ensures Follows(longer, i) {
      assert i < |lines| - 1 ==> Follows(lines, i);
    }
  }

  method RealLines(t: string) returns (lines: seq<Line>)
    ensures AreLines(t, lines)
  {
    if t == "" {
      return [Line(0, 0, 0)];
    }
    lines := [];
    var start := 0;
    while start < |t|
      invariant 0 <= start <= |t| && (start < |t| ==> start == 0 || t[start - 1] == '\n')
      invariant LinesUpTo(t, lines, start)
    {
      LineEndAt(t, start);
      var newline := Find(t, "\n", start);
      var l := if newline < 0 then Line(start, |t|, |t|) else Line(start, newline, newline + 1);
      AddLine(t, lines, l);
      lines := lines + [l];
      start := l.fullEnd;
    }
  }

  lemma {:induction false} LinesAscend(t: string, lines: seq<Line>, i: int, j: int)
    requires t != "" && AreLines(t, lines) && 0 <= i <= j < |lines|
    ensures lines[i].start <= lines[j].start && (i < j ==> lines[i].fullEnd <= lines[j].start)
    decreases j - i
  {
    if i == j {
    } else {
      assert Follows(lines, i) && IsRealLine(t, lines[i]);
      LinesAscend(t, lines, i + 1, j);
    }
  }

  /** The line at index `i` is the line around each of its characters. */
  lemma LineAround(t: string, lines: seq<Line>, i: int, x: nat)
    requires t != "" && AreLines(t, lines) && 0 <= i < |lines| && lines[i].start <= x < lines[i].fullEnd
    ensures x < |t| && lines[i] == LineOf(t, x)
  {
    assert IsRealLine(t, lines[i]);
    OneLine(t, x, lines[i].start, lines[i].contentEnd);
  }

  method LineIndexForChar(t: string, lines: seq<Line>, offset: int) returns (index: nat)
    requires AreLines(t, lines)
    ensures index < |lines|
    ensures 0 <= offset < |t| ==> lines[index] == LineOf(t, offset)
  {
    if offset < 0 {
      return 0;
    }
    for i := 0 to |lines|
      invariant i > 0 && t != "" ==> lines[i - 1].fullEnd <= offset
    {
      assert i > 0 && t != "" ==> Follows(lines, i - 1);
      assert t != "" ==> IsRealLine(t, lines[i]);
      if offset < lines[i].fullEnd {
        assert t != "" ==> lines[i].start <= offset;
        if offset < |t| { LineAround(t, lines, i, offset); }
        return i;
      }
      if lines[i].fullEnd == lines[i].start == offset {
        return i;
      }
    }
    index := |lines| - 1;
  }

  // --- Pieces --------------------------------------------------------------------------------

  /** The pieces between line feeds; a text that ends in LF has an empty last piece. */
  function Pieces(t: string): (r: seq<string>)
    ensures r != []
    decreases |t|
  {
    if t == "" then [""]
    else
      var rest := Pieces(t[1..]);
      if t[0] == '\n' then [""] + rest else [[t[0]] + rest[0]] + rest[1..]
  }

  lemma {:induction false} PiecesJoin(a: string, b: string)
    ensures Pieces(a + "\n" + b) == Pieces(a) + Pieces(b)
    decreases |a|
  {
    var whole := a + "\n" + b;
    if a == "" {
      assert whole[1..] == b;
    } else {
      assert whole[1..] == a[1..] + "\n" + b;
      PiecesJoin(a[1..], b);
    }
  }

  lemma {:induction false} PiecesClear(t: string)
    requires Clear(t, 0, |t|)
    ensures Pieces(t) == [t]
    decreases |t|
  {
    if t == "" {
    } else {
      forall k | 0 <= k < |t| - 1 ensures t[1..][k] != '\n' { assert t[1..][k] == t[k + 1]; }
      PiecesClear(t[1..]);
      assert [t[0]] + t[1..] == t;
    }
  }

  /** The piece before the first line feed, and the rest. */
  lemma PiecesCons(x: string, y: string)
    requires Clear(x, 0, |x|)
    ensures Pieces(x + "\n" + y) == [x] + Pieces(y)
  {
    PiecesJoin(x, y);
    PiecesClear(x);
  }

  lemma WholeLine(t: string, limit: nat)
    requires Clear(t, 0, |t|)
    ensures Renderable(t, limit) <==> |t| <= limit
  {
    assert Renderable(t, limit) ==> |t| <= limit;
  }

  lemma FirstLineWidth(t: string, k: nat, limit: nat)
    requires k < |t| && t[k] == '\n' && Clear(t, 0, k)
    ensures Renderable(t, limit) <==> k <= limit && Renderable(t[k + 1..], limit)
  {
    var rest := t[k + 1..];
    if Renderable(t, limit) {
      assert Clear(t, 0, k);
      forall i, j | 0 <= i <= j <= |rest| && Clear(rest, i, j) ensures j - i <= limit {
        forall m | k + 1 + i <= m < k + 1 + j ensures t[m] != '\n' { assert t[m] == rest[m - k - 1]; }
        assert Clear(t, k + 1 + i, k + 1 + j);
      }
    }
    if k <= limit && Renderable(rest, limit) {
      forall i, j | 0 <= i <= j <= |t| && Clear(t, i, j) ensures j - i <= limit {
        if i > k {
          forall m | i - k - 1 <= m < j - k - 1 && 0 <= m < |rest|
            ensures rest[m] != '\n'
          {
            assert rest[m] == t[m + k + 1];
          }
          assert Clear(rest, i - k - 1, j - k - 1);
        }
      }
    }
  }

  /** A text is within the width budget exactly when each of its pieces is. */
  lemma {:induction false} PiecesDecideWidth(t: string, limit: nat)
    ensures Renderable(t, limit) <==> forall p | p in Pieces(t) :: |p| <= limit
    decreases |t|
  {
    var k := Find(t, "\n", 0);
    LineEndAt(t, 0);
    if k < 0 {
      PiecesClear(t);
      WholeLine(t, limit);
    } else {
      var x, rest := t[..k], t[k + 1..];
      assert t == x + "\n" + rest && Clear(x, 0, |x|);
      PiecesCons(x, rest);
      PiecesDecideWidth(rest, limit);
      FirstLineWidth(t, k, limit);
      assert forall p :: p in [x] + Pieces(rest) <==> p == x || p in Pieces(rest);
    }
  }

  lemma ClearSlice(t: string, i: nat, j: nat)
    requires i <= j <= |t| && Clear(t, i, j)
    ensures Pieces(t[i..j]) == [t[i..j]]
  {
    var part := t[i..j];
    forall k | 0 <= k < |part| ensures part[k] != '\n' { assert part[k] == t[i + k]; }
    PiecesClear(part);
  }

  function PiecesBefore(t: string, start: nat): seq<string>
    requires start <= |t|
  {
    if start == 0 then [] else Pieces(t[..start - 1])
  }

  lemma {:induction false} PieceCount(t: string)
    ensures |Pieces(t)| == BreakCount(t) + 1
    decreases |t|
  {
    if t == "" {
    } else {
      PieceCount(t[1..]);
      BreakCountConcat([t[0]], t[1..]);
      assert [t[0]] + t[1..] == t && [t[0]][..0] == "";
    }
  }

  function PiecesBehind(t: string, end: nat): seq<string>
    requires end <= |t|
  {
    if end == |t| then [] else Pieces(t[end + 1..])
  }

  lemma HeadPieces(t: string, start: nat, tail: string)
    requires start <= |t| && (start == 0 || t[start - 1] == '\n')
    ensures Pieces(t[..start] + tail) == PiecesBefore(t, start) + Pieces(tail)
  {
    if start == 0 {
      assert t[..0] + tail == tail;
      assert [] + Pieces(tail) == Pieces(tail);
    } else {
      assert t[..start] + tail == t[..start - 1] + "\n" + tail;
      PiecesJoin(t[..start - 1], tail);
    }
  }

  lemma PieceThenTail(t: string, start: nat, end: nat)
    requires start <= end <= |t| && Clear(t, start, end) && (end == |t| || t[end] == '\n')
    ensures Pieces(t[start..]) == [t[start..end]] + PiecesBehind(t, end)
  {
    ClearSlice(t, start, end);
    if end == |t| {
      assert t[start..] == t[start..end];
    } else {
      var p := t[start..end];
      forall k | 0 <= k < |p| ensures p[k] != '\n' { assert p[k] == t[start + k]; }
      assert t[start..] == p + "\n" + t[end + 1..];
      PiecesCons(p, t[end + 1..]);
    }
  }

  // --- Line numbers --------------------------------------------------------------------------

  /** As many line feeds stand before a line as there are lines before it. */
  lemma {:induction false} LineNumber(t: string, lines: seq<Line>, k: nat)
    requires t != "" && AreLines(t, lines) && k < |lines|
    ensures lines[k].start <= |t| && BreakCount(t[..lines[k].start]) == k
  {
    assert IsRealLine(t, lines[k]);
    if k == 0 {
      assert t[..0] == "";
    } else {
      LineNumber(t, lines, k - 1);
      assert IsRealLine(t, lines[k - 1]) && Follows(lines, k - 1);
      BreakCountPast(t, lines[k - 1].start, lines[k - 1].contentEnd);
    }
  }

  lemma LineNumberAround(t: string, lines: seq<Line>, k: nat, x: nat)
    requires t != "" && AreLines(t, lines) && k < |lines| && lines[k].start <= x <= lines[k].contentEnd
    ensures x <= |t| && BreakCount(t[..x]) == k
  {
    assert IsRealLine(t, lines[k]);
    LineNumber(t, lines, k);
    BreakCountClear(t, lines[k].start, x);
  }
}
