/** Trimming blanks and tabs at the ends of lines: runs as patches, and what they leave of each piece. */
module TrimTrailing {
  import opened Prelude
  import opened Renderability
  import opened Edits
  import opened EditHistory
  import opened Patches
  import opened EditPlans
  import opened Lines
  import opened LineMoves
  import opened TextTransform

  const MAX_TRANSFORM_CHANGED_SPANS: nat := 50_000

  predicate Blank(c: char) { c == ' ' || c == '\t' }

  /** Start of the trailing blanks of `t[lo..hi]`. */
  function RunStart(t: string, lo: nat, hi: nat): (s: nat)
    requires lo <= hi <= |t|
    ensures lo <= s <= hi && (forall k | s <= k < hi :: Blank(t[k])) && (s > lo ==> !Blank(t[s - 1]))
    decreases hi - lo
  {
    if lo < hi && Blank(t[hi - 1]) then RunStart(t, lo, hi - 1) else hi
  }

  /** The trailing run of a line, if it has one. */
  function OneRun(t: string, line: Line): (r: seq<Patch>)
    requires line.start <= line.contentEnd <= |t|
    ensures forall p | p in r :: p.start < p.end && p.text == ""
  {
    var start := RunStart(t, line.start, line.contentEnd);
    if start < line.contentEnd then [Patch(start, line.contentEnd, "")] else []
  }

  method TrailingRunForLine(t: string, line: Line) returns (run: Option<Patch>)
    requires line.start <= line.contentEnd <= |t|
    ensures OneRun(t, line) == if run.Some? then [run.value] else []
  {
    var end := line.contentEnd;
    var start := end;
    while start > line.start && (t[start - 1] == ' ' || t[start - 1] == '\t')
      invariant line.start <= start <= end
      invariant RunStart(t, line.start, end) == RunStart(t, line.start, start)
    {
      start := start - 1;
    }
    run := if start == end then None else Some(Patch(start, end, ""));
  }

  /** The runs of the lines from `i` up to `end`, in order. */
  function Runs(t: string, lines: seq<Line>, i: nat, end: nat): (r: seq<Patch>)
    requires t != "" && AreLines(t, lines) && i <= end <= |lines|
    ensures forall p | p in r :: p.start < p.end && p.text == ""
    decreases end - i
  {
    if i == end then []
    else
      assert IsRealLine(t, lines[i]);
      OneRun(t, lines[i]) + Runs(t, lines, i + 1, end)
  }

  /** Where the lines from `i` on begin. */
  function StartOf(t: string, lines: seq<Line>, i: nat): nat
    requires t != "" && AreLines(t, lines) && i <= |lines|
  {
    if i < |lines| then lines[i].start else |t|
  }

  lemma NextStart(t: string, lines: seq<Line>, i: nat)
    requires t != "" && AreLines(t, lines) && i < |lines|
    ensures StartOf(t, lines, i + 1) == lines[i].fullEnd && IsRealLine(t, lines[i]) && StartOf(t, lines, i + 1) <= |t|
  {
    assert IsRealLine(t, lines[i]);
    if i + 1 < |lines| { assert Follows(lines, i) && IsRealLine(t, lines[i + 1]); }
  }

  // --- What is left of each piece ------------------------------------------------------------

  function Stripped(piece: string): string {
    piece[..RunStart(piece, 0, |piece|)]
  }

  function StripFirst(pieces: seq<string>, n: nat): (r: seq<string>)
    ensures |r| == |pieces|
    decreases |pieces|
  {
    if n == 0 || pieces == [] then pieces else [Stripped(pieces[0])] + StripFirst(pieces[1..], n - 1)
  }

  lemma {:induction false} RunStartShifts(t: string, lo: nat, hi: nat)
    requires lo <= hi <= |t|
    ensures RunStart(t, lo, hi) == lo + RunStart(t[lo..hi], 0, hi - lo)
  {
    var part := t[lo..hi];
    var a, b := RunStart(t, lo, hi), lo + RunStart(part, 0, |part|);
    assert forall k | lo <= k < hi :: t[k] == part[k - lo];
    assert a <= b by { assert b > lo ==> part[b - lo - 1] == t[b - 1]; }
    assert b <= a by { assert a > lo ==> t[a - 1] == part[a - 1 - lo]; }
  }

  lemma BuildRun(t: string, rest: seq<Patch>, start: nat, run: nat, end: nat, next: nat)
    requires start <= run < end <= next && Ordered(t, rest, next)
    ensures Ordered(t, [Patch(run, end, "")] + rest, start)
    ensures Build(t, [Patch(run, end, "")] + rest, start) == t[start..run] + (t[end..next] + Build(t, rest, next))
  {
    var ps := [Patch(run, end, "")] + rest;
    BuildFrom(t, rest, end, next);
    assert ps[1..] == rest && ps[0] == Patch(run, end, "");
    assert Build(t, ps, start) == t[start..run] + "" + Build(t, rest, end);
  }

  lemma BuildNoRun(t: string, rest: seq<Patch>, start: nat, end: nat, next: nat)
    requires start <= end <= next && Ordered(t, rest, next)
    ensures Ordered(t, rest, start)
    ensures Build(t, rest, start) == t[start..end] + (t[end..next] + Build(t, rest, next))
  {
    BuildFrom(t, rest, end, next);
    BuildFrom(t, rest, start, end);
  }

  lemma StrippedContent(t: string, start: nat, end: nat)
    requires start <= end <= |t|
    ensures Stripped(t[start..end]) == t[start..RunStart(t, start, end)]
  {
    RunStartShifts(t, start, end);
  }

  /** The text from line `i` on, with the lines before `end` stripped. */
  function Trimmed(t: string, lines: seq<Line>, i: nat, end: nat): string
    requires t != "" && AreLines(t, lines) && i <= end <= |lines|
    decreases end - i
  {
    if i == end then
      if i < |lines| then assert IsRealLine(t, lines[i]); t[lines[i].start..] else ""
    else
      assert IsRealLine(t, lines[i]);
      Stripped(t[lines[i].start..lines[i].contentEnd])
      + (t[lines[i].contentEnd..lines[i].fullEnd] + Trimmed(t, lines, i + 1, end))
  }

  lemma BuildLine(t: string, l: Line, rest: seq<Patch>)
    requires IsRealLine(t, l) && Ordered(t, rest, l.fullEnd)
    ensures Ordered(t, OneRun(t, l) + rest, l.start)
    ensures Build(t, OneRun(t, l) + rest, l.start)
         == Stripped(t[l.start..l.contentEnd]) + (t[l.contentEnd..l.fullEnd] + Build(t, rest, l.fullEnd))
  {
    hide Build, Stripped, Clear;
    StrippedContent(t, l.start, l.contentEnd);
    var run := RunStart(t, l.start, l.contentEnd);
    if run < l.contentEnd {
      BuildRun(t, rest, l.start, run, l.contentEnd, l.fullEnd);
    } else {
      assert [] + rest == rest;
      BuildNoRun(t, rest, l.start, l.contentEnd, l.fullEnd);
    }
  }

  /** Cutting out the runs is stripping the lines. */
  lemma {:induction false} BuildIsTrimmed(t: string, lines: seq<Line>, i: nat, end: nat, start: nat)
    requires t != "" && AreLines(t, lines) && i <= end <= |lines| && start == StartOf(t, lines, i) <= |t|
    ensures Ordered(t, Runs(t, lines, i, end), start)
    ensures Build(t, Runs(t, lines, i, end), start) == Trimmed(t, lines, i, end)
    decreases end - i
  {
    if i == end {
    } else {
      NextStart(t, lines, i);
      BuildIsTrimmed(t, lines, i + 1, end, lines[i].fullEnd);
      BuildLine(t, lines[i], Runs(t, lines, i + 1, end));
    }
  }

  lemma StrippedIsClear(piece: string)
    requires Clear(piece, 0, |piece|)
    ensures Clear(Stripped(piece), 0, |Stripped(piece)|)
  {}

  lemma StripCons(piece: string, rest: seq<string>, n: nat)
    ensures StripFirst([piece] + rest, n + 1) == [Stripped(piece)] + StripFirst(rest, n)
  {
    assert ([piece] + rest)[1..] == rest;
  }

  lemma NoneStripped(pieces: seq<string>)
    ensures StripFirst(pieces, 0) == pieces
  {}

  lemma NothingTrimmed(t: string, lines: seq<Line>, i: nat, end: nat, start: nat)
    requires t != "" && AreLines(t, lines) && i == end <= |lines| && start == StartOf(t, lines, i) <= |t|
    ensures Pieces(Trimmed(t, lines, i, end)) == StripFirst(Pieces(t[start..]), 0)
  {
    assert Trimmed(t, lines, i, end) == t[start..];
    NoneStripped(Pieces(t[start..]));
  }

  lemma EndedPieceStrips(piece: string, source: string, tail: string, n: nat)
    requires Clear(piece, 0, |piece|) && Pieces(tail) == StripFirst(Pieces(source), n)
    ensures Pieces(Stripped(piece) + ("\n" + tail)) == StripFirst([piece] + Pieces(source), n + 1)
  {
    StrippedIsClear(piece);
    StripCons(piece, Pieces(source), n);
    assert Stripped(piece) + ("\n" + tail) == Stripped(piece) + "\n" + tail;
    PiecesCons(Stripped(piece), tail);
  }

  lemma LastPieceStrips(t: string, piece: string, tail: string, l: Line)
    requires Clear(piece, 0, |piece|) && l.contentEnd == l.fullEnd == |t| && tail == ""
    ensures Pieces(Stripped(piece) + (t[l.contentEnd..l.fullEnd] + tail)) == StripFirst([piece] + [], 1)
  {
    StrippedIsClear(piece);
    StripCons(piece, [], 0);
    assert Stripped(piece) + (t[l.contentEnd..l.fullEnd] + tail) == Stripped(piece);
    PiecesClear(Stripped(piece));
  }

  lemma SliceIsClear(t: string, i: nat, j: nat)
    requires i <= j <= |t| && Clear(t, i, j)
    ensures Clear(t[i..j], 0, j - i)
  {
    forall k | 0 <= k < j - i ensures t[i..j][k] != '\n' { assert t[i..j][k] == t[i + k]; }
  }

  lemma LineStrips(t: string, l: Line, source: string, tail: string, n: nat)
    requires IsRealLine(t, l) && source == t[l.fullEnd..] && Pieces(tail) == StripFirst(Pieces(source), n)
    requires l.contentEnd == |t| ==> n == 0 && tail == ""
    ensures Pieces(Stripped(t[l.start..l.contentEnd]) + (t[l.contentEnd..l.fullEnd] + tail))
         == StripFirst(Pieces(t[l.start..]), n + 1)
  {
    hide Pieces, StripFirst, Stripped, Clear;
    var piece := t[l.start..l.contentEnd];
    SliceIsClear(t, l.start, l.contentEnd);
    PieceThenTail(t, l.start, l.contentEnd);
    if l.contentEnd == |t| {
      LastPieceStrips(t, piece, tail, l);
      assert PiecesBehind(t, l.contentEnd) == [];
    } else {
      EndedPieceStrips(piece, source, tail, n);
      assert t[l.contentEnd..l.fullEnd] == "\n" && PiecesBehind(t, l.contentEnd) == Pieces(source);
    }
  }

  lemma LastLineIs(t: string, lines: seq<Line>, i: nat)
    requires t != "" && AreLines(t, lines) && i < |lines| && lines[i].contentEnd == |t|
    ensures i == |lines| - 1
  {
    NextStart(t, lines, i);
    if i < |lines| - 1 { NextStart(t, lines, i + 1); }
  }

  /** From the first line of the scope on: the pieces of its lines are stripped, the later ones are as before. */
  lemma {:induction false} TrimmedStrips(t: string, lines: seq<Line>, i: nat, end: nat, start: nat)
    requires t != "" && AreLines(t, lines) && i <= end <= |lines| && start == StartOf(t, lines, i) <= |t|
    ensures Pieces(Trimmed(t, lines, i, end)) == StripFirst(Pieces(t[start..]), end - i)
    decreases end - i
  {
    if i == end {
      NothingTrimmed(t, lines, i, end, start);
    } else {
      NextStart(t, lines, i);
      TrimmedStrips(t, lines, i + 1, end, lines[i].fullEnd);
      if lines[i].contentEnd == |t| { LastLineIs(t, lines, i); }
      LineStrips(t, lines[i], t[lines[i].fullEnd..], Trimmed(t, lines, i + 1, end), end - i - 1);
    }
  }

  // --- The plan ------------------------------------------------------------------------------

  /** The lines in scope: all of them without a selection, otherwise the selected ones. */
  predicate TrimScope(t: string, view: ViewState, lines: seq<Line>, first: nat, last: nat)
    requires view.insert <= |t| && view.bound <= |t|
  {
    && AreLines(t, lines) && first <= last < |lines|
    && if view.insert == view.bound then first == 0 && last == |lines| - 1
       else t != "" && BlockOf(t, view) == Some((lines[first], lines[last]))
  }

  /** The outcome of trimming the lines `first` to `last`, in the order of the checks. */
  ghost predicate TrimOutcome(t: string, id: nat, view: ViewState, ps: seq<Patch>, r: Result<EditPlan, TransformError>)
    requires Ordered(t, ps, 0)
  {
    if |ps| > MAX_TRANSFORM_CHANGED_SPANS then r == Err(TooManySpans(MAX_TRANSFORM_CHANGED_SPANS + 1))
    else if ps == [] then r == Ok(NoOp(id, t, view))
    else if PatchSize(ps) > MAX_PAYLOAD then r == Err(PayloadTooLarge(PatchSize(ps)))
    else if !Renderable(Build(t, ps, 0), MAX_LINE_CHARS) then
      r.Err? && r.error.LineTooWide? && FirstOffender(Build(t, ps, 0), MAX_LINE_CHARS, r.error.offender)
    else r == Ok(PlanFor(id, t, ps, view, ViewState(MappedCaret(view.insert, t, ps), MappedCaret(view.bound, t, ps))))
  }

  function RunsIn(t: string, lines: seq<Line>, first: nat, last: nat): (ps: seq<Patch>)
    requires AreLines(t, lines) && first <= last < |lines|
    ensures Ordered(t, ps, 0) && forall p | p in ps :: p.start < p.end && p.text == ""
  {
    if t == "" then []
    else
      assert IsRealLine(t, lines[first]);
      BuildIsTrimmed(t, lines, first, last + 1, lines[first].start);
      BuildFrom(t, Runs(t, lines, first, last + 1), 0, lines[first].start);
      Runs(t, lines, first, last + 1)
  }

  ghost predicate TrimSpec(t: string, id: nat, view: ViewState, r: Result<EditPlan, TransformError>) {
    match ValidateInputs(t, id, view)
    case Some(e) => r == Err(e)
    case None =>
      exists lines, first, last | TrimScope(t, view, lines, first, last) ::
        TrimOutcome(t, id, view, RunsIn(t, lines, first, last), r)
  }

  lemma {:induction false} RunsChange(t: string, ps: seq<Patch>, from: nat)
    requires Ordered(t, ps, from) && forall p | p in ps :: p.start < p.end && p.text == ""
    ensures Changed(t, ps, from) == ps
    decreases |ps|
  {
    if ps == [] {
    } else {
      assert ps == [ps[0]] + ps[1..] && ps[0] in ps;
      RunsChange(t, ps[1..], ps[0].end);
    }
  }

  lemma Associate(a: seq<Patch>, b: seq<Patch>, c: seq<Patch>)
    ensures a + (b + c) == (a + b) + c
  {}

  lemma {:induction false} RunsSnoc(t: string, lines: seq<Line>, i: nat, end: nat)
    requires t != "" && AreLines(t, lines) && i < end <= |lines|
    ensures IsRealLine(t, lines[end - 1])
    ensures Runs(t, lines, i, end) == Runs(t, lines, i, end - 1) + OneRun(t, lines[end - 1])
    decreases end - i
  {
    hide IsLine, Follows, OneRun;
    assert IsRealLine(t, lines[end - 1]) && IsRealLine(t, lines[i]);
    if i == end - 1 {
      assert Runs(t, lines, end, end) == [];
    } else {
      RunsSnoc(t, lines, i + 1, end);
      Associate(OneRun(t, lines[i]), Runs(t, lines, i + 1, end - 1), OneRun(t, lines[end - 1]));
    }
  }

  lemma RunsNext(t: string, lines: seq<Line>, first: nat, i: nat, line: Line)
    requires t != "" && AreLines(t, lines) && first <= i < |lines| && line == lines[i]
    ensures line.start <= line.contentEnd <= |t|
    ensures Runs(t, lines, first, i + 1) == Runs(t, lines, first, i) + OneRun(t, line)
  {
    RunsSnoc(t, lines, first, i + 1);
  }

  predicate WithinCap(ps: seq<Patch>, r: Result<seq<Patch>, TransformError>) {
    r == if |ps| > MAX_TRANSFORM_CHANGED_SPANS then Err(TooManySpans(MAX_TRANSFORM_CHANGED_SPANS + 1)) else Ok(ps)
  }

  method AddRun(t: string, line: Line, runs: seq<Patch>) returns (r: seq<Patch>)
    requires line.start <= line.contentEnd <= |t|
    ensures r == runs + OneRun(t, line) && |r| <= |runs| + 1
  {
    var run := TrailingRunForLine(t, line);
    r := if run.Some? then runs + [run.value] else runs;
  }

  lemma {:induction false} RunsGrow(t: string, lines: seq<Line>, first: nat, i: nat, end: nat)
    requires t != "" && AreLines(t, lines) && first <= i <= end <= |lines|
    ensures |Runs(t, lines, first, i)| <= |Runs(t, lines, first, end)|
    decreases end - i
  {
    if i == end {
    } else {
      RunsSnoc(t, lines, first, end);
      RunsGrow(t, lines, first, i, end - 1);
    }
  }

  method CollectFrom(t: string, lines: seq<Line>, first: nat, last: nat) returns (r: Result<seq<Patch>, TransformError>)
    requires t != "" && AreLines(t, lines) && first <= last < |lines|
    ensures WithinCap(Runs(t, lines, first, last + 1), r)
  {
    var runs := [];
    for i := first to last + 1
      invariant runs == Runs(t, lines, first, i)
      invariant |runs| <= MAX_TRANSFORM_CHANGED_SPANS
    {
      RunsNext(t, lines, first, i, lines[i]);
      runs := AddRun(t, lines[i], runs);
      if |runs| > MAX_TRANSFORM_CHANGED_SPANS {
        RunsGrow(t, lines, first, i + 1, last + 1);
        return Err(TooManySpans(|runs|));
      }
    }
    r := Ok(runs);
  }

  method CollectRuns(t: string, lines: seq<Line>, first: nat, last: nat) returns (r: Result<seq<Patch>, TransformError>)
    requires AreLines(t, lines) && first <= last < |lines|
    ensures WithinCap(RunsIn(t, lines, first, last), r)
  {
    if t == "" {
      return Ok([]);
    }
    r := CollectFrom(t, lines, first, last);
  }

  lemma NextDeletion(t: string, ps: seq<Patch>, k: nat)
    requires Ordered(t, ps, 0) && k < |ps| && ps[k].start < ps[k].end && ps[k].text == ""
    ensures ps[k].end <= |t| && Ordered(t, ps[k..], CursorAt(ps, k)) && Ordered(t, ps[k + 1..], ps[k].end)
    ensures DescendingOps(t, ps[k..], CursorAt(ps, k))
         == DescendingOps(t, ps[k + 1..], ps[k].end) + [Op(Delete, ps[k].start, t[ps[k].start..ps[k].end])]
  {
    Tails(t, ps, k);
    assert ps[k..][1..] == ps[k + 1..];
    assert PatchOps(t, ps[k]) == [Op(Delete, ps[k].start, t[ps[k].start..ps[k].end])];
  }

  method DeletionsDescending(t: string, ps: seq<Patch>) returns (r: seq<Op>)
    requires Ordered(t, ps, 0) && forall p | p in ps :: p.start < p.end && p.text == ""
    ensures r == DescendingOps(t, ps, 0)
  {
    r := [];
    Tails(t, ps, |ps|);
    for k := |ps| downto 0
      invariant Ordered(t, ps[k..], CursorAt(ps, k)) && r == DescendingOps(t, ps[k..], CursorAt(ps, k))
    {
      assert ps[k] in ps;
      NextDeletion(t, ps, k);
      r := r + [Op(Delete, ps[k].start, t[ps[k].start..ps[k].end])];
    }
    assert ps[0..] == ps;
  }

  method CutOut(t: string, ps: seq<Patch>) returns (r: string)
    requires Ordered(t, ps, 0) && forall p | p in ps :: p.text == ""
    ensures r == Build(t, ps, 0)
  {
    r := "";
    var cursor := 0;
    for k := 0 to |ps|
      invariant cursor == CursorAt(ps, k) && Ordered(t, ps[k..], cursor)
      invariant r + Build(t, ps[k..], cursor) == Build(t, ps, 0)
    {
      BuildNext(t, ps, k, r);
      assert ps[k] in ps;
      assert r + t[cursor..ps[k].start] + "" == r + t[cursor..ps[k].start];
      r := r + t[cursor..ps[k].start];
      cursor := ps[k].end;
    }
    r := r + t[cursor..];
  }

  lemma MapNext(offset: int, ps: seq<Patch>, k: nat, delta: int)
    requires k < |ps| && offset > ps[k].start && offset > ps[k].end && ps[k].text == ""
    ensures MapOffset(offset, ps[k..], delta) == MapOffset(offset, ps[k + 1..], delta - (ps[k].end - ps[k].start))
  {
    var tail := ps[k..];
    assert tail[0] == ps[k] && tail[1..] == ps[k + 1..];
  }

  method MapOffsetThroughDeletions(offset: nat, ps: seq<Patch>) returns (r: int)
    requires forall p | p in ps :: p.start < p.end && p.text == ""
    ensures r == MapOffset(offset, ps, 0)
  {
    var removed := 0;
    for k := 0 to |ps|
      invariant MapOffset(offset, ps, 0) == MapOffset(offset, ps[k..], -removed)
    {
      assert ps[k] in ps && ps[k..][0] == ps[k] && ps[k..][1..] == ps[k + 1..];
      assert ps[k].start < ps[k].end && ps[k].text == "";
      if offset < ps[k].start {
        break;
      }
      if offset <= ps[k].end {
        return ps[k].start - removed;
      }
      MapNext(offset, ps, k, -removed);
      removed := removed + (ps[k].end - ps[k].start);
    }
    r := offset - removed;
  }

  method PlanRuns(t: string, id: nat, view: ViewState, ps: seq<Patch>) returns (r: Result<EditPlan, TransformError>)
    requires Ordered(t, ps, 0) && |ps| <= MAX_TRANSFORM_CHANGED_SPANS
    requires forall p | p in ps :: p.start < p.end && p.text == ""
    ensures TrimOutcome(t, id, view, ps, r)
  {
    if ps == [] {
      return Ok(NoOp(id, t, view));
    }
    var ops := DeletionsDescending(t, ps);
    var finalText := CutOut(t, ps);
    var insert := MapOffsetThroughDeletions(view.insert, ps);
    var bound := MapOffsetThroughDeletions(view.bound, ps);
    MapNonNegative(t, ps, 0, 0, view.insert);
    MapNonNegative(t, ps, 0, 0, view.bound);
    PatchSizeIsOpsSize(t, ps, 0);
    RunsChange(t, ps, 0);
    var error := PrevalidateFinal(finalText, ops);
    if error.Some? {
      return Err(error.value);
    }
    r := Ok(EditPlan(id, t, finalText, ops, view, ViewState(insert, bound), |ps|));
  }

  method PlanTrimTrailingSpaces(t: string, id: nat, view: ViewState) returns (r: Result<EditPlan, TransformError>)
    ensures TrimSpec(t, id, view, r)
  {
    var invalid := ValidateInputs(t, id, view);
    if invalid.Some? {
      return Err(invalid.value);
    }
    var lines := RealLines(t);
    var first, last := 0, |lines| - 1;
    if view.insert != view.bound {
      var scope := SelectedLineScope(t, lines, view);
      first, last := scope.value.0, scope.value.1;
      NoMoveByIndex(t, lines, view, true, first, last);
    }
    assert TrimScope(t, view, lines, first, last);
    var runs := CollectRuns(t, lines, first, last);
    if runs.Err? {
      return Err(runs.error);
    }
    r := PlanRuns(t, id, view, runs.value);
  }

  lemma TrimmedText(t: string, lines: seq<Line>, first: nat, last: nat, start: nat,
                    built: string) returns (tail: string)
    requires t != "" && AreLines(t, lines) && first <= last < |lines| && start == lines[first].start <= |t|
    requires built == Build(t, RunsIn(t, lines, first, last), 0)
    ensures tail == Trimmed(t, lines, first, last + 1) && built == t[..start] + tail
  {
    BuildIsTrimmed(t, lines, first, last + 1, start);
    BuildFrom(t, Runs(t, lines, first, last + 1), 0, start);
    assert t[0..start] == t[..start];
    tail := Trimmed(t, lines, first, last + 1);
  }

  lemma TrimmedTail(t: string, lines: seq<Line>, first: nat, last: nat, start: nat, tail: string)
    requires t != "" && AreLines(t, lines) && first <= last < |lines| && start == lines[first].start <= |t|
    requires tail == Trimmed(t, lines, first, last + 1)
    ensures Pieces(tail) == StripFirst(Pieces(t[start..]), last + 1 - first)
  {
    TrimmedStrips(t, lines, first, last + 1, start);
  }

  lemma SplitPieces(t: string, start: nat, tail: string, built: string, n: nat)
    requires start <= |t| && (start == 0 || t[start - 1] == '\n')
    requires built == t[..start] + tail && Pieces(tail) == StripFirst(Pieces(t[start..]), n)
    ensures Pieces(t) == PiecesBefore(t, start) + Pieces(t[start..])
    ensures Pieces(built) == PiecesBefore(t, start) + StripFirst(Pieces(t[start..]), n)
  {
    assert t == t[..start] + t[start..];
    HeadPieces(t, start, t[start..]);
    HeadPieces(t, start, tail);
  }

  lemma TrimmedPieces(t: string, lines: seq<Line>, first: nat, last: nat, start: nat, built: string)
    requires t != "" && AreLines(t, lines) && first <= last < |lines| && start == lines[first].start <= |t|
    requires (start == 0 || t[start - 1] == '\n') && built == Build(t, RunsIn(t, lines, first, last), 0)
    ensures Pieces(t) == PiecesBefore(t, start) + Pieces(t[start..])
    ensures Pieces(built) == PiecesBefore(t, start) + StripFirst(Pieces(t[start..]), last + 1 - first)
  {
    hide Build, RunsIn, Trimmed, Pieces, StripFirst, PiecesBefore, AreLines;
    var tail := TrimmedText(t, lines, first, last, start, built);
    TrimmedTail(t, lines, first, last, start, tail);
    SplitPieces(t, start, tail, built, last + 1 - first);
  }

  lemma TrimOutcomeIsGood(t: string, id: nat, view: ViewState, ps: seq<Patch>, plan: EditPlan)
    requires view.insert <= |t| && view.bound <= |t| && Ordered(t, ps, 0)
    requires (forall p | p in ps :: p.start < p.end && p.text == "") && TrimOutcome(t, id, view, ps, Ok(plan))
    ensures GoodPlan(plan) && plan.finalText == Build(t, ps, 0)
    ensures plan.targetView == ViewState(MappedCaret(view.insert, t, ps), MappedCaret(view.bound, t, ps))
    ensures plan.targetView.insert <= |plan.finalText| && plan.targetView.bound <= |plan.finalText|
  {
    RunsChange(t, ps, 0);
    hide GoodPlan, Build, DescendingOps;
    if ps == [] {
      NoOpIsGood(id, t, view);
      NothingChanged(t, ps);
    } else {
      PlanForIsGood(id, t, ps, view, plan.targetView);
      MapInBounds(t, ps, 0, 0, view.insert);
      MapInBounds(t, ps, 0, 0, view.bound);
    }
  }

  /**
    A trim plan replays; in scope each piece loses exactly its trailing blanks, all others are as before,
    and the caret stays in the text.
   */
  lemma TrimPlanIsGood(t: string, id: nat, view: ViewState, lines: seq<Line>, first: nat, last: nat, plan: EditPlan)
    requires view.insert <= |t| && view.bound <= |t| && TrimScope(t, view, lines, first, last) && t != ""
    requires TrimOutcome(t, id, view, RunsIn(t, lines, first, last), Ok(plan))
    ensures GoodPlan(plan) && IsRealLine(t, lines[first])
    ensures var start := lines[first].start;
            && Pieces(t) == PiecesBefore(t, start) + Pieces(t[start..])
            && Pieces(plan.finalText) == PiecesBefore(t, start) + StripFirst(Pieces(t[start..]), last + 1 - first)
    ensures var ps := RunsIn(t, lines, first, last);
            plan.targetView == ViewState(MappedCaret(view.insert, t, ps), MappedCaret(view.bound, t, ps))
    ensures plan.targetView.insert <= |plan.finalText| && plan.targetView.bound <= |plan.finalText|
  {
    hide GoodPlan, TrimOutcome, Build, Pieces, PiecesBefore, StripFirst, RunsIn;
    var ps := RunsIn(t, lines, first, last);
    assert IsRealLine(t, lines[first]);
    TrimmedPieces(t, lines, first, last, lines[first].start, Build(t, ps, 0));
    TrimOutcomeIsGood(t, id, view, ps, plan);
  }

  /** Stripping keeps everything up to the last character that is neither a blank nor a tab. */
  lemma StrippedMeaning(piece: string)
    ensures Stripped(piece) <= piece
    ensures Stripped(piece) == "" || Stripped(piece)[|Stripped(piece)| - 1] !in {' ', '\t'}
    ensures forall k | |Stripped(piece)| <= k < |piece| :: piece[k] in {' ', '\t'}
  {}

  // --- What the outcome means ----------------------------------------------------------------

  /** Whether the piece with this number is trimmed: every one without a selection, else those it touches. */
  predicate InScope(t: string, view: ViewState, i: nat)
    requires view.insert <= |t| && view.bound <= |t|
  {
    view.insert == view.bound ||
    BreakCount(t[..SelectionStart(view)]) <= i <= BreakCount(t[..SelectionEnd(view) - 1])
  }

  lemma ScopeByNumber(t: string, view: ViewState, lines: seq<Line>, first: nat, last: nat)
    requires view.insert <= |t| && view.bound <= |t| && t != "" && TrimScope(t, view, lines, first, last)
    ensures BreakCount(t[..lines[first].start]) == first
    ensures view.insert != view.bound ==>
              first == BreakCount(t[..SelectionStart(view)]) && last == BreakCount(t[..SelectionEnd(view) - 1])
  {
    LineNumber(t, lines, first);
    if view.insert != view.bound {
      LineNumberAround(t, lines, first, SelectionStart(view));
      LineNumberAround(t, lines, last, SelectionEnd(view) - 1);
    }
  }

  lemma {:induction false} StripFirstAt(pieces: seq<string>, n: nat, i: nat)
    requires i < |pieces|
    ensures StripFirst(pieces, n)[i] == if i < n then Stripped(pieces[i]) else pieces[i]
    decreases |pieces|
  {
    if n > 0 && i > 0 { StripFirstAt(pieces[1..], n - 1, i - 1); }
  }

  /** The pieces of the trimmed text: those in scope stripped, the others as before. */
  ghost predicate IsTrimmedText(t: string, view: ViewState, u: string)
    requires view.insert <= |t| && view.bound <= |t|
  {
    && |Pieces(u)| == |Pieces(t)|
    && forall i | 0 <= i < |Pieces(t)| ::
         Pieces(u)[i] == if InScope(t, view, i) then Stripped(Pieces(t)[i]) else Pieces(t)[i]
  }

  lemma CountBefore(t: string, start: nat)
    requires start <= |t| && (start == 0 || t[start - 1] == '\n')
    ensures |PiecesBefore(t, start)| == BreakCount(t[..start])
  {
    if start > 0 {
      PieceCount(t[..start - 1]);
      assert t[..start][..start - 1] == t[..start - 1];
    }
  }

  lemma LastPieceIsEmpty(t: string)
    requires t != "" && t[|t| - 1] == '\n'
    ensures Pieces(t)[|Pieces(t)| - 1] == ""
  {
    assert t == t[..|t| - 1] + "\n" + "";
    PiecesJoin(t[..|t| - 1], "");
  }

  lemma LinesCount(t: string, lines: seq<Line>)
    requires t != "" && AreLines(t, lines)
    ensures |Pieces(t)| == |lines| + (if t[|t| - 1] == '\n' then 1 else 0)
  {
    var last := |lines| - 1;
    assert IsRealLine(t, lines[last]) && t[..|t|] == t;
    PieceCount(t);
    LineNumber(t, lines, last);
    hide AreLines, Pieces, BreakCount;
    if lines[last].contentEnd == |t| {
      BreakCountClear(t, lines[last].start, |t|);
    } else {
      BreakCountPast(t, lines[last].start, lines[last].contentEnd);
    }
  }

  /** A text that ends in LF has one piece more than lines, an empty one. */
  lemma PieceBehindLines(t: string, lines: seq<Line>, i: nat)
    requires t != "" && AreLines(t, lines) && |lines| <= i < |Pieces(t)|
    ensures Pieces(t)[i] == ""
  {
    hide AreLines, Pieces;
    LinesCount(t, lines);
    LastPieceIsEmpty(t);
  }

  lemma LastIsEmpty(t: string, view: ViewState, lines: seq<Line>, first: nat, last: nat, i: nat)
    requires view.insert == view.bound <= |t| && t != "" && TrimScope(t, view, lines, first, last)
    requires last < i < |Pieces(t)|
    ensures Pieces(t)[i] == Stripped(Pieces(t)[i]) == ""
  {
    PieceBehindLines(t, lines, i);
  }

  lemma StrippedAt(before: seq<string>, a: seq<string>, n: nat, i: nat)
    requires i < |before + a|
    ensures (before + StripFirst(a, n))[i]
         == if |before| <= i < |before| + n then Stripped((before + a)[i]) else (before + a)[i]
  {
    if i >= |before| { StripFirstAt(a, n, i - |before|); }
  }

  /** The lines planned for are the pieces in scope, but for an empty one behind the last line. */
  lemma ScopeDecides(t: string, view: ViewState, lines: seq<Line>, first: nat, last: nat, i: nat)
    requires view.insert <= |t| && view.bound <= |t| && t != "" && TrimScope(t, view, lines, first, last)
    requires i < |Pieces(t)|
    ensures first <= i <= last ==> InScope(t, view, i)
    ensures InScope(t, view, i) && !(first <= i <= last) ==> Stripped(Pieces(t)[i]) == Pieces(t)[i]
  {
    ScopeByNumber(t, view, lines, first, last);
    if view.insert == view.bound && i > last { PieceBehindLines(t, lines, i); }
  }

  lemma ScopedPiece(t: string, view: ViewState, lines: seq<Line>, first: nat, last: nat, before: seq<string>,
                    a: seq<string>, i: nat)
    requires view.insert <= |t| && view.bound <= |t| && t != "" && first <= last
    requires TrimScope(t, view, lines, first, last)
    requires Pieces(t) == before + a && |before| == first && i < |Pieces(t)|
    ensures (before + StripFirst(a, last + 1 - first))[i]
         == if InScope(t, view, i) then Stripped(Pieces(t)[i]) else Pieces(t)[i]
  {
    hide Pieces, StripFirst, Stripped, InScope, TrimScope;
    StrippedAt(before, a, last + 1 - first, i);
    ScopeDecides(t, view, lines, first, last, i);
  }

  lemma TrimmedIf(t: string, view: ViewState, u: string)
    requires view.insert <= |t| && view.bound <= |t| && |Pieces(u)| == |Pieces(t)|
    requires forall i | 0 <= i < |Pieces(t)| ::
               Pieces(u)[i] == if InScope(t, view, i) then Stripped(Pieces(t)[i]) else Pieces(t)[i]
    ensures IsTrimmedText(t, view, u)
  {}

  lemma FirstStart(t: string, lines: seq<Line>, first: nat)
    requires t != "" && AreLines(t, lines) && first < |lines|
    ensures var start := lines[first].start;
            start == StartOf(t, lines, first) <= |t| && (start == 0 || t[start - 1] == '\n')
  {
    assert IsRealLine(t, lines[first]);
  }

  lemma PiecesTrimmed(t: string, view: ViewState, lines: seq<Line>, first: nat, last: nat, u: string)
    requires view.insert <= |t| && view.bound <= |t| && t != "" && AreLines(t, lines) && first <= last < |lines|
    requires TrimScope(t, view, lines, first, last) && u == Build(t, RunsIn(t, lines, first, last), 0)
    ensures IsTrimmedText(t, view, u)
  {
    hide *;
    LineNumber(t, lines, first);
    FirstStart(t, lines, first);
    var start := lines[first].start;
    TrimmedPieces(t, lines, first, last, start, u);
    CountBefore(t, start);
    forall i | 0 <= i < |Pieces(t)|
      ensures Pieces(u)[i] == if InScope(t, view, i) then Stripped(Pieces(t)[i]) else Pieces(t)[i]
    {
      ScopedPiece(t, view, lines, first, last, PiecesBefore(t, start), Pieces(t[start..]), i);
    }
    TrimmedIf(t, view, u);
  }

  lemma NothingToTrim(view: ViewState)
    requires view.insert == view.bound == 0
    ensures IsTrimmedText("", view, "")
  {
    assert Pieces("") == [""] && Stripped("") == "";
  }

  lemma CutIsTrimmed(t: string, view: ViewState, lines: seq<Line>, first: nat, last: nat)
    requires view.insert <= |t| && view.bound <= |t| && AreLines(t, lines) && first <= last < |lines|
    requires TrimScope(t, view, lines, first, last)
    ensures IsTrimmedText(t, view, Build(t, RunsIn(t, lines, first, last), 0))
  {
    hide IsTrimmedText, TrimScope, AreLines;
    if t == "" {
      NothingToTrim(view);
      assert Build(t, RunsIn(t, lines, first, last), 0) == "";
    } else {
      PiecesTrimmed(t, view, lines, first, last, Build(t, RunsIn(t, lines, first, last), 0));
    }
  }

  lemma ScopeOf(t: string, id: nat, view: ViewState, r: Result<EditPlan, TransformError>)
    returns (lines: seq<Line>, first: nat, last: nat)
    requires TrimSpec(t, id, view, r) && ValidateInputs(t, id, view).None?
    ensures AreLines(t, lines) && first <= last < |lines| && TrimScope(t, view, lines, first, last)
    ensures TrimOutcome(t, id, view, RunsIn(t, lines, first, last), r)
  {
    lines, first, last :| TrimScope(t, view, lines, first, last) &&
                          TrimOutcome(t, id, view, RunsIn(t, lines, first, last), r);
  }

  /** In how many places the two lists differ. */
  function Differences(a: seq<string>, b: seq<string>): nat
    requires |a| == |b|
  {
    if a == [] then 0 else (if a[0] != b[0] then 1 else 0) + Differences(a[1..], b[1..])
  }

  lemma {:induction false} SameHead(head: seq<string>, a: seq<string>, b: seq<string>)
    requires |a| == |b|
    ensures Differences(head + a, head + b) == Differences(a, b)
    decreases |head|
  {
    if head == [] {
      assert head + a == a && head + b == b;
    } else {
      assert (head + a)[1..] == head[1..] + a && (head + b)[1..] == head[1..] + b;
      SameHead(head[1..], a, b);
    }
  }

  lemma NoDifference(a: seq<string>)
    ensures Differences(a, a) == 0
  {}

  lemma OneRunCounts(t: string, l: Line)
    requires l.start <= l.contentEnd <= |t|
    ensures |OneRun(t, l)| == if Stripped(t[l.start..l.contentEnd]) != t[l.start..l.contentEnd] then 1 else 0
  {
    StrippedContent(t, l.start, l.contentEnd);
  }

  lemma LineCounts(t: string, l: Line, later: nat, n: nat)
    requires IsRealLine(t, l) && (l.contentEnd == |t| ==> n == 0)
    requires later == Differences(Pieces(t[l.fullEnd..]), StripFirst(Pieces(t[l.fullEnd..]), n))
    ensures |OneRun(t, l)| + later == Differences(Pieces(t[l.start..]), StripFirst(Pieces(t[l.start..]), n + 1))
  {
    var piece, rest := t[l.start..l.contentEnd], PiecesBehind(t, l.contentEnd);
    OneRunCounts(t, l);
    PieceThenTail(t, l.start, l.contentEnd);
    StripCons(piece, rest, n);
    hide Pieces, Stripped, OneRun;
    assert ([piece] + rest)[1..] == rest && ([Stripped(piece)] + StripFirst(rest, n))[1..] == StripFirst(rest, n);
    if l.contentEnd == |t| {
      NoneStripped(Pieces(t[l.fullEnd..]));
      NoDifference(Pieces(t[l.fullEnd..]));
    } else {
      assert rest == Pieces(t[l.fullEnd..]);
    }
  }

  /** There is one run for each piece that stripping changes. */
  lemma {:induction false} RunsCount(t: string, lines: seq<Line>, i: nat, end: nat, start: nat)
    requires t != "" && AreLines(t, lines) && i <= end <= |lines| && start == StartOf(t, lines, i) <= |t|
    ensures |Runs(t, lines, i, end)| == Differences(Pieces(t[start..]), StripFirst(Pieces(t[start..]), end - i))
    decreases end - i
  {
    hide Pieces, StripFirst, OneRun, Differences;
    if i == end {
      NoneStripped(Pieces(t[start..]));
      NoDifference(Pieces(t[start..]));
    } else {
      NextStart(t, lines, i);
      RunsCount(t, lines, i + 1, end, lines[i].fullEnd);
      if lines[i].contentEnd == |t| { LastLineIs(t, lines, i); }
      LineCounts(t, lines[i], |Runs(t, lines, i + 1, end)|, end - i - 1);
    }
  }

  lemma {:induction false} RemovedSize(t: string, ps: seq<Patch>, from: nat)
    requires Ordered(t, ps, from) && forall p | p in ps :: p.text == ""
    ensures PatchSize(ps) == |t| - from - |Build(t, ps, from)|
    decreases |ps|
  {
    if ps == [] {
    } else {
      assert ps == [ps[0]] + ps[1..] && ps[0] in ps;
      RemovedSize(t, ps[1..], ps[0].end);
    }
  }

  lemma RunsInIs(t: string, lines: seq<Line>, first: nat, last: nat)
    requires t != "" && AreLines(t, lines) && first <= last < |lines|
    ensures RunsIn(t, lines, first, last) == Runs(t, lines, first, last + 1)
    ensures StartOf(t, lines, first) == lines[first].start
  {}

  lemma SameHeadOf(x: seq<string>, y: seq<string>, head: seq<string>, a: seq<string>, b: seq<string>)
    requires |a| == |b| && x == head + a && y == head + b
    ensures |x| == |y| && Differences(x, y) == Differences(a, b)
  {
    SameHead(head, a, b);
  }

  lemma CutCountsFrom(t: string, lines: seq<Line>, first: nat, last: nat, u: string, start: nat)
    requires t != "" && AreLines(t, lines) && first <= last < |lines| && u == Build(t, RunsIn(t, lines, first, last), 0)
    requires start == lines[first].start <= |t| && (start == 0 || t[start - 1] == '\n')
    ensures |Pieces(u)| == |Pieces(t)|
    ensures Differences(Pieces(t[start..]), StripFirst(Pieces(t[start..]), last + 1 - first))
         == Differences(Pieces(t), Pieces(u))
  {
    hide Pieces, PiecesBefore, StripFirst, AreLines, Build, RunsIn, Differences;
    TrimmedPieces(t, lines, first, last, start, u);
    var a := Pieces(t[start..]);
    SameHeadOf(Pieces(t), Pieces(u), PiecesBefore(t, start), a, StripFirst(a, last + 1 - first));
  }

  lemma CutCountsRuns(t: string, lines: seq<Line>, first: nat, last: nat, u: string)
    requires t != "" && AreLines(t, lines) && first <= last < |lines| && u == Build(t, RunsIn(t, lines, first, last), 0)
    ensures |Pieces(u)| == |Pieces(t)| && |RunsIn(t, lines, first, last)| == Differences(Pieces(t), Pieces(u))
  {
    hide *;
    FirstStart(t, lines, first);
    RunsInIs(t, lines, first, last);
    CutCountsFrom(t, lines, first, last, u, lines[first].start);
    RunsCount(t, lines, first, last + 1, lines[first].start);
  }

  lemma CutCounts(t: string, lines: seq<Line>, first: nat, last: nat)
    requires AreLines(t, lines) && first <= last < |lines|
    ensures
      var ps := RunsIn(t, lines, first, last);
      var u := Build(t, ps, 0);
      |Pieces(u)| == |Pieces(t)| && |ps| == Differences(Pieces(t), Pieces(u)) && PatchSize(ps) == |t| - |u|
  {
    var ps := RunsIn(t, lines, first, last);
    RemovedSize(t, ps, 0);
    if t == "" {
      NoDifference(Pieces(t));
    } else {
      CutCountsRuns(t, lines, first, last, Build(t, ps, 0));
    }
  }

  /** Stripped pieces are no longer than before, so a text within the budget stays there. */
  lemma TrimKeepsWidth(t: string, view: ViewState, u: string, limit: nat)
    requires view.insert <= |t| && view.bound <= |t| && IsTrimmedText(t, view, u) && Renderable(t, limit)
    ensures Renderable(u, limit)
  {
    PiecesDecideWidth(t, limit);
    PiecesDecideWidth(u, limit);
    forall i | 0 <= i < |Pieces(u)| ensures |Pieces(u)[i]| <= |Pieces(t)[i]| {}
  }

  lemma RemovedNothing(t: string, ps: seq<Patch>)
    requires ps == []
    ensures Ordered(t, ps, 0) && Build(t, ps, 0) == t
  {}

  /**
    Trimming yields the text whose pieces in scope are stripped.  It fails exactly when more than 50,000 pieces would
    change, more than 16,000,000 characters would go, or, in a text too wide already, a line stays too wide.
   */
  lemma TrimDecides(t: string, id: nat, view: ViewState, r: Result<EditPlan, TransformError>) returns (u: string)
    requires TrimSpec(t, id, view, r) && ValidateInputs(t, id, view).None?
    ensures IsTrimmedText(t, view, u)
    ensures
      var changes := Differences(Pieces(t), Pieces(u));
      if changes > 50_000 then r == Err(TooManySpans(50_001))
      else if |t| - |u| > 16_000_000 then r == Err(PayloadTooLarge(|t| - |u|))
      else if changes > 0 && !Renderable(u, MAX_LINE_CHARS) then
        r.Err? && r.error.LineTooWide? && !Renderable(t, MAX_LINE_CHARS)
      else r.Ok? && GoodPlan(r.value) && r.value.finalText == u && r.value.changedCount == changes
  {
    hide Pieces, TrimScope, AreLines, Differences, IsTrimmedText, Renderable, FirstOffender, GoodPlan, Build, RunsIn,
         PatchSize;
    var lines, first, last := ScopeOf(t, id, view, r);
    var ps := RunsIn(t, lines, first, last);
    u := Build(t, ps, 0);
    CutIsTrimmed(t, view, lines, first, last);
    CutCounts(t, lines, first, last);
    if Renderable(t, MAX_LINE_CHARS) { TrimKeepsWidth(t, view, u, MAX_LINE_CHARS); }
    if r.Ok? {
      TrimOutcomeIsGood(t, id, view, ps, r.value);
      RunsChange(t, ps, 0);
    }
    if ps == [] { RemovedNothing(t, ps); }
  }
}
