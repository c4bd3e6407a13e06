/**
  Print pagination: indivisible visual lines are packed into pages, at once or chunk by chunk.
  Heights are real numbers.
 */
module Pagination {
  import opened Prelude

  // --- What a pagination is ------------------------------------------------------------------

  datatype Page = Page(start: nat, end: nat)

  function Sum(h: seq<real>, a: nat, b: nat): real
    requires a <= b <= |h|
    decreases b - a
  {
    if a == b then 0.0 else Sum(h, a, b - 1) + h[b - 1]
  }

  predicate Positive(h: seq<real>) {
    forall i | 0 <= i < |h| :: h[i] > 0.0
  }

  /** A page holds what fits, or one line; and it ends where the next line would not fit, or at the end. */
  predicate PageOk(h: seq<real>, usable: real, p: Page) {
    && p.start < p.end <= |h|
    && (p.end - p.start > 1 ==> Sum(h, p.start, p.end) <= usable)
    && (p.end < |h| ==> Sum(h, p.start, p.end) + h[p.end] > usable)
  }

  function PageStart(ps: seq<Page>, k: nat): nat
    requires k <= |ps|
  {
    if k == 0 then 0 else ps[k - 1].end
  }

  /** The pages cover the first `n` lines, each once, in order. */
  predicate Cover(ps: seq<Page>, n: nat) {
    && (forall k {:trigger PageStart(ps, k)} | 0 <= k < |ps| :: ps[k].start == PageStart(ps, k))
    && PageStart(ps, |ps|) == n
  }

  /** The greedy pagination, by its properties alone. */
  predicate GreedyPages(h: seq<real>, usable: real, ps: seq<Page>) {
    Cover(ps, |h|) && forall p | p in ps :: PageOk(h, usable, p)
  }

  // --- The algorithm as a function of the lines seen -----------------------------------------

  datatype Fill = Fill(pages: seq<Page>, start: nat, used: real)

  /** Line number `n`: on the page being filled, or on a new one if that page has lines and this one does not fit. */
  function NextFill(f: Fill, n: nat, height: real, usable: real): Fill {
    if n > f.start && f.used + height > usable then Fill(f.pages + [Page(f.start, n)], n, height)
    else f.(used := f.used + height)
  }

  function Filled(h: seq<real>, n: nat, usable: real): (f: Fill)
    requires n <= |h|
    decreases n
  {
    if n == 0 then Fill([], 0, 0.0)
    else
      NextFill(Filled(h, n - 1, usable), n - 1, h[n - 1], usable)
  }

  function FlatPages(h: seq<real>, usable: real): seq<Page> {
    if h == [] then [Page(0, 1)] else Filled(h, |h|, usable).pages + [Page(Filled(h, |h|, usable).start, |h|)]
  }

  predicate AllOk(h: seq<real>, usable: real, ps: seq<Page>, n: int) {
    forall p | p in ps :: PageOk(h, usable, p) && p.end < n
  }

  predicate FillOk(h: seq<real>, n: nat, usable: real, f: Fill)
    requires n <= |h|
  {
    && f.start <= n && (n > 0 ==> f.start < n) && f.used == Sum(h, f.start, n)
    && (n - f.start > 1 ==> f.used <= usable)
    && Cover(f.pages, f.start) && AllOk(h, usable, f.pages, n)
  }

  lemma CoverSnoc(ps: seq<Page>, p: Page)
    requires Cover(ps, p.start)
    ensures Cover(ps + [p], p.end)
  {
    var longer := ps + [p];
    forall k | 0 <= k < |longer| ensures longer[k].start == PageStart(longer, k) {
      assert k < |ps| ==> ps[k].start == PageStart(ps, k) && PageStart(longer, k) == PageStart(ps, k);
    }
  }

  lemma ClosedPageOk(h: seq<real>, n: nat, usable: real, start: nat, used: real)
    requires 0 < n <= |h| && start < n - 1 && used == Sum(h, start, n - 1) && used + h[n - 1] > usable
    requires n - 1 - start > 1 ==> used <= usable
    ensures PageOk(h, usable, Page(start, n - 1))
  {}

  lemma AllOkSnoc(h: seq<real>, usable: real, ps: seq<Page>, page: Page, n: nat)
    requires AllOk(h, usable, ps, n - 1) && PageOk(h, usable, page) && page.end < n
    ensures AllOk(h, usable, ps + [page], n)
  {}

  lemma PageCloses(h: seq<real>, n: nat, usable: real, f: Fill)
    requires 0 < n <= |h| && FillOk(h, n - 1, usable, f) && n - 1 > f.start && f.used + h[n - 1] > usable
    ensures Cover(f.pages + [Page(f.start, n - 1)], n - 1) && AllOk(h, usable, f.pages + [Page(f.start, n - 1)], n)
  {
    var page := Page(f.start, n - 1);
    ClosedPageOk(h, n, usable, f.start, f.used);
    CoverSnoc(f.pages, page);
    AllOkSnoc(h, usable, f.pages, page, n);
  }

  lemma NextLineIsOk(h: seq<real>, n: nat, usable: real, f: Fill)
    requires 0 < n <= |h| && FillOk(h, n - 1, usable, f)
    ensures FillOk(h, n, usable, NextFill(f, n - 1, h[n - 1], usable))
  {
    if n - 1 > f.start && f.used + h[n - 1] > usable {
      PageCloses(h, n, usable, f);
      assert Sum(h, n - 1, n) == Sum(h, n - 1, n - 1) + h[n - 1];
    }
  }

  lemma {:induction false} FilledIsOk(h: seq<real>, n: nat, usable: real)
    requires n <= |h|
    ensures FillOk(h, n, usable, Filled(h, n, usable))
    decreases n
  {
    if n == 0 {
    } else {
      FilledIsOk(h, n - 1, usable);
      NextLineIsOk(h, n, usable, Filled(h, n - 1, usable));
    }
  }

  /** Every page holds what fits or a single line, ends as late as it can, and every line is on one page. */
  lemma FlatPagesAreGreedy(h: seq<real>, usable: real)
    requires h != []
    ensures GreedyPages(h, usable, FlatPages(h, usable))
  {
    FilledIsOk(h, |h|, usable);
    var f := Filled(h, |h|, usable);
    CoverSnoc(f.pages, Page(f.start, |h|));
  }

  lemma {:induction false} SumGrows(h: seq<real>, a: nat, b: nat, c: nat)
    requires a <= b <= c <= |h| && Positive(h)
    ensures Sum(h, a, b) <= Sum(h, a, c)
    decreases c - b
  {
    if b == c {
    } else {
      SumGrows(h, a, b, c - 1);
    }
  }

  lemma PageEndsAgree(h: seq<real>, usable: real, p: Page, q: Page)
    requires Positive(h) && PageOk(h, usable, p) && PageOk(h, usable, q) && p.start == q.start
    ensures p.end >= q.end
  {
    if p.end < q.end {
      SumGrows(h, p.start, p.end + 1, q.end);
      assert false;
    }
  }

  lemma NextPageAgrees(h: seq<real>, usable: real, ps: seq<Page>, qs: seq<Page>, k: nat)
    requires Positive(h) && GreedyPages(h, usable, ps) && GreedyPages(h, usable, qs) && k < |ps| && k < |qs|
    requires PageStart(ps, k) == PageStart(qs, k)
    ensures ps[k] == qs[k]
  {
    assert ps[k] in ps && qs[k] in qs;
    PageEndsAgree(h, usable, ps[k], qs[k]);
    PageEndsAgree(h, usable, qs[k], ps[k]);
  }

  /** Those properties leave no choice: there is one greedy pagination. */
  lemma {:induction false} GreedyIsUnique(h: seq<real>, usable: real, ps: seq<Page>, qs: seq<Page>, k: nat)
    requires Positive(h) && GreedyPages(h, usable, ps) && GreedyPages(h, usable, qs) && k <= |ps| && k <= |qs|
    ensures ps[..k] == qs[..k]
    decreases k
  {
    if k == 0 {
    } else {
      GreedyIsUnique(h, usable, ps, qs, k - 1);
      assert k > 1 ==> ps[..k - 1][k - 2] == qs[..k - 1][k - 2];
      NextPageAgrees(h, usable, ps, qs, k - 1);
      assert ps[..k] == ps[..k - 1] + [ps[k - 1]] && qs[..k] == qs[..k - 1] + [qs[k - 1]];
    }
  }

  lemma StopsTogether(h: seq<real>, usable: real, ps: seq<Page>, qs: seq<Page>)
    requires GreedyPages(h, usable, ps) && GreedyPages(h, usable, qs) && |ps| <= |qs| && ps == qs[..|ps|]
    ensures ps == qs
  {
    assert |ps| > 0 ==> qs[..|ps|][|ps| - 1] == qs[|ps| - 1];
    assert |ps| < |qs| ==> qs[|ps|] in qs && qs[|ps|].start == PageStart(qs, |ps|) == PageStart(ps, |ps|);
  }

  lemma GreedyPagesAreFlat(h: seq<real>, usable: real, ps: seq<Page>)
    requires h != [] && Positive(h)
    ensures GreedyPages(h, usable, ps) <==> ps == FlatPages(h, usable)
  {
    var qs := FlatPages(h, usable);
    FlatPagesAreGreedy(h, usable);
    if GreedyPages(h, usable, ps) {
      if |ps| <= |qs| {
        GreedyIsUnique(h, usable, ps, qs, |ps|);
        assert ps[..|ps|] == ps;
        StopsTogether(h, usable, ps, qs);
      } else {
        GreedyIsUnique(h, usable, ps, qs, |qs|);
        assert qs[..|qs|] == qs;
        StopsTogether(h, usable, qs, ps);
      }
    }
  }

  /** A text without lines is printed as one page, like a text of one line. */
  lemma NoLinesTakeOnePage(height: real, usable: real)
    requires height > 0.0
    ensures FlatPages([], usable) == FlatPages([height], usable) == [Page(0, 1)]
  {
    assert Filled([height], 0, usable) == Fill([], 0, 0.0);
  }

  datatype PageError = BadUsableHeight | BadHeights | AlreadyFinished

  method PaginateVisualLineHeights(h: seq<real>, usable: real) returns (r: Result<seq<Page>, PageError>)
    ensures r == if usable <= 0.0 then Err(BadUsableHeight)
                 else if h != [] && !Positive(h) then Err(BadHeights) else Ok(FlatPages(h, usable))
  {
    if usable <= 0.0 {
      return Err(BadUsableHeight);
    }
    if h == [] {
      return Ok([Page(0, 1)]);
    }
    if !Positive(h) {
      return Err(BadHeights);
    }
    var pages, start, used := [], 0, 0.0;
    for index := 0 to |h|
      invariant Fill(pages, start, used) == Filled(h, index, usable)
    {
      if index > start && used + h[index] > usable {
        pages := pages + [Page(start, index)];
        start := index;
        used := 0.0;
      }
      used := used + h[index];
    }
    r := Ok(pages + [Page(start, |h|)]);
  }

  // --- Chunk by chunk ------------------------------------------------------------------------

  /** A run of visual lines of one chunk. */
  datatype Span = Span(chunk: nat, start: nat, end: nat)

  /** One visual line: its chunk and its number there. */
  datatype VisualLine = VisualLine(chunk: nat, line: nat)

  function LinesOf(span: Span): (r: seq<VisualLine>)
    ensures |r| == Max(0, span.end - span.start)
  {
    seq(Max(0, span.end - span.start),
        i requires 0 <= i < span.end - span.start => VisualLine(span.chunk, span.start + i))
  }

  /** `b` goes on where `a` ends, in the same chunk. */
  predicate Continues(a: Span, b: Span) {
    b.chunk == a.chunk && b.start == a.end
  }

  /** No span is empty, and none could have been a part of the one before. */
  predicate SpansOk(spans: seq<Span>) {
    && (forall s | s in spans :: s.start < s.end)
    && (forall k | 0 < k < |spans| :: !Continues(spans[k - 1], spans[k]))
  }

  /** The visual lines of a page, in the order of its spans. */
  function Expand(spans: seq<Span>): seq<VisualLine> {
    if spans == [] then [] else Expand(spans[..|spans| - 1]) + LinesOf(spans[|spans| - 1])
  }

  lemma ExpandSnoc(spans: seq<Span>, s: Span)
    requires SpansOk(spans) && s.start < s.end && (spans != [] ==> !Continues(spans[|spans| - 1], s))
    ensures SpansOk(spans + [s]) && Expand(spans + [s]) == Expand(spans) + LinesOf(s)
  {
    assert (spans + [s])[..|spans|] == spans;
  }

  /** A line joins the last span if it continues it; either way it comes last. */
  function AddLine(spans: seq<Span>, chunk: nat, line: nat): seq<Span> {
    if spans != [] && spans[|spans| - 1].chunk == chunk && spans[|spans| - 1].end == line
    then spans[..|spans| - 1] + [Span(chunk, spans[|spans| - 1].start, line + 1)]
    else spans + [Span(chunk, line, line + 1)]
  }

  lemma WithoutLast(spans: seq<Span>)
    requires SpansOk(spans) && spans != []
    ensures var before, last := spans[..|spans| - 1], spans[|spans| - 1];
            && SpansOk(before) && last.start < last.end && (before != [] ==> !Continues(before[|before| - 1], last))
            && Expand(spans) == Expand(before) + LinesOf(last)
  {}

  lemma LongerSpan(last: Span)
    requires last.start < last.end
    ensures LinesOf(last.(end := last.end + 1)) == LinesOf(last) + [VisualLine(last.chunk, last.end)]
  {}

  lemma LineAppended(a: seq<VisualLine>, b: seq<VisualLine>, line: VisualLine)
    ensures a + (b + [line]) == a + b + [line]
  {}

  lemma JoinedExpands(before: seq<Span>, last: Span)
    requires SpansOk(before) && last.start < last.end && (before != [] ==> !Continues(before[|before| - 1], last))
    ensures
      var longer := last.(end := last.end + 1);
      && SpansOk(before + [longer])
      && Expand(before + [longer]) == Expand(before) + LinesOf(last) + [VisualLine(last.chunk, last.end)]
  {
    hide SpansOk, Expand, LinesOf;
    ExpandSnoc(before, last.(end := last.end + 1));
    LongerSpan(last);
    LineAppended(Expand(before), LinesOf(last), VisualLine(last.chunk, last.end));
  }

  lemma NewSpanExpands(spans: seq<Span>, chunk: nat, line: nat)
    requires SpansOk(spans) && (spans != [] ==> !Continues(spans[|spans| - 1], Span(chunk, line, line + 1)))
    ensures SpansOk(spans + [Span(chunk, line, line + 1)])
    ensures Expand(spans + [Span(chunk, line, line + 1)]) == Expand(spans) + [VisualLine(chunk, line)]
  {
    hide SpansOk, Expand;
    ExpandSnoc(spans, Span(chunk, line, line + 1));
    assert LinesOf(Span(chunk, line, line + 1)) == [VisualLine(chunk, line)];
  }

  lemma AddLineExpands(spans: seq<Span>, chunk: nat, line: nat)
    requires SpansOk(spans)
    ensures SpansOk(AddLine(spans, chunk, line)) && AddLine(spans, chunk, line) != []
    ensures Expand(AddLine(spans, chunk, line)) == Expand(spans) + [VisualLine(chunk, line)]
  {
    hide SpansOk, Expand, LinesOf;
    if spans != [] && spans[|spans| - 1].chunk == chunk && spans[|spans| - 1].end == line {
      WithoutLast(spans);
      JoinedExpands(spans[..|spans| - 1], spans[|spans| - 1]);
    } else {
      NewSpanExpands(spans, chunk, line);
    }
  }

  /** The lines a chunk brings. */
  function ChunkLines(chunk: nat, n: nat): (r: seq<VisualLine>)
    ensures |r| == n && forall i | 0 <= i < n :: r[i] == VisualLine(chunk, i)
  {
    seq(n, i requires 0 <= i < n => VisualLine(chunk, i))
  }

  predicate PageMatches(spans: seq<Span>, lines: seq<VisualLine>, p: Page) {
    spans != [] && SpansOk(spans) && p.start <= p.end <= |lines| && Expand(spans) == lines[p.start..p.end]
  }

  /** Page `k` of the spans shows exactly the lines of page `k` of the flat pagination. */
  ghost predicate PagesMatch(pages: seq<seq<Span>>, lines: seq<VisualLine>, flat: seq<Page>) {
    && |pages| == |flat|
    && forall k | 0 <= k < |pages| :: PageMatches(pages[k], lines, flat[k])
  }

  lemma PagesStillMatch(pages: seq<seq<Span>>, lines: seq<VisualLine>, more: seq<VisualLine>, flat: seq<Page>)
    requires PagesMatch(pages, lines, flat)
    ensures PagesMatch(pages, lines + more, flat)
  {
    forall k | 0 <= k < |pages| ensures PageMatches(pages[k], lines + more, flat[k]) {
      assert PageMatches(pages[k], lines, flat[k]);
      assert (lines + more)[flat[k].start..flat[k].end] == lines[flat[k].start..flat[k].end];
    }
  }

  /** The paginator's pages, the page being filled, and how much of it is used. */
  datatype Packed = Packed(pages: seq<seq<Span>>, current: seq<Span>, used: real)

  function Committed(p: Packed): Packed {
    if p.current == [] then p else Packed(p.pages + [p.current], [], 0.0)
  }

  function WithLine(p: Packed, chunk: nat, line: nat, height: real): Packed {
    Packed(p.pages, AddLine(p.current, chunk, line), p.used + height)
  }

  function AddOne(p: Packed, usable: real, chunk: nat, line: nat, height: real): Packed {
    WithLine(if p.current != [] && p.used + height > usable then Committed(p) else p, chunk, line, height)
  }

  /** `p` shows the lines from `f.start` on as its current page, and the earlier ones on the pages of `f`. */
  ghost predicate Shows(p: Packed, lines: seq<VisualLine>, f: Fill) {
    && PagesMatch(p.pages, lines, f.pages) && p.used == f.used && f.start <= |lines|
    && SpansOk(p.current) && Expand(p.current) == lines[f.start..] && (p.current == [] ==> f.start == |lines|)
  }

  lemma CurrentIsEmpty(p: Packed, lines: seq<VisualLine>, f: Fill)
    requires Shows(p, lines, f)
    ensures p.current == [] <==> f.start == |lines|
  {
    if p.current != [] {
      assert p.current[|p.current| - 1] in p.current;
      assert |Expand(p.current)| > 0;
    }
  }

  lemma CommittedShows(p: Packed, lines: seq<VisualLine>, f: Fill)
    requires Shows(p, lines, f) && p.current != []
    ensures Shows(Committed(p), lines, Fill(f.pages + [Page(f.start, |lines|)], |lines|, 0.0))
  {
    assert PageMatches(p.current, lines, Page(f.start, |lines|));
  }

  lemma WithLineShows(p: Packed, lines: seq<VisualLine>, f: Fill, chunk: nat, line: nat, height: real)
    requires Shows(p, lines, f)
    ensures Shows(WithLine(p, chunk, line, height), lines + [VisualLine(chunk, line)], f.(used := f.used + height))
  {
    AddLineExpands(p.current, chunk, line);
    PagesStillMatch(p.pages, lines, [VisualLine(chunk, line)], f.pages);
    assert (lines + [VisualLine(chunk, line)])[f.start..] == lines[f.start..] + [VisualLine(chunk, line)];
  }

  /** The state is that of the flat algorithm after the same heights; the chunks they came in leave no trace. */
  ghost predicate Tracks(p: Packed, usable: real, lines: seq<VisualLine>, heights: seq<real>) {
    |lines| == |heights| && Positive(heights) && Shows(p, lines, Filled(heights, |heights|, usable))
  }

  lemma AddOneShows(p: Packed, usable: real, lines: seq<VisualLine>, f: Fill, chunk: nat, line: nat, height: real)
    requires Shows(p, lines, f)
    ensures Shows(AddOne(p, usable, chunk, line, height), lines + [VisualLine(chunk, line)],
                  NextFill(f, |lines|, height, usable))
  {
    CurrentIsEmpty(p, lines, f);
    if p.current != [] && p.used + height > usable {
      CommittedShows(p, lines, f);
      WithLineShows(Committed(p), lines, Fill(f.pages + [Page(f.start, |lines|)], |lines|, 0.0), chunk, line, height);
    } else {
      WithLineShows(p, lines, f, chunk, line, height);
    }
  }

  /** What the flat algorithm does with the first lines does not depend on the later ones. */
  lemma {:induction false} FilledPrefix(h: seq<real>, more: seq<real>, n: nat, usable: real)
    requires n <= |h|
    ensures Filled(h + more, n, usable) == Filled(h, n, usable)
    decreases n
  {
    if n == 0 {
    } else {
      FilledPrefix(h, more, n - 1, usable);
    }
  }

  lemma AddOneTracks(p: Packed, usable: real, lines: seq<VisualLine>, heights: seq<real>, chunk: nat, line: nat,
                     height: real)
    requires Tracks(p, usable, lines, heights) && height > 0.0
    ensures Tracks(AddOne(p, usable, chunk, line, height), usable,
                   lines + [VisualLine(chunk, line)], heights + [height])
  {
    AddOneShows(p, usable, lines, Filled(heights, |heights|, usable), chunk, line, height);
    FilledPrefix(heights, [height], |heights|, usable);
  }

  lemma FinishedMatches(p: Packed, usable: real, lines: seq<VisualLine>, heights: seq<real>)
    requires Tracks(p, usable, lines, heights)
    ensures heights != [] ==> PagesMatch(Committed(p).pages, lines, FlatPages(heights, usable))
    ensures heights == [] ==> Committed(p).pages == []
  {
    FilledIsOk(heights, |heights|, usable);
    CurrentIsEmpty(p, lines, Filled(heights, |heights|, usable));
    if heights != [] { CommittedShows(p, lines, Filled(heights, |heights|, usable)); }
  }

  lemma OneMore(lines: seq<VisualLine>, heights: seq<real>, chunk: nat, lineHeights: seq<real>, index: nat)
    requires index < |lineHeights|
    ensures lines + ChunkLines(chunk, index) + [VisualLine(chunk, index)] == lines + ChunkLines(chunk, index + 1)
    ensures heights + lineHeights[..index] + [lineHeights[index]] == heights + lineHeights[..index + 1]
  {}

  class IncrementalVisualPaginator {
    const usableHeight: real
    var pages: seq<seq<Span>>
    var current: seq<Span>
    var used: real
    var finished: bool

    /** All lines added so far, with their heights. */
    ghost var lines: seq<VisualLine>
    ghost var heights: seq<real>

    ghost function State(): Packed
      reads this
    {
      Packed(pages, current, used)
    }

    ghost predicate Valid()
      reads this
    {
      && usableHeight > 0.0
      && if finished then
           if heights == [] then pages == [] else PagesMatch(pages, lines, FlatPages(heights, usableHeight))
         else Tracks(State(), usableHeight, lines, heights)
    }

    constructor (usable: real)
      requires usable > 0.0
      ensures Valid() && !finished && lines == [] && heights == [] && usableHeight == usable
    {
      usableHeight := usable;
      pages, current, used, finished := [], [], 0.0, false;
      lines, heights := [], [];
    }

    method CommitPage()
      modifies `pages, `current, `used
      ensures State() == Committed(old(State()))
    {
      if current != [] {
        pages := pages + [current];
        current := [];
        used := 0.0;
      }
    }

    /** The body of the loop: one more line. */
    method AddVisualLine(chunk: nat, index: nat, height: real)
      modifies `pages, `current, `used
      ensures State() == AddOne(old(State()), usableHeight, chunk, index, height)
    {
      if current != [] && used + height > usableHeight {
        CommitPage();
      }
      if current != [] && current[|current| - 1].chunk == chunk && current[|current| - 1].end == index {
        var previous := current[|current| - 1];
        current := current[..|current| - 1] + [Span(chunk, previous.start, index + 1)];
      } else {
        current := current + [Span(chunk, index, index + 1)];
      }
      used := used + height;
    }

    method AddChunk(chunk: nat, lineHeights: seq<real>) returns (error: Option<PageError>)
      requires Valid()
      modifies this
      ensures Valid()
      ensures error == if old(finished) then Some(AlreadyFinished)
                       else if lineHeights == [] || !Positive(lineHeights) then Some(BadHeights)
                       else None
      ensures error.None? ==>
                && !finished && lines == old(lines) + ChunkLines(chunk, |lineHeights|)
                && heights == old(heights) + lineHeights
      ensures error.Some? ==>
                State() == old(State()) && lines == old(lines) && heights == old(heights) && finished == old(finished)
    {
      hide Tracks, AddOne, PagesMatch;
      if finished {
        return Some(AlreadyFinished);
      }
      if lineHeights == [] || !Positive(lineHeights) {
        return Some(BadHeights);
      }
      for index := 0 to |lineHeights|
        invariant !finished && Tracks(State(), usableHeight, lines, heights)
        invariant lines == old(lines) + ChunkLines(chunk, index) && heights == old(heights) + lineHeights[..index]
      {
        AddOneTracks(State(), usableHeight, lines, heights, chunk, index, lineHeights[index]);
        AddVisualLine(chunk, index, lineHeights[index]);
        OneMore(old(lines), old(heights), chunk, lineHeights, index);
        lines, heights := lines + [VisualLine(chunk, index)], heights + [lineHeights[index]];
      }
      assert lineHeights[..|lineHeights|] == lineHeights;
      error := None;
    }

    method Finish() returns (r: seq<seq<Span>>)
      requires Valid()
      modifies `pages, `current, `used, `finished
      ensures Valid() && finished && r == pages
      ensures if heights == [] then r == [] else PagesMatch(r, lines, FlatPages(heights, usableHeight))
    {
      if !finished {
        FinishedMatches(State(), usableHeight, lines, heights);
        CommitPage();
        finished := true;
      }
      r := pages;
    }
  }

  /** The first `k` pages, line after line. */
  function LinesOn(pages: seq<seq<Span>>, k: nat): seq<VisualLine>
    requires k <= |pages|
  {
    if k == 0 then [] else LinesOn(pages, k - 1) + Expand(pages[k - 1])
  }

  lemma PrefixGrows(lines: seq<VisualLine>, a: nat, b: nat)
    requires a <= b <= |lines|
    ensures lines[..b] == lines[..a] + lines[a..b]
  {}

  lemma PageAt(pages: seq<seq<Span>>, lines: seq<VisualLine>, flat: seq<Page>, k: nat)
    requires PagesMatch(pages, lines, flat) && Cover(flat, |lines|) && k < |pages|
    ensures k < |flat| && PageMatches(pages[k], lines, flat[k]) && flat[k].end <= |lines|
    ensures flat[k].start == PageStart(flat, k) && flat[k].end == PageStart(flat, k + 1)
  {}

  lemma OnePageMore(pages: seq<seq<Span>>, lines: seq<VisualLine>, p: Page, k: nat)
    requires k < |pages| && PageMatches(pages[k], lines, p) && LinesOn(pages, k) == lines[..p.start]
    ensures LinesOn(pages, k + 1) == lines[..p.end]
  {
    hide Expand, SpansOk;
    PrefixGrows(lines, p.start, p.end);
  }

  lemma NoLinesYet(pages: seq<seq<Span>>, lines: seq<VisualLine>, flat: seq<Page>)
    ensures PageStart(flat, 0) == 0 && LinesOn(pages, 0) == lines[..0]
  {}

  lemma {:induction false} LinesOnPages(pages: seq<seq<Span>>, lines: seq<VisualLine>, flat: seq<Page>, k: nat)
    requires PagesMatch(pages, lines, flat) && Cover(flat, |lines|) && k <= |pages|
    ensures k <= |flat| && PageStart(flat, k) <= |lines| && LinesOn(pages, k) == lines[..PageStart(flat, k)]
    decreases k
  {
    hide PagesMatch, PageMatches, Cover, LinesOn;
    NoLinesYet(pages, lines, flat);
    if k == 0 {
    } else {
      LinesOnPages(pages, lines, flat, k - 1);
      PageAt(pages, lines, flat, k - 1);
      OnePageMore(pages, lines, flat[k - 1], k - 1);
    }
  }

  /** The finished pages hold every visual line once, in order. */
  lemma PagesHoldEveryLine(pages: seq<seq<Span>>, lines: seq<VisualLine>, heights: seq<real>, usable: real)
    requires heights != [] && |lines| == |heights| && PagesMatch(pages, lines, FlatPages(heights, usable))
    ensures LinesOn(pages, |pages|) == lines
  {
    FlatPagesAreGreedy(heights, usable);
    LinesOnPages(pages, lines, FlatPages(heights, usable), |pages|);
    assert lines[..|lines|] == lines;
  }

  lemma SamePages(a: seq<seq<Span>>, linesA: seq<VisualLine>, b: seq<seq<Span>>, linesB: seq<VisualLine>,
                  flat: seq<Page>)
    requires PagesMatch(a, linesA, flat) && PagesMatch(b, linesB, flat)
    ensures |a| == |b| && forall k | 0 <= k < |a| :: |Expand(a[k])| == |Expand(b[k])|
  {
    forall k | 0 <= k < |a| ensures |Expand(a[k])| == |Expand(b[k])| {
      assert PageMatches(a[k], linesA, flat[k]) && PageMatches(b[k], linesB, flat[k]);
    }
  }

  /** Two paginators fed the same heights, however these were split into chunks, break pages at the same places. */
  lemma ChunkingDoesNotMatter(a: IncrementalVisualPaginator, b: IncrementalVisualPaginator)
    requires a.Valid() && a.finished && b.Valid() && b.finished
    requires a.heights == b.heights && a.usableHeight == b.usableHeight
    ensures |a.pages| == |b.pages|
    ensures forall k | 0 <= k < |a.pages| :: |Expand(a.pages[k])| == |Expand(b.pages[k])|
  {
    if a.heights != [] {
      SamePages(a.pages, a.lines, b.pages, b.lines, FlatPages(a.heights, a.usableHeight));
    }
  }
}
