/** Replace and Replace All: matches become patches, and patches become a plan for the undo history. */
module SearchReplace {
  import opened Prelude
  import opened FoldedLines
  import opened TextSearch
  import opened FindInText
  import opened SearchCommands
  import opened Renderability
  import opened Edits
  import opened EditHistory
  import opened Patches
  import opened EditPlans

  const MAX_REPLACE_ALL_MATCHES: nat := 50_000

  datatype PlanError =
    | NoQuery
    | Search(error: SearchError)
    | MultiLineReplacement
    | PayloadTooLarge(size: nat)
    | LineTooWide(offender: TooWide)

  // --- Matches as patches --------------------------------------------------------------------

  function PatchesOf(ms: seq<SearchMatch>, replacement: string): (r: seq<Patch>)
    ensures |r| == |ms| && forall i | 0 <= i < |r| :: r[i] == Patch(ms[i].start, ms[i].end, replacement)
  {
    seq(|ms|, i requires 0 <= i < |ms| => Patch(ms[i].start, ms[i].end, replacement))
  }

  /** What enumeration yields can be patched. */
  lemma {:induction false} MatchesAreOrdered(f: CharFold, t: string, q: string, ms: seq<SearchMatch>,
                                             replacement: string, from: nat)
    requires Disjoint(f, t, q, from, ms) && from <= |t|
    ensures Ordered(t, PatchesOf(ms, replacement), from)
    ensures forall m | m in ms :: m.start < m.end
    decreases |ms|
  {
    if ms == [] {
    } else {
      assert PatchesOf(ms, replacement)[1..] == PatchesOf(ms[1..], replacement);
      MatchesAreOrdered(f, t, q, ms[1..], replacement, ms[0].end);
      assert ms == [ms[0]] + ms[1..];
    }
  }

  function ChangedMatches(t: string, ms: seq<SearchMatch>, replacement: string): (r: seq<SearchMatch>)
    requires forall m | m in ms :: m.start <= m.end <= |t|
    ensures forall m | m in r :: m in ms
    decreases |ms|
  {
    if ms == [] then []
    else (if t[ms[0].start..ms[0].end] != replacement then [ms[0]] else []) + ChangedMatches(t, ms[1..], replacement)
  }

  lemma PatchesOfCons(m: SearchMatch, ms: seq<SearchMatch>, replacement: string)
    ensures PatchesOf([m] + ms, replacement) == [Patch(m.start, m.end, replacement)] + PatchesOf(ms, replacement)
    ensures [] + ms == ms
  {
    var a, b := PatchesOf([m] + ms, replacement), [Patch(m.start, m.end, replacement)] + PatchesOf(ms, replacement);
    forall i | 0 <= i < |a| ensures a[i] == b[i] {
      assert i > 0 ==> ([m] + ms)[i] == ms[i - 1];
    }
  }

  lemma {:induction false} ChangedMatchesAreChanged(t: string, ms: seq<SearchMatch>, replacement: string, from: nat)
    requires Ordered(t, PatchesOf(ms, replacement), from) && forall m | m in ms :: m.start <= m.end <= |t|
    ensures PatchesOf(ChangedMatches(t, ms, replacement), replacement) == Changed(t, PatchesOf(ms, replacement), from)
    decreases |ms|
  {
    if ms == [] {
    } else {
      var ps := PatchesOf(ms, replacement);
      assert ps[1..] == PatchesOf(ms[1..], replacement);
      ChangedMatchesAreChanged(t, ms[1..], replacement, ms[0].end);
      PatchesOfCons(ms[0], ChangedMatches(t, ms[1..], replacement), replacement);
    }
  }

  // --- The loops -----------------------------------------------------------------------------

  method MappedOffset(offset: int, ms: seq<SearchMatch>, replacement: string) returns (r: int)
    ensures r == MapOffset(Max(0, offset), PatchesOf(ms, replacement), 0)
  {
    var original, delta := Max(0, offset), 0;
    ghost var ps := PatchesOf(ms, replacement);
    for k := 0 to |ms|
      invariant MapOffset(original, ps, 0) == MapOffset(original, ps[k..], delta)
    {
      var m := ms[k];
      assert ps[k..][0] == ps[k] && ps[k..][1..] == ps[k + 1..];
      if original < m.start {
        return original + delta;
      }
      var mappedStart := m.start + delta;
      if original == m.start {
        return mappedStart;
      }
      if original <= m.end {
        return mappedStart + |replacement|;
      }
      delta := delta + |replacement| - (m.end - m.start);
    }
    r := original + delta;
  }

  method BuildFinalText(source: string, ms: seq<SearchMatch>, replacement: string) returns (r: string)
    requires Ordered(source, PatchesOf(ms, replacement), 0)
    ensures r == Build(source, PatchesOf(ms, replacement), 0)
  {
    var cursor := 0;
    r := "";
    ghost var ps := PatchesOf(ms, replacement);
    for k := 0 to |ms|
      invariant cursor == CursorAt(ps, k) && Ordered(source, ps[k..], cursor)
      invariant r + Build(source, ps[k..], cursor) == Build(source, ps, 0)
    {
      Tails(source, ps, k);
      Tails(source, ps, k + 1);
      BuildNext(source, ps, k, r);
      r := r + source[cursor..ms[k].start] + replacement;
      cursor := ms[k].end;
    }
    r := r + source[cursor..];
  }

  /** The body of the loop: nothing for a match that already reads like the replacement. */
  method OperationsOf(source: string, m: SearchMatch, replacement: string) returns (r: seq<Op>)
    requires m.start < m.end <= |source|
    ensures var p := Patch(m.start, m.end, replacement); r == if Changes(source, p) then PatchOps(source, p) else []
  {
    var original := source[m.start..m.end];
    if original == replacement {
      return [];
    }
    r := [Op(Delete, m.start, original)];
    if replacement != "" {
      r := r + [Op(Insert, m.start, replacement)];
    }
  }

  method OperationsDescending(source: string, ms: seq<SearchMatch>, replacement: string) returns (r: seq<Op>)
    requires Ordered(source, PatchesOf(ms, replacement), 0) && forall m | m in ms :: m.start < m.end
    ensures r == DescendingOps(source, Changed(source, PatchesOf(ms, replacement), 0), 0)
  {
    r := [];
    ghost var ps := PatchesOf(ms, replacement);
    assert ps[|ms|..] == [];
    Tails(source, ps, |ms|);
    for k := |ms| downto 0
      invariant Ordered(source, ps[k..], CursorAt(ps, k))
      invariant r == DescendingOps(source, Changed(source, ps[k..], CursorAt(ps, k)), CursorAt(ps, k))
    {
      Tails(source, ps, k);
      OpsNext(source, ps, k);
      assert ms[k] in ms;
      var ops := OperationsOf(source, ms[k], replacement);
      r := r + ops;
    }
    assert ps[0..] == ps;
  }

  // --- Replace All ---------------------------------------------------------------------------

  /** Replace All over all matches `ms`, in the order of the checks the controller makes. */
  ghost predicate ReplaceAllSpec(t: string, ms: seq<SearchMatch>, replacement: string, id: nat, view: ViewState,
                                 r: Result<EditPlan, PlanError>)
    requires Ordered(t, PatchesOf(ms, replacement), 0)
  {
    var ps := PatchesOf(ms, replacement);
    var changed := Changed(t, ps, 0);
    if |ms| > MAX_REPLACE_ALL_MATCHES then r == Err(Search(TooManyMatches))
    else if changed == [] then r == Ok(NoOp(id, t, view))
    else if PatchSize(changed) > MAX_PAYLOAD then r == Err(PayloadTooLarge(PatchSize(changed)))
    else if !Renderable(Build(t, ps, 0), MAX_LINE_CHARS) then
      r.Err? && r.error.LineTooWide? && FirstOffender(Build(t, ps, 0), MAX_LINE_CHARS, r.error.offender)
    else
      r == Ok(PlanFor(id, t, ps, view, ViewState(MappedCaret(view.insert, t, ps), MappedCaret(view.bound, t, ps))))
  }

  lemma ChangedFrom(t: string, ps: seq<Patch>, from: nat, first: nat)
    requires from <= first && Ordered(t, ps, first)
    ensures Ordered(t, ps, from) && Changed(t, ps, from) == Changed(t, ps, first)
  {}

  lemma {:induction false} ChangedTwice(t: string, ps: seq<Patch>, from: nat)
    requires Ordered(t, ps, from)
    ensures Changed(t, Changed(t, ps, from), from) == Changed(t, ps, from)
    decreases |ps|
  {
    if ps == [] {
    } else {
      var p, rest := ps[0], Changed(t, ps[1..], ps[0].end);
      ChangedTwice(t, ps[1..], p.end);
      if Changes(t, p) {
        assert ([p] + rest)[1..] == rest;
      } else {
        ChangedFrom(t, rest, from, p.end);
      }
    }
  }

  method PlanReplaceAll(t: string, ms: seq<SearchMatch>, replacement: string, id: nat, view: ViewState)
    returns (r: Result<EditPlan, PlanError>)
    requires Ordered(t, PatchesOf(ms, replacement), 0) && |ms| <= MAX_REPLACE_ALL_MATCHES
    requires forall m | m in ms :: m.start < m.end <= |t|
    ensures ReplaceAllSpec(t, ms, replacement, id, view, r)
  {
    var changed := ChangedMatches(t, ms, replacement);
    ghost var ps := PatchesOf(ms, replacement);
    ChangedMatchesAreChanged(t, ms, replacement, 0);
    if changed == [] {
      return Ok(NoOp(id, t, view));
    }
    var size := PatchSize(PatchesOf(changed, replacement));
    if size > MAX_PAYLOAD {
      return Err(PayloadTooLarge(size));
    }
    var finalText := BuildFinalText(t, ms, replacement);
    var wide := EnsureTextRenderable(finalText, MAX_LINE_CHARS);
    if wide.Some? {
      return Err(LineTooWide(wide.value));
    }
    var insert := MappedOffset(view.insert, ms, replacement);
    var bound := MappedOffset(view.bound, ms, replacement);
    var ops := OperationsDescending(t, changed, replacement);
    ChangedTwice(t, ps, 0);
    MapNonNegative(t, ps, 0, 0, view.insert);
    MapNonNegative(t, ps, 0, 0, view.bound);
    r := Ok(EditPlan(id, t, finalText, ops, view, ViewState(insert, bound), |changed|));
  }

  lemma {:induction false} MatchesInText(f: CharFold, t: string, q: string, ms: seq<SearchMatch>, from: nat)
    requires Disjoint(f, t, q, from, ms)
    ensures forall m | m in ms :: m.start < m.end <= |t|
    decreases |ms|
  {
    if ms == [] {
    } else {
      MatchesInText(f, t, q, ms[1..], ms[0].end);
      assert ms == [ms[0]] + ms[1..];
    }
  }

  // --- Replace one ---------------------------------------------------------------------------

  ghost predicate ChosenMatch(g: CharFold, t: string, q: string, straddles: bool, view: ViewState, start: nat,
                              end: nat, r: Option<SearchMatch>)
    requires start <= end
  {
    if Matches(g, t, q, Within(SearchMatch(start, end), t)) then r == Some(SearchMatch(start, end))
    else exists result: SearchResult :: result.found == r
           && NextSpec(g, t, q, Clamped(if end > start then end else view.insert, t), straddles, true, result)
  }

  ghost predicate TargetSpec(g: CharFold, t: string, q: string, straddles: bool, here: nat, r: ViewState) {
    exists result: SearchResult :: NextSpec(g, t, q, Clamped(here, t), straddles, true, result)
      && r == match result.found case Some(m) => ViewState(m.end, m.start) case None => ViewState(here, here)
  }

  lemma ChosenIsMatch(g: CharFold, t: string, q: string, straddles: bool, view: ViewState, start: nat, end: nat,
                      m: SearchMatch)
    requires start <= end && ChosenMatch(g, t, q, straddles, view, start, end, Some(m))
    ensures Matches(g, t, q, Within(m, t))
  {}

  /** Behind the text the wrapped search finds what it finds from the end of the text, if there is a match at all. */
  lemma TargetBehindText(g: CharFold, t: string, q: string, straddles: bool, m: SearchMatch, r: ViewState)
    requires Matches(g, t, q, Within(m, t)) && TargetSpec(g, t, q, straddles, m.end, r)
    ensures TargetSpec(g, t, q, straddles, Within(m, t).end, r)
  {
    if m.end > |t| {
      var result: SearchResult :| NextSpec(g, t, q, Clamped(m.end, t), straddles, true, result)
        && r == match result.found case Some(b) => ViewState(b.end, b.start) case None => ViewState(m.end, m.end);
      assert result.found.Some?;
    }
  }

  ghost predicate ReplacesMatch(g: CharFold, t: string, q: string, straddles: bool, p: Patch, id: nat, view: ViewState,
                                r: Result<Option<EditPlan>, PlanError>)
    requires p.start <= p.end <= |t|
  {
    var finalText := t[..p.start] + p.text + t[p.end..];
    if !Changes(t, p) then
      r.Ok? && r.value.Some? && r.value.value == NoOp(id, t, view).(targetView := r.value.value.targetView)
      && TargetSpec(g, t, q, straddles, p.end, r.value.value.targetView)
    else if !Renderable(finalText, MAX_LINE_CHARS) then
      r.Err? && r.error.LineTooWide? && FirstOffender(finalText, MAX_LINE_CHARS, r.error.offender)
    else
      r.Ok? && r.value.Some? && Ordered(t, [p], 0)
      && r.value.value == PlanFor(id, t, [p], view, r.value.value.targetView)
      && TargetSpec(g, finalText, q, straddles, p.start + |p.text|, r.value.value.targetView)
  }

  /**
    Replacing one match is the plan for one patch; a match that already reads like the replacement is only
    stepped over.
   */
  ghost predicate ReplaceOneSpec(g: CharFold, t: string, q: string, straddles: bool, replacement: string, id: nat,
                                 view: ViewState,
                                 start: nat, end: nat, r: Result<Option<EditPlan>, PlanError>)
    requires start <= end
  {
    if r == Ok(None) then ChosenMatch(g, t, q, straddles, view, start, end, None)
    else
      exists m | ChosenMatch(g, t, q, straddles, view, start, end, Some(m)) && Matches(g, t, q, Within(m, t)) ::
        ReplacesMatch(g, t, q, straddles, Patch(m.start, Within(m, t).end, replacement), id, view, r)
  }

  // --- What the plans promise ----------------------------------------------------------------

  /** The shortcut for an exact query equal to its replacement gives what the enumeration would have found out. */
  lemma {:induction false} ExactShortcutIsNoOp(t: string, q: string, ms: seq<SearchMatch>, from: nat)
    requires Disjoint(EXACT, t, q, from, ms) && Ordered(t, PatchesOf(ms, q), from) && q != ""
    ensures Changed(t, PatchesOf(ms, q), from) == []
    decreases |ms|
  {
    if ms == [] {
    } else {
      var m := ms[0];
      assert PatchesOf(ms, q)[1..] == PatchesOf(ms[1..], q);
      ExactMatch(t, q, m);
      ExactShortcutIsNoOp(t, q, ms[1..], m.end);
    }
  }

  /** A Replace All plan replays, can be taken back, fits the limits, and carries the caret along with the text. */
  lemma ReplaceAllPlanIsGood(t: string, ms: seq<SearchMatch>, replacement: string, id: nat, view: ViewState,
                             plan: EditPlan)
    requires Ordered(t, PatchesOf(ms, replacement), 0) && forall m | m in ms :: m.start < m.end
    requires ReplaceAllSpec(t, ms, replacement, id, view, Ok(plan))
    ensures GoodPlan(plan) && plan.finalText == Build(t, PatchesOf(ms, replacement), 0)
    ensures OpsSize(plan.ops) <= MAX_PAYLOAD
    ensures plan.changedCount > 0 ==> Renderable(plan.finalText, MAX_LINE_CHARS)
    ensures view.insert <= |t| && view.bound <= |t| ==>
              plan.targetView.insert <= |plan.finalText| && plan.targetView.bound <= |plan.finalText|
  {
    var ps := PatchesOf(ms, replacement);
    PlanForIsGood(id, t, ps, view, plan.targetView);
    if Changed(t, ps, 0) == [] {
      NothingChanged(t, ps);
      NoOpIsGood(id, t, view);
    } else {
      PatchSizeIsOpsSize(t, Changed(t, ps, 0), 0);
      if view.insert <= |t| { MapInBounds(t, ps, 0, 0, view.insert); }
      if view.bound <= |t| { MapInBounds(t, ps, 0, 0, view.bound); }
    }
  }

  lemma {:induction false} ChangedHasOps(t: string, ps: seq<Patch>, from: nat)
    requires Ordered(t, ps, from)
    requires forall p | p in ps :: p.start <= p.end <= |t| && Changes(t, p)
    ensures DescendingOps(t, ps, from) == [] <==> ps == []
    decreases |ps|
  {
    if ps != [] {
      assert ps[0] in ps && PatchOps(t, ps[0]) != [];
    }
  }

  /**
    Replace All fails exactly with more than 50,000 matches, with operations over 16,000,000 characters, or with a line
    too wide in its result; and it plans nothing exactly when every match reads like the replacement already.
   */
  lemma ReplaceAllDecides(t: string, ms: seq<SearchMatch>, replacement: string, id: nat, view: ViewState,
                          r: Result<EditPlan, PlanError>)
    requires Ordered(t, PatchesOf(ms, replacement), 0) && ReplaceAllSpec(t, ms, replacement, id, view, r)
    ensures
      var ps := PatchesOf(ms, replacement);
      var u, ops := Build(t, ps, 0), DescendingOps(t, Changed(t, ps, 0), 0);
      if |ms| > 50_000 then r == Err(Search(TooManyMatches))
      else if ops == [] then r == Ok(EditPlan(id, t, t, [], view, view, 0)) && u == t
      else if OpsSize(ops) > 16_000_000 then r == Err(PayloadTooLarge(OpsSize(ops)))
      else if !Renderable(u, 20_000) then r.Err? && r.error.LineTooWide?
      else
        && r.Ok? && r.value.ops == ops && r.value.finalText == u && r.value.beforeView == view
        && r.value.targetView == ViewState(MappedCaret(view.insert, t, ps), MappedCaret(view.bound, t, ps))
  {
    var ps := PatchesOf(ms, replacement);
    ChangedHasOps(t, Changed(t, ps, 0), 0);
    PatchSizeIsOpsSize(t, Changed(t, ps, 0), 0);
    if Changed(t, ps, 0) == [] { NothingChanged(t, ps); }
  }

  lemma TargetInText(g: CharFold, t: string, q: string, straddles: bool, here: nat, r: ViewState)
    requires TargetSpec(g, t, q, straddles, here, r) && here <= |t|
    ensures r.insert <= |t| && r.bound <= |t|
  {}

  lemma PlanOfOne(t: string, p: Patch, id: nat, view: ViewState, target: ViewState)
    requires p.start <= p.end <= |t| && Changes(t, p)
    ensures Ordered(t, [p], 0)
    ensures PlanFor(id, t, [p], view, target) ==
              EditPlan(id, t, t[..p.start] + p.text + t[p.end..], PatchOps(t, p), view, target, 1)
  {
    OnePatchPlan(t, p);
  }

  lemma ChangingPlanIsGood(g: CharFold, t: string, q: string, straddles: bool, p: Patch, id: nat, view: ViewState,
                           plan: EditPlan)
    requires p.start <= p.end <= |t| && Changes(t, p)
    requires ReplacesMatch(g, t, q, straddles, p, id, view, Ok(Some(plan)))
    ensures GoodPlan(plan) && Renderable(plan.finalText, MAX_LINE_CHARS)
    ensures plan.targetView.insert <= |plan.finalText| && plan.targetView.bound <= |plan.finalText|
  {
    hide TargetSpec, Renderable, GoodPlan;
    var u := t[..p.start] + p.text + t[p.end..];
    assert TargetSpec(g, u, q, straddles, p.start + |p.text|, plan.targetView) && Renderable(u, MAX_LINE_CHARS);
    TargetInText(g, u, q, straddles, p.start + |p.text|, plan.targetView);
    PlanOfOne(t, p, id, view, plan.targetView);
    PlanForIsGood(id, t, [p], view, plan.targetView);
    assert plan == PlanFor(id, t, [p], view, plan.targetView) && plan.finalText == u;
  }

  lemma SteppingPlanIsGood(g: CharFold, t: string, q: string, straddles: bool, p: Patch, id: nat, view: ViewState,
                           plan: EditPlan)
    requires p.start <= p.end <= |t| && !Changes(t, p)
    requires ReplacesMatch(g, t, q, straddles, p, id, view, Ok(Some(plan)))
    ensures GoodPlan(plan) && plan.changedCount == 0
    ensures plan.targetView.insert <= |plan.finalText| && plan.targetView.bound <= |plan.finalText|
  {
    NoOpIsGood(id, t, view);
    TargetInText(g, t, q, straddles, p.end, plan.targetView);
  }

  /** So does a plan of Replace, whose selection is the next match in the final text or a caret in it. */
  lemma ReplaceOnePlanIsGood(g: CharFold, t: string, q: string, straddles: bool, replacement: string, id: nat,
                             view: ViewState, start: nat, end: nat, plan: EditPlan)
    requires start <= end
    requires ReplaceOneSpec(g, t, q, straddles, replacement, id, view, start, end, Ok(Some(plan)))
    ensures GoodPlan(plan) && (plan.changedCount > 0 ==> Renderable(plan.finalText, MAX_LINE_CHARS))
    ensures plan.targetView.insert <= |plan.finalText| && plan.targetView.bound <= |plan.finalText|
  {
    var m :| ChosenMatch(g, t, q, straddles, view, start, end, Some(m)) && Matches(g, t, q, Within(m, t))
      && ReplacesMatch(g, t, q, straddles, Patch(m.start, Within(m, t).end, replacement), id, view, Ok(Some(plan)));
    var p := Patch(m.start, Within(m, t).end, replacement);
    if Changes(t, p) {
      ChangingPlanIsGood(g, t, q, straddles, p, id, view, plan);
    } else {
      SteppingPlanIsGood(g, t, q, straddles, p, id, view, plan);
    }
  }

  lemma TwoMatches(f: CharFold, t: string)
    requires f('A') == f('a') == "a" && f('B') == f('b') == "b" && t == "AB ab"
    ensures Matches(f, t, "ab", SearchMatch(0, 2)) && Matches(f, t, "ab", SearchMatch(3, 5))
  {
    assert Fold(f, "AB") == "ab" by { assert "AB"[1..] == "B" && "B"[1..] == ""; }
    assert Fold(f, "ab") == "ab" by { assert "ab"[1..] == "b" && "b"[1..] == ""; }
    assert t[0..2] == "AB" && t[3..5] == "ab";
  }

  lemma NoMatchAtSpace(f: CharFold, t: string, m: SearchMatch)
    requires f('a') == "a" && f(' ') == " " && m.start < |t| && t[m.start] == ' '
    ensures !Matches(f, t, "ab", m)
  {
    if m.start < m.end <= |t| {
      assert t[m.start..m.end][0] == ' ';
      assert Fold(f, t[m.start..m.end])[0] == ' ' && Fold(f, "ab")[0] == 'a';
    }
  }

  lemma GreedyExample(f: CharFold, t: string)
    requires FoldOk(f) && f('A') == f('a') == "a" && f('B') == f('b') == "b" && f(' ') == " " && t == "AB ab"
    ensures Greedy(f, t, "ab", 0) == [SearchMatch(0, 2), SearchMatch(3, 5)]
  {
    hide FoldOk, Fold;
    TwoMatches(f, t);
    forall m | Matches(f, t, "ab", m) && 2 <= m.start ensures 3 <= m.start {
      if m.start == 2 { NoMatchAtSpace(f, t, m); }
    }
    GreedyNext(f, t, "ab", 0, Some(SearchMatch(0, 2)));
    GreedyNext(f, t, "ab", 2, Some(SearchMatch(3, 5)));
    assert Greedy(f, t, "ab", 5) == [];
  }

  lemma ChosenIsNearest(g: CharFold, t: string, q: string, straddles: bool, view: ViewState, start: nat, end: nat,
                        c: SearchMatch)
    requires start <= end && ChosenMatch(g, t, q, straddles, view, start, end, Some(c))
    ensures
      var selected := Within(SearchMatch(start, end), t);
      if Matches(g, t, q, selected) then Within(c, t) == selected
      else
        var anchor := Clamped(if end > start then end else view.insert, t);
        Within(c, t) == c && forall b | Matches(g, t, q, b) :: AheadBy(t, anchor, c) <= AheadBy(t, anchor, b)
  {
    if !Matches(g, t, q, Within(SearchMatch(start, end), t)) {
      var anchor := Clamped(if end > start then end else view.insert, t);
      var result: SearchResult :| result.found == Some(c) && NextSpec(g, t, q, anchor, straddles, true, result);
      NextIsNearest(g, t, q, anchor, straddles, true, result);
    }
  }

  lemma ReplacedText(g: CharFold, t: string, q: string, straddles: bool, m: SearchMatch, replacement: string, id: nat,
                     view: ViewState, plan: EditPlan)
    requires Matches(g, t, q, m)
    requires ReplacesMatch(g, t, q, straddles, Patch(m.start, m.end, replacement), id, view, Ok(Some(plan)))
    ensures plan.finalText == t[..m.start] + replacement + t[m.end..]
    ensures TargetSpec(g, plan.finalText, q, straddles, m.start + |replacement|, plan.targetView)
  {
    hide TargetSpec, Renderable, Fold;
    var p := Patch(m.start, m.end, replacement);
    if Changes(t, p) {
      PlanOfOne(t, p, id, view, plan.targetView);
    } else {
      assert t[..m.start] + t[m.start..m.end] + t[m.end..] == t;
    }
  }

  lemma TargetIsNearest(g: CharFold, u: string, q: string, straddles: bool, here: nat, target: ViewState)
    requires TargetSpec(g, u, q, straddles, here, target) && here <= |u|
    ensures
      if target == ViewState(here, here) && !Matches(g, u, q, SearchMatch(target.bound, target.insert)) then
        straddles ==> forall b :: !Matches(g, u, q, b)
      else
        Matches(g, u, q, SearchMatch(target.bound, target.insert)) &&
        forall b | Matches(g, u, q, b) ::
          AheadBy(u, here, SearchMatch(target.bound, target.insert)) <= AheadBy(u, here, b)
  {
    var result: SearchResult :| NextSpec(g, u, q, Clamped(here, u), straddles, true, result)
      && target == match result.found case Some(b) => ViewState(b.end, b.start) case None => ViewState(here, here);
    NextIsNearest(g, u, q, here, straddles, true, result);
  }

  /**
    What Replace replaces: the selection if it is a match, else the match nearest ahead of it, or of the caret; and
    then it selects the match nearest ahead of the replacement, or leaves the caret behind it.
   */
  lemma ReplaceOneChooses(g: CharFold, t: string, q: string, straddles: bool, replacement: string, id: nat,
                          view: ViewState, start: nat, end: nat, plan: EditPlan) returns (m: SearchMatch)
    requires start <= end
    requires ReplaceOneSpec(g, t, q, straddles, replacement, id, view, start, end, Ok(Some(plan)))
    ensures Matches(g, t, q, m) && plan.finalText == t[..m.start] + replacement + t[m.end..]
    ensures
      var selected := Within(SearchMatch(start, end), t);
      if Matches(g, t, q, selected) then m == selected
      else
        var anchor := Clamped(if end > start then end else view.insert, t);
        forall b | Matches(g, t, q, b) :: AheadBy(t, anchor, m) <= AheadBy(t, anchor, b)
    ensures
      var u, here, target := plan.finalText, m.start + |replacement|, plan.targetView;
      if target == ViewState(here, here) && !Matches(g, u, q, SearchMatch(target.bound, target.insert)) then
        straddles ==> forall b :: !Matches(g, u, q, b)
      else
        Matches(g, u, q, SearchMatch(target.bound, target.insert)) &&
        forall b | Matches(g, u, q, b) ::
          AheadBy(u, here, SearchMatch(target.bound, target.insert)) <= AheadBy(u, here, b)
  {
    hide AheadBy, ChosenMatch, ReplacesMatch, TargetSpec, Fold;
    var c :| ChosenMatch(g, t, q, straddles, view, start, end, Some(c)) && Matches(g, t, q, Within(c, t))
      && ReplacesMatch(g, t, q, straddles, Patch(c.start, Within(c, t).end, replacement), id, view, Ok(Some(plan)));
    m := Within(c, t);
    ChosenIsNearest(g, t, q, straddles, view, start, end, c);
    ReplacedText(g, t, q, straddles, m, replacement, id, view, plan);
    TargetIsNearest(g, plan.finalText, q, straddles, m.start + |replacement|, plan.targetView);
  }

  /** Replace finds nothing to do only where the search does. */
  lemma ReplaceOneFindsNone(g: CharFold, t: string, q: string, straddles: bool, replacement: string, id: nat,
                            view: ViewState, start: nat, end: nat)
    requires start <= end
    requires ReplaceOneSpec(g, t, q, straddles, replacement, id, view, start, end, Ok(None))
    ensures
      var anchor := Clamped(if end > start then end else view.insert, t);
      && (forall b | Matches(g, t, q, b) :: b.start < anchor) && (straddles ==> forall b :: !Matches(g, t, q, b))
      && !Matches(g, t, q, Within(SearchMatch(start, end), t))
  {
    var anchor := Clamped(if end > start then end else view.insert, t);
    var result: SearchResult :| result.found == None && NextSpec(g, t, q, anchor, straddles, true, result);
    NextIsNearest(g, t, q, anchor, straddles, true, result);
  }

  lemma BuildExample(t: string, ps: seq<Patch>)
    requires t == "AB ab" && ps == [Patch(0, 2, "AB"), Patch(3, 5, "AB")]
    ensures Ordered(t, ps, 0) && Build(t, ps, 0) == "AB AB" && MapOffset(1, ps, 0) == 2
  {
    var last := [Patch(3, 5, "AB")];
    assert ps[1..] == last && last[1..] == [];
    assert Ordered(t, last, 2);
    assert Build(t, last, 2) == " AB" by { assert t[2..3] == " " && t[5..] == ""; }
    assert t[0..0] == "" && t[0..2] == "AB";
  }

  lemma ChangedExample(t: string, ps: seq<Patch>)
    requires t == "AB ab" && ps == [Patch(0, 2, "AB"), Patch(3, 5, "AB")] && Ordered(t, ps, 0)
    ensures Changed(t, ps, 0) == [Patch(3, 5, "AB")]
  {
    var last := [Patch(3, 5, "AB")];
    assert ps == [Patch(0, 2, "AB")] + last && last[1..] == [];
    assert t[0..2] == "AB" && t[3..5] == "ab";
    assert Ordered(t, last, 2) && Changed(t, last, 2) == last;
    ChangedCons(t, Patch(0, 2, "AB"), last, 0);
  }

  /**
    A caret strictly inside a match that already reads like the replacement jumps behind that match, although
    no operation touches it: "AB ab", searched for "ab" without regard to case and replaced by "AB".
   */
  lemma CaretLeavesUnchangedMatch(f: CharFold)
    requires FoldOk(f) && f('A') == f('a') == "a" && f('B') == f('b') == "b" && f(' ') == " "
    ensures
      var t, ms := "AB ab", [SearchMatch(0, 2), SearchMatch(3, 5)];
      var ps := PatchesOf(ms, "AB");
      && Greedy(f, t, "ab", 0) == ms && Ordered(t, ps, 0) && Changed(t, ps, 0) == [Patch(3, 5, "AB")]
      && Build(t, ps, 0) == "AB AB" && MapOffset(1, ps, 0) == 2
      && t[1] == 'B' && Build(t, ps, 0)[2] == ' '
  {
    hide Greedy, FoldOk, Ordered, Build, MapOffset, Changed;
    var t, ms := "AB ab", [SearchMatch(0, 2), SearchMatch(3, 5)];
    GreedyExample(f, t);
    BuildExample(t, PatchesOf(ms, "AB"));
    ChangedExample(t, PatchesOf(ms, "AB"));
  }

  class SearchController {
    var query: string
    var replacement: string
    var matchCase: bool

    ghost predicate Valid()
      reads this
    {
      (query == "" || ValidQuery(query)) && '\n' !in replacement && '\r' !in replacement
    }

    constructor ()
      ensures Valid() && query == "" && replacement == "" && !matchCase
    {
      query, replacement, matchCase := "", "", false;
    }

    /** A field that is refused leaves the fields checked before it updated, as the editor does. */
    method Configure(newQuery: Option<string>, newReplacement: Option<string>, newMatchCase: Option<bool>)
      returns (error: Option<PlanError>)
      requires Valid()
      modifies this
      ensures Valid()
      ensures
        var queryError := if newQuery.Some? then ValidateQuery(newQuery.value) else None;
        var multiLine := newReplacement.Some? && ('\n' in newReplacement.value || '\r' in newReplacement.value);
        && error == (if queryError.Some? then Some(Search(queryError.value))
                     else if multiLine then Some(MultiLineReplacement) else None)
        && query == (if newQuery.Some? && queryError.None? then newQuery.value else old(query))
        && replacement == (if newReplacement.Some? && error.None? then newReplacement.value else old(replacement))
        && matchCase == (if newMatchCase.Some? && error.None? then newMatchCase.value else old(matchCase))
    {
      if newQuery.Some? {
        var invalid := ValidateQuery(newQuery.value);
        if invalid.Some? { return Some(Search(invalid.value)); }
        query := newQuery.value;
      }
      if newReplacement.Some? {
        if '\n' in newReplacement.value || '\r' in newReplacement.value { return Some(MultiLineReplacement); }
        replacement := newReplacement.value;
      }
      if newMatchCase.Some? { matchCase := newMatchCase.value; }
      error := None;
    }

    method BuildReplaceAllPlan(f: CharFold, t: string, id: nat, view: ViewState)
      returns (r: Result<EditPlan, PlanError>)
      requires Valid() && FoldOk(f)
      ensures query == "" ==> r == Err(NoQuery)
      ensures query != "" ==>
                var all := Greedy(FoldFor(f, matchCase), t, query, 0);
                && Ordered(t, PatchesOf(all, replacement), 0)
                && if matchCase && query == replacement then r == Ok(NoOp(id, t, view))
                   else ReplaceAllSpec(t, all, replacement, id, view, r)
    {
      if query == "" {
        return Err(NoQuery);
      }
      ghost var all := Greedy(FoldFor(f, matchCase), t, query, 0);
      GreedyIsDisjoint(FoldFor(f, matchCase), t, query, 0);
      MatchesAreOrdered(FoldFor(f, matchCase), t, query, all, replacement, 0);
      if matchCase && query == replacement {
        return Ok(NoOp(id, t, view));
      }
      var found := FindAll(f, t, query, matchCase, Some(MAX_REPLACE_ALL_MATCHES));
      if found.Err? {
        return Err(Search(found.error));
      }
      MatchesInText(FoldFor(f, matchCase), t, query, all, 0);
      r := PlanReplaceAll(t, found.value, replacement, id, view);
    }

    method SelectionIsMatch(f: CharFold, t: string, start: int, end: int) returns (r: bool)
      requires Valid() && FoldOk(f)
      ensures r == (query != "" && IsExactMatch(f, t, query, start, end, matchCase) == Ok(true))
    {
      if query == "" {
        return false;
      }
      var answer := IsExactMatch(f, t, query, start, end, matchCase);
      r := answer.value;
    }

    /** The match to replace: the selection if it is one, otherwise the next match. */
    method ChooseMatch(f: CharFold, t: string, view: ViewState, start: nat, end: nat) returns (r: Option<SearchMatch>)
      requires Valid() && FoldOk(f) && query != "" && start <= end
      ensures ChosenMatch(FoldFor(f, matchCase), t, query, !matchCase, view, start, end, r)
    {
      SelectionTestIsMatch(f, t, query, SearchMatch(start, end), matchCase);
      var selected := SelectionIsMatch(f, t, start, end);
      if selected {
        return Some(SearchMatch(start, end));
      }
      var anchor := if end > start then end else view.insert;
      var result := FindNext(f, t, query, anchor, matchCase, true);
      r := result.value.found;
    }

    /** Where the selection goes after a replacement that ends at `here`: the next match, or a caret there. */
    method TargetAfter(f: CharFold, t: string, here: nat) returns (r: ViewState)
      requires Valid() && FoldOk(f) && query != ""
      ensures TargetSpec(FoldFor(f, matchCase), t, query, !matchCase, here, r)
    {
      var next := FindNext(f, t, query, here, matchCase, true);
      var m := next.value.found;
      r := if m.Some? then ViewState(m.value.end, m.value.start) else ViewState(here, here);
      assert NextSpec(FoldFor(f, matchCase), t, query, Clamped(here, t), !matchCase, true, next.value);
    }

    method ReplaceMatch(f: CharFold, t: string, id: nat, view: ViewState, m: SearchMatch)
      returns (r: Result<Option<EditPlan>, PlanError>)
      requires Valid() && FoldOk(f) && query != "" && Matches(FoldFor(f, matchCase), t, query, Within(m, t))
      ensures ReplacesMatch(FoldFor(f, matchCase), t, query, !matchCase, Patch(m.start, Within(m, t).end, replacement),
                            id, view, r)
      ensures r != Ok(None)
    {
      hide TargetSpec, Renderable, NextSpec, FirstOffender, PlanFor, Ordered, Fold;
      ghost var g := FoldFor(f, matchCase);
      var end := Min(m.end, |t|);
      var original := t[m.start..end];
      if original == replacement {
        var target := TargetAfter(f, t, m.end);
        TargetBehindText(g, t, query, !matchCase, m, target);
        return Ok(Some(NoOp(id, t, view).(targetView := target)));
      }
      var finalText := t[..m.start] + replacement + t[end..];
      var wide := EnsureTextRenderable(finalText, MAX_LINE_CHARS);
      if wide.Some? {
        return Err(LineTooWide(wide.value));
      }
      var target := TargetAfter(f, finalText, m.start + |replacement|);
      var ops := OperationsOf(t, SearchMatch(m.start, end), replacement);
      PlanOfOne(t, Patch(m.start, end, replacement), id, view, target);
      r := Ok(Some(EditPlan(id, t, finalText, ops, view, target, 1)));
    }

    method BuildReplaceOnePlan(f: CharFold, t: string, id: nat, view: ViewState, selectionStart: nat, selectionEnd: nat)
      returns (r: Result<Option<EditPlan>, PlanError>)
      requires Valid() && FoldOk(f)
      ensures query == "" ==> r == Err(NoQuery)
      ensures query != "" ==>
                ReplaceOneSpec(FoldFor(f, matchCase), t, query, !matchCase, replacement, id, view,
                               Min(selectionStart, selectionEnd), Max(selectionStart, selectionEnd), r)
    {
      if query == "" {
        return Err(NoQuery);
      }
      var start, end := Min(selectionStart, selectionEnd), Max(selectionStart, selectionEnd);
      var chosen := ChooseMatch(f, t, view, start, end);
      if chosen.None? {
        return Ok(None);
      }
      var m := chosen.value;
      ChosenIsMatch(FoldFor(f, matchCase), t, query, !matchCase, view, start, end, m);
      r := ReplaceMatch(f, t, id, view, m);
      assert ReplacesMatch(FoldFor(f, matchCase), t, query, !matchCase,
                           Patch(m.start, Within(m, t).end, replacement), id, view, r);
    }
  }
}
