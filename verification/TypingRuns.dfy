/** What one Undo takes back of typing: the last run of characters of one sort, however long the typing was. */
module TypingRuns {
  import opened Prelude
  import opened Edits
  import opened EditHistory
  import opened DeltaJournal
  import opened EditorRun
  import opened EditorSafety
  import opened EditorGuards

  // --- Runs of one sort ----------------------------------------------------------------------

  /** A run of one sort starts at `k`, reaches to the end of `s`, and is not a part of a longer one. */
  predicate StartsLastRun(s: string, k: nat) {
    k < |s| && OneSort(s[k..]) && (k > 0 ==> !OneSort(s[k - 1..]))
  }

  lemma PartOfSort(s: string, part: string)
    requires OneSort(s) && forall c | c in part :: c in s
    ensures OneSort(part)
  {}

  lemma OneLastRun(s: string, k: nat, m: nat)
    requires StartsLastRun(s, k) && StartsLastRun(s, m)
    ensures k == m
  {
    if k < m { PartOfSort(s[k..], s[m - 1..]); }
    if m < k { PartOfSort(s[m..], s[k - 1..]); }
  }

  function SortOf(c: char): nat {
    if c == '\r' || c == '\n' then 0 else if c == '\t' then 1 else if IsSpace(c) then 2 else 3
  }

  lemma SortsAgree(s: string, c: char)
    requires c in s
    ensures OneSort(s) <==> forall d | d in s :: SortOf(d) == SortOf(c)
  {}

  lemma RunGrows(run: string, last: char, c: char)
    requires OneSort(run) && last in run
    ensures OneSort(run + [c]) <==> OneSort([last, c])
  {
    SortsAgree(run, last);
    SortsAgree(run + [c], last);
    SortsAgree([last, c], last);
    hide OneSort, SortOf;
    assert c in run + [c] && c in [last, c];
  }

  lemma RunGoesOn(s: string, k: nat, c: char)
    requires StartsLastRun(s, k)
    ensures if OneSort(s[k..] + [c]) then StartsLastRun(s + [c], k) else StartsLastRun(s + [c], |s|)
  {
    var t, last := s + [c], s[|s| - 1];
    assert t[k..] == s[k..] + [c] && t[|s|..] == [c] && t[|s| - 1..] == [last, c];
    assert OneSort([c]);
    assert last == s[k..][|s| - k - 1];
    RunGrows(s[k..], last, c);
    hide OneSort;
    if OneSort(t[k..]) && k > 0 && OneSort(t[k - 1..]) {
      assert t[k - 1..] == s[k - 1..] + [c];
      PartOfSort(s[k - 1..] + [c], s[k - 1..]);
    }
  }

  // --- Typing --------------------------------------------------------------------------------

  function CaretAt(x: nat): ViewState { ViewState(x, x) }

  /** A document is open and no group is. */
  ghost predicate Ready(w: World) {
    Inv(w) && !w.journal.GroupActive() && w.journal.currentId > 0
  }

  /** One character typed behind the text, as the editor groups it: begin, insert, end. */
  ghost function TypeOne(w: World, c: char): World
    requires Ready(w)
  {
    var begun := Step(w, BeginNative(CaretAt(|w.text|)));
    StepKeeps(w, BeginNative(CaretAt(|w.text|)));
    var typed := Step(begun, TypeText(|w.text|, [c]));
    StepKeeps(begun, TypeText(|w.text|, [c]));
    Step(typed, EndNative(CaretAt(|w.text| + 1)))
  }

  function CharGroup(w: World, c: char): Group {
    Group([Delta(Op(Insert, |w.text|, [c]), Range)], w.journal.currentId, w.journal.nextId,
          CaretAt(|w.text|), CaretAt(|w.text| + 1))
  }

  /** Beginning a group and typing records one insertion. */
  lemma TypedPending(w: World, c: char)
    requires Ready(w)
    ensures
      var begun := Step(w, BeginNative(CaretAt(|w.text|)));
      var typed := Native(begun, Op(Insert, |w.text|, [c]), Range);
      && begun.journal.Usable() && Step(begun, TypeText(|w.text|, [c])) == typed
      && typed == w.(text := w.text + [c], journal := w.journal.(
           pending := [Delta(Op(Insert, |w.text|, [c]), Range)], pendingBeforeId := Some(w.journal.currentId),
           pendingBeforeView := Some(CaretAt(|w.text|))))
  {
    hide Inv;
    assert Inv(w) && w.journal.Usable() by { UsableInv(w); }
    assert w.text[..|w.text|] + [c] + w.text[|w.text|..] == w.text + [c];
    assert Apply(w.text, Op(Insert, |w.text|, [c])) == Some(w.text + [c]);
  }

  lemma PushedHasTop(undo: seq<Group>, group: Group, saved: Option<nat>)
    ensures Pushed(undo, group, saved) != []
  {}

  lemma TypeOneIs(w: World, c: char)
    requires Ready(w)
    ensures
      var w', pushed := TypeOne(w, c), Pushed(w.journal.undo, CharGroup(w, c), w.session.savedId);
      && Ready(w') && w'.text == w.text + [c] && w'.session.savedId == w.session.savedId
      && w'.texts == w.texts[w.journal.nextId := w.text + [c]]
      && w'.journal.undo != [] && pushed != [] && w'.journal.undo[|w'.journal.undo| - 1] == pushed[|pushed| - 1]
  {
    hide Inv, Trimmed, Pushed, Bounded;
    PushedHasTop(w.journal.undo, CharGroup(w, c), w.session.savedId);
    UsableInv(w);
    TypedPending(w, c);
    StepKeeps(w, BeginNative(CaretAt(|w.text|)));
    var begun := Step(w, BeginNative(CaretAt(|w.text|)));
    StepKeeps(begun, TypeText(|w.text|, [c]));
    var typed := Step(begun, TypeText(|w.text|, [c]));
    StepKeeps(typed, EndNative(CaretAt(|w.text| + 1)));
    UsableInv(typed);
    TrimmedKeepsLast(typed.journal, CharGroup(w, c), CaretAt(|w.text| + 1), w.session.savedId);
  }

  /** The text `s` typed behind the text of `w`, one character after the other. */
  ghost function AfterTyping(w: World, s: string): (w': World)
    requires Ready(w)
    ensures Ready(w')
    decreases |s|
  {
    if s == "" then w
    else
      var before, c := AfterTyping(w, s[..|s| - 1]), s[|s| - 1];
      TypeOneIs(before, c);
      TypeOne(before, c)
  }

  /** The group on top inserts the text from `k` on, and its state before had the text up to there. */
  ghost predicate TopInserts(w: World, k: nat) {
    && w.journal.undo != [] && k < |w.text|
    && var top := w.journal.undo[|w.journal.undo| - 1];
       && top.deltas == [Delta(Op(Insert, k, w.text[k..]), Range)] && top.beforeView == CaretAt(k)
       && top.afterView == CaretAt(|w.text|)
       && top.beforeId in w.texts && w.texts[top.beforeId] == w.text[..k]
       && w.session.savedId != Some(top.afterId)
  }

  lemma FreshIsUnsaved(w: World)
    requires Inv(w)
    ensures w.journal.nextId !in w.texts && w.session.savedId != Some(w.journal.nextId)
    ensures w.journal.currentId > 0 && !w.journal.GroupActive() ==>
              w.journal.currentId in w.texts && w.texts[w.journal.currentId] == w.text
  {}

  lemma CharJoins(w: World, k: nat, c: char)
    requires Ready(w) && TopInserts(w, k)
    ensures
      var top := w.journal.undo[|w.journal.undo| - 1];
      var merged := MergedGroup(top, CharGroup(w, c), w.session.savedId);
      if OneSort(w.text[k..] + [c]) then
        merged == Some(Group([Delta(Op(Insert, k, w.text[k..] + [c]), Range)], top.beforeId, w.journal.nextId,
                             CaretAt(k), CaretAt(|w.text| + 1)))
      else merged == None
  {
    hide Inv, OneSort;
    var top := w.journal.undo[|w.journal.undo| - 1];
    MergesExactly(top.deltas[0], CharGroup(w, c).deltas[0]);
  }

  lemma TypedTop(w: World, c: char, k: nat)
    requires Ready(w) && TopInserts(w, k)
    ensures TopInserts(TypeOne(w, c), if OneSort(w.text[k..] + [c]) then k else |w.text|)
  {
    hide Inv, OneSort, MergedGroup, TypeOne;
    TypeOneIs(w, c);
    FreshIsUnsaved(w);
    CharJoins(w, k, c);
    var u := w.text + [c];
    assert u[|w.text|..] == [c] && u[..|w.text|] == w.text;
    assert u[k..] == w.text[k..] + [c] && u[..k] == w.text[..k];
  }

  /** Typing `c` begins a group of its own: there is none before it that it joins (EditHistory.MergesExactly). */
  ghost predicate StartsAfresh(w: World, c: char) {
    w.journal.undo == [] ||
    MergedGroup(w.journal.undo[|w.journal.undo| - 1], CharGroup(w, c), w.session.savedId).None?
  }

  lemma FirstTyped(w: World, c: char)
    requires Ready(w) && StartsAfresh(w, c)
    ensures TopInserts(TypeOne(w, c), |w.text|)
  {
    hide Inv, MergedGroup, TypeOne;
    TypeOneIs(w, c);
    FreshIsUnsaved(w);
    var u := w.text + [c];
    assert u[|w.text|..] == [c] && u[..|w.text|] == w.text;
  }

  lemma AfterOneMore(w: World, s: string, c: char)
    requires Ready(w)
    ensures AfterTyping(w, s + [c]) == TypeOne(AfterTyping(w, s), c)
    ensures AfterTyping(w, s + [c]).text == AfterTyping(w, s).text + [c]
  {
    hide Ready;
    assert (s + [c])[..|s|] == s;
    TypeOneIs(AfterTyping(w, s), c);
  }

  lemma LastRunTyped(w: World, t: string, s: string, c: char, m: nat)
    requires Ready(w) && w.text == t + s
    requires StartsLastRun(s, m) && TopInserts(w, |t| + m)
    ensures TopInserts(TypeOne(w, c), |t| + if OneSort(s[m..] + [c]) then m else |s|)
  {
    hide Ready, OneSort, TopInserts, TypeOne;
    TypedTop(w, c, |t| + m);
    assert w.text[|t| + m..] == s[m..];
  }

  lemma NothingTyped(w: World)
    requires Ready(w)
    ensures AfterTyping(w, "") == w
  {}

  lemma RunInText(s: string, k: nat)
    requires StartsLastRun(s, k)
    ensures k < |s|
  {}

  lemma OneCharIsRun(c: char)
    ensures StartsLastRun([c], 0)
  {}

  lemma {:induction false} TypingLeavesLastRun(w: World, s: string) returns (k: nat)
    requires Ready(w) && s != "" && StartsAfresh(w, s[0])
    ensures AfterTyping(w, s).text == w.text + s
    ensures StartsLastRun(s, k) && TopInserts(AfterTyping(w, s), |w.text| + k)
    decreases |s|
  {
    hide Ready, OneSort, TopInserts, TypeOne, AfterTyping, StartsLastRun, StartsAfresh;
    var init, c := s[..|s| - 1], s[|s| - 1];
    assert s == init + [c];
    AfterOneMore(w, init, c);
    if init == "" {
      NothingTyped(w);
      FirstTyped(w, c);
      OneCharIsRun(c);
      k := 0;
    } else {
      var m := TypingLeavesLastRun(w, init);
      LastRunTyped(AfterTyping(w, init), w.text, init, c, m);
      RunGoesOn(init, m, c);
      RunInText(init, m);
      k := if OneSort(init[m..] + [c]) then m else |init|;
    }
  }

  lemma TopIsUndone(w: World, k: nat)
    requires Ready(w) && TopInserts(w, k)
    ensures ReplayStep(w, false).text == w.text[..k]
    ensures w.journal.Undo().1.Replay? && w.journal.Undo().1.plan.targetView == CaretAt(k)
  {
    hide LiveOk, SessionOk, IntentsOk, CommittedOk;
    ReplayShowsTarget(w, false);
  }

  /**
    However much has been typed since a group was begun, one Undo takes back exactly the last run of line breaks, of
    tabs, of other blanks, or of everything else, and puts the caret where that run began.
   */
  lemma UndoTakesBackLastRun(w: World, s: string, k: nat)
    requires Ready(w) && StartsLastRun(s, k) && StartsAfresh(w, s[0])
    ensures
      var typed := AfterTyping(w, s);
      var undone, top := ReplayStep(typed, false), typed.journal.Undo().1;
      && typed.text == w.text + s && undone.text == w.text + s[..k]
      && top.Replay? && top.plan.targetView == CaretAt(|w.text| + k)
  {
    hide Ready, OneSort, ReplayStep, TopInserts, AfterTyping, StartsAfresh;
    var m := TypingLeavesLastRun(w, s);
    OneLastRun(s, k, m);
    var typed := AfterTyping(w, s);
    TopIsUndone(typed, |w.text| + k);
    assert typed.text[..|w.text| + k] == w.text + s[..k];
  }

  lemma BlankEndsRun()
    ensures StartsLastRun("a b", 2)
  {
    var s := "a b";
    assert s[2..] == "b" && s[1..] == " b";
    assert ' ' in " b" && 'b' in " b";
  }

  lemma NothingToJoin(w: World, c: char)
    requires w.journal.undo == []
    ensures StartsAfresh(w, c)
  {}

  /** After a word, a blank and another letter, Undo shows the word and the blank. */
  lemma BlankEndsTheWord(w: World)
    requires Ready(w) && w.journal.undo == [] && w.text == ""
    ensures AfterTyping(w, "a b").text == "a b" && ReplayStep(AfterTyping(w, "a b"), false).text == "a "
  {
    hide *;
    var s := "a b";
    BlankEndsRun();
    NothingToJoin(w, s[0]);
    UndoTakesBackLastRun(w, s, 2);
    assert s[..2] == "a " && "" + s == s && "" + s[..2] == s[..2];
  }
}
