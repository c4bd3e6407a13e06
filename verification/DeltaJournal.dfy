/** The undo/redo journal as a value: its operations, its bound, and what they keep. */
module DeltaJournal {
  import opened Prelude
  import opened Edits
  import opened EditHistory

  datatype Reply = Nothing | Broken | Replay(plan: Plan)

  /** The longest tail of the undo stack within the group limit. */
  function DropOverCount(undo: seq<Group>, maxGroups: nat): seq<Group> {
    if |undo| > maxGroups then undo[|undo| - maxGroups..] else undo
  }

  function DropOverPayload(undo: seq<Group>, maxPayload: nat): seq<Group> {
    if Payload(undo) > maxPayload && |undo| > 1 then DropOverPayload(undo[1..], maxPayload) else undo
  }

  function Trimmed(undo: seq<Group>, maxGroups: nat, maxPayload: nat): seq<Group> {
    DropOverPayload(DropOverCount(undo, maxGroups), maxPayload)
  }

  /** A finished group joins the last one or is pushed on top of it. */
  function Pushed(undo: seq<Group>, group: Group, saved: Option<nat>): seq<Group> {
    if undo == [] then [group]
    else match MergedGroup(undo[|undo| - 1], group, saved)
      case None => undo + [group]
      case Some(merged) => undo[|undo| - 1 := merged]
  }

  datatype Journal = Journal(maxGroups: nat, maxPayload: nat, undo: seq<Group>, redo: seq<Group>,
                             currentId: nat, nextId: nat, pending: seq<Delta>,
                             pendingBeforeId: Option<nat>, pendingBeforeView: Option<ViewState>)
  {
    predicate GroupActive() { pendingBeforeId.Some? }

    predicate Usable() { pendingBeforeId.Some? <==> pendingBeforeView.Some? }

    function Reset(): Journal
      requires !GroupActive()
    {
      this.(undo := [], redo := [], currentId := nextId, nextId := nextId + 1)
    }

    function BeginGroup(view: ViewState): Result<Journal, HistoryError> {
      if GroupActive() then Err(GroupOpen)
      else if currentId == 0 then Err(NotInitialized)
      else Ok(this.(pending := [], pendingBeforeId := Some(currentId), pendingBeforeView := Some(view)))
    }

    function Record(delta: Delta): Result<Journal, HistoryError> {
      if !GroupActive() then Err(NoGroup)
      else if delta.op.text == "" then Err(EmptyDelta)
      else Ok(this.(pending := pending + [delta]))
    }

    function AbortGroup(): Journal {
      this.(pending := [], pendingBeforeId := None, pendingBeforeView := None)
    }

    function EndGroup(view: ViewState, saved: Option<nat>): Journal
      requires Usable() && GroupActive()
    {
      if pending == [] then AbortGroup()
      else
        var group := Group(pending, pendingBeforeId.value, nextId, pendingBeforeView.value, view);
        AbortGroup().(undo := Trimmed(Pushed(undo, group, saved), maxGroups, maxPayload), redo := [],
                      currentId := nextId, nextId := nextId + 1)
    }

    function Undo(): (Journal, Reply)
      requires !GroupActive()
    {
      if undo == [] then (this, Nothing)
      else
        var g, rest := undo[|undo| - 1], undo[..|undo| - 1];
        if g.afterId != currentId then (this.(undo := rest), Broken)
        else (this.(undo := rest, redo := redo + [g], currentId := g.beforeId),
              Replay(Plan(UndoOps(g.deltas), g.beforeId, g.beforeView)))
    }

    function Redo(): (Journal, Reply)
      requires !GroupActive()
    {
      if redo == [] then (this, Nothing)
      else
        var g, rest := redo[|redo| - 1], redo[..|redo| - 1];
        if g.beforeId != currentId then (this.(redo := rest), Broken)
        else (this.(undo := Trimmed(undo + [g], maxGroups, maxPayload), redo := rest, currentId := g.afterId),
              Replay(Plan(RedoOps(g.deltas), g.afterId, g.afterView)))
    }

    /** Going back to a checkpoint; state IDs used since then stay used. */
    function Restore(checkpoint: Journal): Journal {
      checkpoint.(maxGroups := maxGroups, maxPayload := maxPayload, nextId := Max(nextId, checkpoint.nextId))
    }
  }

  const EMPTY: Journal := Journal(MAX_GROUPS, MAX_PAYLOAD, [], [], 0, 1, [], None, None)

  // --- The memory bound ----------------------------------------------------------------------

  predicate Fits(groups: seq<Group>, maxGroups: nat, maxPayload: nat) {
    |groups| <= maxGroups && (Payload(groups) <= maxPayload || |groups| <= 1)
  }

  lemma {:induction false} PayloadConcat(a: seq<Group>, b: seq<Group>)
    ensures Payload(a + b) == Payload(a) + Payload(b)
  {
    if a == [] {
      assert a + b == b;
    } else {
      assert (a + b)[1..] == a[1..] + b;
      PayloadConcat(a[1..], b);
    }
  }

  lemma {:induction false} DropOverPayloadIsLongest(undo: seq<Group>, maxPayload: nat) returns (k: nat)
    ensures k <= |undo| && DropOverPayload(undo, maxPayload) == undo[k..] && (undo != [] ==> k < |undo|)
    ensures Payload(undo[k..]) <= maxPayload || |undo| - k <= 1
    ensures forall j: nat | j < k :: Payload(undo[j..]) > maxPayload && |undo| - j > 1
  {
    if Payload(undo) > maxPayload && |undo| > 1 {
      var m := DropOverPayloadIsLongest(undo[1..], maxPayload);
      k := m + 1;
      forall j: nat | j < k ensures Payload(undo[j..]) > maxPayload && |undo| - j > 1 {
        if j > 0 { assert undo[j..] == undo[1..][j - 1..]; }
      }
    } else {
      k := 0;
    }
  }

  /** Trimming keeps the longest tail of the undo stack that fits both limits. */
  lemma TrimKeepsLongestTail(undo: seq<Group>, maxGroups: nat, maxPayload: nat) returns (k: nat)
    requires maxGroups > 0
    ensures k <= |undo| && Trimmed(undo, maxGroups, maxPayload) == undo[k..] && (undo != [] ==> k < |undo|)
    ensures Fits(undo[k..], maxGroups, maxPayload)
    ensures forall j: nat | j < k :: !Fits(undo[j..], maxGroups, maxPayload)
  {
    var base := if |undo| > maxGroups then |undo| - maxGroups else 0;
    var m := DropOverPayloadIsLongest(undo[base..], maxPayload);
    k := base + m;
    forall j: nat | j < k ensures !Fits(undo[j..], maxGroups, maxPayload) {
      if j >= base { assert undo[j..] == undo[base..][j - base..]; }
    }
  }

  predicate Bounded(j: Journal) {
    && 0 < j.maxGroups && 0 < j.maxPayload && j.Usable()
    && Fits(j.undo + j.redo, j.maxGroups, j.maxPayload)
  }

  lemma TrimOfFitting(undo: seq<Group>, maxGroups: nat, maxPayload: nat)
    requires Fits(undo, maxGroups, maxPayload)
    ensures Trimmed(undo, maxGroups, maxPayload) == undo
  {
  }

  lemma MoveKeepsBound(j: Journal, undo: seq<Group>, g: Group, redo: seq<Group>)
    requires 0 < j.maxGroups
    ensures Fits((undo + [g]) + redo, j.maxGroups, j.maxPayload) ==>
      Fits(undo + (redo + [g]), j.maxGroups, j.maxPayload) && Fits(undo + [g], j.maxGroups, j.maxPayload)
    ensures Fits(undo + (redo + [g]), j.maxGroups, j.maxPayload) ==>
      Fits((undo + [g]) + redo, j.maxGroups, j.maxPayload) && Fits(undo + [g], j.maxGroups, j.maxPayload)
  {
    PayloadConcat(undo, [g]);
    PayloadConcat(undo + [g], redo);
    PayloadConcat(redo, [g]);
    PayloadConcat(undo, redo + [g]);
  }

  lemma EndGroupKeepsBound(j: Journal, view: ViewState, saved: Option<nat>)
    requires Bounded(j) && j.GroupActive()
    ensures Bounded(j.EndGroup(view, saved))
  {
    if j.pending != [] {
      var group := Group(j.pending, j.pendingBeforeId.value, j.nextId, j.pendingBeforeView.value, view);
      var k := TrimKeepsLongestTail(Pushed(j.undo, group, saved), j.maxGroups, j.maxPayload);
      assert j.EndGroup(view, saved).undo + [] == j.EndGroup(view, saved).undo;
    }
  }

  lemma UndoKeepsBound(j: Journal)
    requires Bounded(j) && !j.GroupActive()
    ensures Bounded(j.Undo().0)
  {
    if j.undo != [] {
      var g, rest := j.undo[|j.undo| - 1], j.undo[..|j.undo| - 1];
      assert j.undo == rest + [g];
      MoveKeepsBound(j, rest, g, j.redo);
      PayloadConcat(rest, j.redo);
      PayloadConcat(rest, j.redo + [g]);
      PayloadConcat(j.redo, [g]);
    }
  }

  lemma RedoKeepsBound(j: Journal)
    requires Bounded(j) && !j.GroupActive()
    ensures Bounded(j.Redo().0)
    ensures j.redo != [] ==>
              Trimmed(j.undo + [j.redo[|j.redo| - 1]], j.maxGroups, j.maxPayload) == j.undo + [j.redo[|j.redo| - 1]]
  {
    if j.redo != [] {
      var g, rest := j.redo[|j.redo| - 1], j.redo[..|j.redo| - 1];
      assert j.redo == rest + [g];
      MoveKeepsBound(j, j.undo, g, rest);
      TrimOfFitting(j.undo + [g], j.maxGroups, j.maxPayload);
      PayloadConcat(j.undo, rest);
      PayloadConcat(j.undo, rest + [g]);
      PayloadConcat(rest, [g]);
    }
  }

  /** No operation lets the two stacks together outgrow their limits. */
  lemma BoundKept(j: Journal, view: ViewState, saved: Option<nat>, checkpoint: Journal)
    requires Bounded(j)
    ensures j.GroupActive() ==> Bounded(j.EndGroup(view, saved))
    ensures !j.GroupActive() ==> Bounded(j.Undo().0) && Bounded(j.Redo().0) && Bounded(j.Reset())
    ensures Bounded(checkpoint) && checkpoint.maxGroups == j.maxGroups && checkpoint.maxPayload == j.maxPayload ==>
      Bounded(j.Restore(checkpoint))
  {
    if j.GroupActive() {
      EndGroupKeepsBound(j, view, saved);
    }
    if !j.GroupActive() {
      UndoKeepsBound(j);
      RedoKeepsBound(j);
    }
  }

  lemma InverseTwice(ops: seq<Op>)
    ensures Inverse(Inverse(ops)) == ops
  {
  }

  /** The trim inside Redo never evicts: Undo and Redo are exact inverses on the whole journal. */
  lemma UndoRedoInverse(j: Journal)
    requires Bounded(j) && !j.GroupActive()
    ensures j.Undo().1.Replay? ==> j.Undo().0.Redo().0 == j
    ensures j.Redo().1.Replay? ==> j.Redo().0.Undo().0 == j
    ensures j.Undo().1.Replay? ==> j.Undo().0.Redo().1.plan.ops == Inverse(j.Undo().1.plan.ops)
  {
    if j.Undo().1.Replay? {
      var g := j.undo[|j.undo| - 1];
      var after := j.Undo().0;
      assert j.undo == j.undo[..|j.undo| - 1] + [g];
      UndoKeepsBound(j);
      RedoKeepsBound(after);
      assert after.redo[|after.redo| - 1] == g && after.redo[..|after.redo| - 1] == j.redo;
      InverseTwice(RedoOps(g.deltas));
    }
    if j.Redo().1.Replay? {
      var g := j.redo[|j.redo| - 1];
      RedoKeepsBound(j);
      assert j.redo == j.redo[..|j.redo| - 1] + [g];
      assert (j.undo + [g])[..|j.undo|] == j.undo;
    }
  }

  // --- State IDs -----------------------------------------------------------------------------

  /** The states that Undo passes through, the current one included. */
  ghost predicate OnUndoChain(undo: seq<Group>, current: nat, id: nat) {
    id == current || exists i :: 0 <= i < |undo| && undo[i].beforeId == id
  }

  ghost predicate UndoChain(undo: seq<Group>, current: nat) {
    && (forall k {:trigger undo[k].beforeId} | 0 < k < |undo| :: undo[k].beforeId == undo[k - 1].afterId)
    && (undo != [] ==> undo[|undo| - 1].afterId == current)
  }

  ghost predicate RedoChain(redo: seq<Group>, current: nat) {
    && (forall k {:trigger redo[k].afterId} | 0 < k < |redo| :: redo[k].afterId == redo[k - 1].beforeId)
    && (redo != [] ==> redo[|redo| - 1].beforeId == current)
  }

  lemma ChainExtends(groups: seq<Group>, current: nat, g: Group)
    ensures UndoChain(groups, current) && g.beforeId == current ==> UndoChain(groups + [g], g.afterId)
    ensures RedoChain(groups, current) && g.afterId == current ==> RedoChain(groups + [g], g.beforeId)
    ensures groups != [] && UndoChain(groups, current) ==>
              UndoChain(groups[..|groups| - 1], groups[|groups| - 1].beforeId)
    ensures groups != [] && RedoChain(groups, current) ==>
              RedoChain(groups[..|groups| - 1], groups[|groups| - 1].afterId)
  {
  }

  lemma ChainTail(undo: seq<Group>, current: nat, k: nat)
    requires UndoChain(undo, current) && k <= |undo|
    ensures UndoChain(undo[k..], current)
  {
  }

  lemma PushedChain(undo: seq<Group>, current: nat, group: Group, saved: Option<nat>)
    requires UndoChain(undo, current) && group.beforeId == current
    ensures UndoChain(Pushed(undo, group, saved), group.afterId)
    ensures undo != [] ==> undo[|undo| - 1].afterId == current
  {
  }

  /** Coalescing never removes the saved state from the undo chain; only eviction can. */
  lemma CoalescingKeepsSaved(undo: seq<Group>, current: nat, group: Group, saved: nat)
    requires UndoChain(undo, current) && group.beforeId == current
    requires OnUndoChain(undo, current, saved)
    ensures UndoChain(Pushed(undo, group, Some(saved)), group.afterId)
    ensures OnUndoChain(Pushed(undo, group, Some(saved)), group.afterId, saved)
  {
    PushedChain(undo, current, group, Some(saved));
    var pushed := Pushed(undo, group, Some(saved));
    if saved == current {
      assert pushed[|pushed| - 1].beforeId == saved;
    } else {
      var i :| 0 <= i < |undo| && undo[i].beforeId == saved;
      assert pushed[i].beforeId == saved;
    }
  }

  // --- What a state ID stands for ------------------------------------------------------------

  /** A recorded edit leads from the text of its first state to the text of its second one. */
  ghost predicate Leads(deltas: seq<Delta>, before: string, after: string) {
    && Replays(before, RedoOps(deltas), after) && InRange(before, RedoOps(deltas))
    && forall i | 0 <= i < |deltas| :: deltas[i].op.text != ""
  }

  ghost predicate GroupOk(g: Group, texts: map<nat, string>) {
    && g.deltas != [] && g.beforeId != g.afterId && g.beforeId in texts && g.afterId in texts
    && Leads(g.deltas, texts[g.beforeId], texts[g.afterId])
  }

  ghost predicate GroupsOk(groups: seq<Group>, texts: map<nat, string>) {
    forall i | 0 <= i < |groups| :: GroupOk(groups[i], texts)
  }

  /** Every state ID in the journal stands for one text, and every group leads between two such texts. */
  ghost predicate Sound(j: Journal, texts: map<nat, string>) {
    && Bounded(j) && 0 < j.nextId
    && (forall id | id in texts :: 0 < id < j.nextId)
    && (if j.currentId == 0 then j.undo == [] && j.redo == [] else j.currentId in texts)
    && UndoChain(j.undo, j.currentId) && RedoChain(j.redo, j.currentId)
    && GroupsOk(j.undo, texts) && GroupsOk(j.redo, texts)
    && (j.GroupActive() ==> j.currentId > 0 && j.pendingBeforeId == Some(j.currentId))
  }

  lemma MergedGroupOk(p: Group, c: Group, saved: Option<nat>, texts: map<nat, string>)
    requires GroupOk(p, texts) && GroupOk(c, texts) && p.afterId == c.beforeId && p.beforeId != c.afterId
    requires MergedGroup(p, c, saved).Some?
    ensures GroupOk(MergedGroup(p, c, saved).value, texts)
  {
    var m := MergedGroup(p, c, saved).value;
    var t, mid, u := texts[p.beforeId], texts[p.afterId], texts[c.afterId];
    var a, b := p.deltas[0], c.deltas[0];
    assert RedoOps(p.deltas) == [a.op] && RedoOps(c.deltas) == [b.op] && RedoOps(m.deltas) == [m.deltas[0].op];
    ProgressOne(t, a.op);
    ProgressOne(mid, b.op);
    ReplaysTwo(t, a.op, b.op, u);
    MergeReplays(a, b, t, u);
  }

  lemma PushedGroupsOk(undo: seq<Group>, group: Group, saved: Option<nat>, texts: map<nat, string>, live: string)
    requires UndoChain(undo, group.beforeId) && GroupsOk(undo, texts)
    requires group.beforeId in texts && group.afterId !in texts && group.deltas != []
    requires Leads(group.deltas, texts[group.beforeId], live)
    ensures GroupsOk(Pushed(undo, group, saved), texts[group.afterId := live])
  {
    var texts' := texts[group.afterId := live];
    assert GroupOk(group, texts');
    forall i | 0 <= i < |undo| ensures GroupOk(undo[i], texts') && undo[i].beforeId != group.afterId {
      assert GroupOk(undo[i], texts);
    }
    if undo != [] && MergedGroup(undo[|undo| - 1], group, saved).Some? {
      MergedGroupOk(undo[|undo| - 1], group, saved, texts');
    }
  }

  /** What closing a non-empty group does to the undo stack: push or merge, then drop a prefix. */
  lemma EndGroupStack(j: Journal, view: ViewState, saved: Option<nat>) returns (group: Group, k: nat)
    requires Bounded(j) && j.GroupActive() && j.pending != [] && UndoChain(j.undo, j.currentId)
    requires j.pendingBeforeId == Some(j.currentId)
    ensures group == Group(j.pending, j.currentId, j.nextId, j.pendingBeforeView.value, view)
    ensures k <= |Pushed(j.undo, group, saved)| && j.EndGroup(view, saved).undo == Pushed(j.undo, group, saved)[k..]
    ensures UndoChain(j.EndGroup(view, saved).undo, j.nextId)
  {
    group := Group(j.pending, j.currentId, j.nextId, j.pendingBeforeView.value, view);
    PushedChain(j.undo, j.currentId, group, saved);
    k := TrimKeepsLongestTail(Pushed(j.undo, group, saved), j.maxGroups, j.maxPayload);
    ChainTail(Pushed(j.undo, group, saved), j.nextId, k);
  }

  lemma GroupsOkTail(groups: seq<Group>, texts: map<nat, string>, k: nat)
    requires GroupsOk(groups, texts) && k <= |groups|
    ensures GroupsOk(groups[k..], texts)
  {
    hide GroupOk;
    forall i | 0 <= i < |groups| - k ensures GroupOk(groups[k..][i], texts) { assert GroupOk(groups[k + i], texts); }
  }

  lemma EndGroupFields(j: Journal, view: ViewState, saved: Option<nat>)
    requires j.Usable() && j.GroupActive() && j.pending != []
    ensures var after := j.EndGroup(view, saved);
            after.redo == [] && after.currentId == j.nextId && after.nextId == j.nextId + 1 && !after.GroupActive()
  {}

  lemma EndGroupUndoOk(j: Journal, texts: map<nat, string>, live: string, view: ViewState, saved: Option<nat>)
    requires Sound(j, texts) && j.GroupActive() && j.pending != [] && Leads(j.pending, texts[j.currentId], live)
    ensures UndoChain(j.EndGroup(view, saved).undo, j.nextId)
    ensures GroupsOk(j.EndGroup(view, saved).undo, texts[j.nextId := live])
  {
    var group, k := EndGroupStack(j, view, saved);
    hide UndoChain, RedoChain, GroupsOk, Leads, Pushed, Trimmed;
    PushedGroupsOk(j.undo, group, saved, texts, live);
    GroupsOkTail(Pushed(j.undo, group, saved), texts[j.nextId := live], k);
  }

  /** Closing a group keeps the journal sound: the new ID stands for the text the edits lead to. */
  lemma EndGroupSound(j: Journal, texts: map<nat, string>, live: string, view: ViewState, saved: Option<nat>)
    requires Sound(j, texts) && j.GroupActive() && j.pending != [] && Leads(j.pending, texts[j.currentId], live)
    ensures Sound(j.EndGroup(view, saved), texts[j.nextId := live])
  {
    hide Leads, Pushed, Trimmed, GroupOk, Fits;
    EndGroupUndoOk(j, texts, live, view, saved);
    EndGroupKeepsBound(j, view, saved);
    EndGroupFields(j, view, saved);
    assert RedoChain([], j.nextId) && GroupsOk([], texts[j.nextId := live]);
  }

  lemma MoveGroup(from: seq<Group>, to: seq<Group>, texts: map<nat, string>)
    requires from != [] && GroupsOk(from, texts) && GroupsOk(to, texts)
    ensures GroupsOk(from[..|from| - 1], texts) && GroupsOk(to + [from[|from| - 1]], texts)
  {
  }

  lemma UndoSound(j: Journal, texts: map<nat, string>)
    requires Sound(j, texts) && !j.GroupActive() && j.undo != []
    ensures Sound(j.Undo().0, texts)
  {
    UndoKeepsBound(j);
    MoveGroup(j.undo, j.redo, texts);
    var g, after := j.undo[|j.undo| - 1], j.Undo().0;
    assert GroupOk(g, texts);
    assert after.redo == j.redo + [g] && after.undo == j.undo[..|j.undo| - 1];
    ChainExtends(j.undo, j.currentId, g);
    ChainExtends(j.redo, j.currentId, g);
  }

  ghost predicate ReplayLeads(j: Journal, texts: map<nat, string>, after: Journal, reply: Reply) {
    && reply.Replay? && reply.plan.targetId == after.currentId
    && j.currentId in texts && after.currentId in texts
    && Replays(texts[j.currentId], reply.plan.ops, texts[after.currentId])
  }

  lemma UndoLeads(j: Journal, texts: map<nat, string>)
    requires Sound(j, texts) && !j.GroupActive() && j.undo != []
    ensures ReplayLeads(j, texts, j.Undo().0, j.Undo().1)
  {
    var g := j.undo[|j.undo| - 1];
    assert GroupOk(g, texts);
    InverseExact(texts[g.beforeId], RedoOps(g.deltas));
  }

  lemma RedoSound(j: Journal, texts: map<nat, string>)
    requires Sound(j, texts) && !j.GroupActive() && j.redo != []
    ensures Sound(j.Redo().0, texts)
  {
    RedoKeepsBound(j);
    MoveGroup(j.redo, j.undo, texts);
    var g, after := j.redo[|j.redo| - 1], j.Redo().0;
    assert GroupOk(g, texts);
    assert after.undo == j.undo + [g] && after.redo == j.redo[..|j.redo| - 1];
    ChainExtends(j.undo, j.currentId, g);
    ChainExtends(j.redo, j.currentId, g);
  }

  lemma RedoLeads(j: Journal, texts: map<nat, string>)
    requires Sound(j, texts) && !j.GroupActive() && j.redo != []
    ensures ReplayLeads(j, texts, j.Redo().0, j.Redo().1)
  {
    assert GroupOk(j.redo[|j.redo| - 1], texts);
  }

  /**
    In a sound journal Undo and Redo always find their group, and its operations lead from the
    text of the current state to the text of the target state without a mismatch.
   */
  lemma ReplaySound(j: Journal, texts: map<nat, string>)
    requires Sound(j, texts) && !j.GroupActive()
    ensures Sound(j.Undo().0, texts) && Sound(j.Redo().0, texts)
    ensures if j.undo == [] then j.Undo() == (j, Nothing) else ReplayLeads(j, texts, j.Undo().0, j.Undo().1)
    ensures if j.redo == [] then j.Redo() == (j, Nothing) else ReplayLeads(j, texts, j.Redo().0, j.Redo().1)
  {
    if j.undo != [] { UndoSound(j, texts); UndoLeads(j, texts); }
    if j.redo != [] { RedoSound(j, texts); RedoLeads(j, texts); }
  }

  /** State IDs are issued in strictly increasing order and never taken back. */
  lemma IdsOnlyGrow(j: Journal, view: ViewState, saved: Option<nat>, checkpoint: Journal)
    ensures j.Usable() && j.GroupActive() ==>
      var k := j.EndGroup(view, saved);
      k.nextId >= j.nextId && (k.currentId != j.currentId ==> k.currentId == j.nextId < k.nextId)
    ensures !j.GroupActive() ==> j.Reset().currentId == j.nextId < j.Reset().nextId
    ensures !j.GroupActive() ==> j.Undo().0.nextId == j.nextId == j.Redo().0.nextId
    ensures j.Restore(checkpoint).nextId >= j.nextId && j.Restore(checkpoint).nextId >= checkpoint.nextId
  {
  }
}
