/** A plan carries both a final text and the operations that lead there; these are what keeps the two in step. */
module EditPlans {
  import opened Edits
  import opened EditHistory
  import opened Patches

  datatype EditPlan = EditPlan(
    sourceId: nat, sourceText: string, finalText: string, ops: seq<Op>,
    beforeView: ViewState, targetView: ViewState, changedCount: nat)

  function NoOp(id: nat, t: string, view: ViewState): EditPlan {
    EditPlan(id, t, t, [], view, view, 0)
  }

  function PatchSize(ps: seq<Patch>): int {
    if ps == [] then 0 else ps[0].end - ps[0].start + |ps[0].text| + PatchSize(ps[1..])
  }

  /** The plan for an ordered set of patches, shown from `view`; `target` is where the caret goes. */
  function PlanFor(id: nat, t: string, ps: seq<Patch>, view: ViewState, target: ViewState): EditPlan
    requires Ordered(t, ps, 0)
  {
    EditPlan(id, t, Build(t, ps, 0), DescendingOps(t, Changed(t, ps, 0), 0), view, target, |Changed(t, ps, 0)|)
  }

  /** What every plan of the editor promises: it replays, it can be taken back, and it fits the limits. */
  ghost predicate GoodPlan(plan: EditPlan) {
    && Takes(plan.sourceText, plan.ops, plan.finalText) && Replays(plan.finalText, Inverse(plan.ops), plan.sourceText)
    && (forall i | 0 <= i < |plan.ops| :: plan.ops[i].text != "")
    && (plan.ops == [] ==> plan.finalText == plan.sourceText)
  }

  lemma PlanForIsGood(id: nat, t: string, ps: seq<Patch>, view: ViewState, target: ViewState)
    requires Ordered(t, ps, 0)
    ensures GoodPlan(PlanFor(id, t, ps, view, target))
  {
    PatchesRoundTrip(t, Changed(t, ps, 0));
    ChangedBuildsTheSame(t, ps, 0);
  }

  predicate Ascends(which: seq<nat>, n: nat) {
    && (forall i | 0 <= i < |which| :: which[i] < n)
    && (forall i, j | 0 <= i < j < |which| :: which[i] < which[j])
  }

  function OneLater(which: seq<nat>): (r: seq<nat>)
    ensures |r| == |which| && forall i | 0 <= i < |r| :: r[i] == which[i] + 1
  {
    seq(|which|, i requires 0 <= i < |which| => which[i] + 1)
  }

  lemma LaterHolds(which: seq<nat>, k: nat)
    ensures k in OneLater(which) <==> k > 0 && k - 1 in which
  {
    var later := OneLater(which);
    if k > 0 && k - 1 in which {
      var i :| 0 <= i < |which| && which[i] == k - 1;
      assert later[i] == k;
    }
  }

  lemma LaterAscends(which: seq<nat>, n: nat)
    requires Ascends(which, n)
    ensures Ascends(OneLater(which), n + 1) && Ascends([0] + OneLater(which), n + 1)
  {}

  /** `which` lists exactly the patches that read differently. */
  predicate ListsChanges(t: string, ps: seq<Patch>, which: seq<nat>)
    requires forall p | p in ps :: p.start <= p.end <= |t|
  {
    Ascends(which, |ps|) && forall k | 0 <= k < |ps| :: k in which <==> Changes(t, ps[k])
  }

  lemma OneMoreListed(t: string, p: Patch, ps: seq<Patch>, rest: seq<nat>)
    requires p.start <= p.end <= |t| && (forall q | q in ps :: q.start <= q.end <= |t|) && ListsChanges(t, ps, rest)
    ensures ListsChanges(t, [p] + ps, (if Changes(t, p) then [0] else []) + OneLater(rest))
  {
    hide Changes, Ascends;
    LaterAscends(rest, |ps|);
    assert [] + OneLater(rest) == OneLater(rest);
    var which := (if Changes(t, p) then [0] else []) + OneLater(rest);
    forall k: nat | k < |[p] + ps| ensures k in which <==> Changes(t, ([p] + ps)[k]) {
      LaterHolds(rest, k);
      assert k > 0 ==> ([p] + ps)[k] == ps[k - 1];
    }
  }

  lemma NothingListed(t: string)
    ensures ListsChanges(t, [], [])
  {}

  /** The plan counts the patches whose text reads differently: `which` lists them. */
  lemma {:induction false} CountsChanges(t: string, ps: seq<Patch>, from: nat) returns (which: seq<nat>)
    requires Ordered(t, ps, from)
    ensures forall p | p in ps :: p.start <= p.end <= |t|
    ensures |which| == |Changed(t, ps, from)| && ListsChanges(t, ps, which)
    decreases |ps|
  {
    hide Changes, ListsChanges;
    OrderedInText(t, ps, from);
    if ps == [] {
      which := [];
      NothingListed(t);
    } else {
      Uncons(ps);
      OrderedInText(t, ps[1..], ps[0].end);
      var rest := CountsChanges(t, ps[1..], ps[0].end);
      which := (if Changes(t, ps[0]) then [0] else []) + OneLater(rest);
      OneMoreListed(t, ps[0], ps[1..], rest);
    }
  }

  lemma NoOpIsGood(id: nat, t: string, view: ViewState)
    ensures GoodPlan(NoOp(id, t, view))
  {}

  lemma NothingChanged(t: string, ps: seq<Patch>)
    requires Ordered(t, ps, 0) && Changed(t, ps, 0) == []
    ensures Build(t, ps, 0) == t
  {
    ChangedBuildsTheSame(t, ps, 0);
  }

  lemma OnePatchPlan(t: string, p: Patch)
    requires p.start <= p.end <= |t|
    ensures Ordered(t, [p], 0) && Build(t, [p], 0) == t[..p.start] + p.text + t[p.end..]
    ensures Changes(t, p) ==> Changed(t, [p], 0) == [p] && DescendingOps(t, [p], 0) == PatchOps(t, p)
  {
    assert [p][1..] == [];
  }

  lemma {:induction false} OpsSizeAppend(a: seq<Op>, b: seq<Op>)
    ensures OpsSize(a + b) == OpsSize(a) + OpsSize(b)
    decreases |a|
  {
    if a == [] {
      assert a + b == b;
    } else {
      assert (a + b)[1..] == a[1..] + b;
      OpsSizeAppend(a[1..], b);
    }
  }

  lemma SingleSize(kind: EditKind, offset: nat, text: string)
    ensures OpsSize(Single(kind, offset, text)) == |text|
  {
    var ops := Single(kind, offset, text);
    if ops != [] { assert ops[1..] == []; }
  }

  lemma PatchOpsSize(t: string, p: Patch)
    requires p.start <= p.end <= |t|
    ensures OpsSize(PatchOps(t, p)) == p.end - p.start + |p.text|
  {
    hide OpsSize, Single;
    SingleSize(Delete, p.start, t[p.start..p.end]);
    SingleSize(Insert, p.start, p.text);
    OpsSizeAppend(Single(Delete, p.start, t[p.start..p.end]), Single(Insert, p.start, p.text));
  }

  /** The payload computed from the patches is the payload of the operations. */
  lemma {:induction false} PatchSizeIsOpsSize(t: string, ps: seq<Patch>, from: nat)
    requires Ordered(t, ps, from)
    ensures OpsSize(DescendingOps(t, ps, from)) == PatchSize(ps)
    decreases |ps|
  {
    if ps == [] {
    } else {
      var p := ps[0];
      PatchSizeIsOpsSize(t, ps[1..], p.end);
      OpsSizeAppend(DescendingOps(t, ps[1..], p.end), PatchOps(t, p));
      PatchOpsSize(t, p);
    }
  }
}
