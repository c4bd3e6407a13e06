/** The delta journal behind Undo and Redo: grouping, coalescing, bounded memory, never reused state IDs. */
module EditHistory {
  import opened Prelude
  import opened Edits

  datatype ViewState = ViewState(insert: nat, bound: nat)

  datatype Direction = Backward | Forward | Range

  datatype Delta = Delta(op: Op, direction: Direction)

  datatype Group = Group(deltas: seq<Delta>, beforeId: nat, afterId: nat, beforeView: ViewState, afterView: ViewState)

  datatype Plan = Plan(ops: seq<Op>, targetId: nat, targetView: ViewState)

  datatype HistoryError = GroupOpen | NoGroup | NotInitialized | EmptyDelta

  const MAX_PAYLOAD: nat := 16_000_000
  const MAX_GROUPS: nat := 1000

  function RedoOps(deltas: seq<Delta>): (r: seq<Op>)
    ensures |r| == |deltas| && forall i | 0 <= i < |r| :: r[i] == deltas[i].op
  {
    if deltas == [] then [] else [deltas[0].op] + RedoOps(deltas[1..])
  }

  function UndoOps(deltas: seq<Delta>): seq<Op> {
    Inverse(RedoOps(deltas))
  }

  function TextSize(deltas: seq<Delta>): nat {
    if deltas == [] then 0 else |deltas[0].op.text| + TextSize(deltas[1..])
  }

  function Payload(groups: seq<Group>): nat {
    if groups == [] then 0 else TextSize(groups[0].deltas) + Payload(groups[1..])
  }

  // --- Coalescing ----------------------------------------------------------------------------

  datatype TextClass = Newline | Tab | Space | Word

  /** `str.isspace` of one character. */
  predicate IsSpace(c: char) {
    var v := c as int;
    || 0x09 <= v <= 0x0D || 0x1C <= v <= 0x20 || v == 0x85 || v == 0xA0 || v == 0x1680 || 0x2000 <= v <= 0x200A
    || v == 0x2028 || v == 0x2029 || v == 0x202F || v == 0x205F || v == 0x3000
  }

  function ClassOf(text: string): Option<TextClass> {
    if text == "" then None
    else if forall c | c in text :: c in "\r\n" then Some(Newline)
    else if forall c | c in text :: c == '\t' then Some(Tab)
    else if forall c | c in text :: IsSpace(c) && c !in "\r\n\t" then Some(Space)
    else if forall c | c in text :: !IsSpace(c) then Some(Word)
    else None
  }

  function MergedDelta(a: Delta, b: Delta): Option<Delta> {
    if a.op.kind != b.op.kind || |b.op.text| != 1 then None
    else if ClassOf(a.op.text) != ClassOf(b.op.text) || ClassOf(a.op.text).None? then None
    else if a.op.kind.Insert? then
      if b.op.offset != a.op.offset + |a.op.text| then None
      else Some(Delta(Op(Insert, a.op.offset, a.op.text + b.op.text), Range))
    else if a.direction == b.direction == Backward then
      if b.op.offset + |b.op.text| != a.op.offset then None
      else Some(Delta(Op(Delete, b.op.offset, b.op.text + a.op.text), Backward))
    else if a.direction == b.direction == Forward then
      if b.op.offset == a.op.offset then Some(Delta(Op(Delete, a.op.offset, a.op.text + b.op.text), Forward)) else None
    else None
  }

  /** All characters of the text are of one sort, so that typing them is one structural run. */
  predicate OneSort(text: string) {
    || (forall c | c in text :: c == '\r' || c == '\n')
    || (forall c | c in text :: c == '\t')
    || (forall c | c in text :: IsSpace(c) && c != '\r' && c != '\n' && c != '\t')
    || (forall c | c in text :: !IsSpace(c))
  }

  /** The second edit goes on where the first one stopped, in its direction. */
  predicate GoesOn(a: Delta, b: Delta) {
    if a.op.kind.Insert? then b.op.kind.Insert? && b.op.offset == a.op.offset + |a.op.text|
    else
      && b.op.kind.Delete? && a.direction == b.direction
      && (if a.direction.Backward? then b.op.offset + |b.op.text| == a.op.offset
          else a.direction.Forward? && b.op.offset == a.op.offset)
  }

  lemma ClassTells(text: string)
    requires text != ""
    ensures ClassOf(text).Some? <==> OneSort(text)
  {
    assert text[0] in text;
  }

  lemma ClassOfBoth(a: string, b: string)
    requires a != "" && b != ""
    ensures ClassOf(a) == ClassOf(b) && ClassOf(a).Some? <==> OneSort(a + b)
  {
    assert a[0] in a && b[0] in b && a[0] in a + b && b[0] in a + b;
    forall c ensures c in a + b <==> c in a || c in b {}
  }

  /** A character joins the edit before it exactly when both are of one sort and it goes on where that stopped. */
  lemma MergesExactly(a: Delta, b: Delta)
    requires a.op.text != "" && b.op.text != ""
    ensures MergedDelta(a, b).Some? <==> |b.op.text| == 1 && OneSort(a.op.text + b.op.text) && GoesOn(a, b)
    ensures MergedDelta(a, b).Some? ==>
              var m := MergedDelta(a, b).value;
              && m.op.text == (if b.op.kind.Delete? && b.direction.Backward? then b.op.text + a.op.text
                               else a.op.text + b.op.text)
              && (a.op.kind.Delete? ==> m.direction == a.direction)
  {
    ClassOfBoth(a.op.text, b.op.text);
  }

  function MergedGroup(previous: Group, current: Group, saved: Option<nat>): Option<Group> {
    if saved == Some(previous.afterId) || |previous.deltas| != 1 || |current.deltas| != 1 then None
    else match MergedDelta(previous.deltas[0], current.deltas[0])
      case None => None
      case Some(d) => Some(Group([d], previous.beforeId, current.afterId, previous.beforeView, current.afterView))
  }

  lemma ReplaysTwo(t: string, a: Op, b: Op, u: string)
    ensures Replays(t, [a, b], u) <==> Apply(t, a).Some? && Apply(Apply(t, a).value, b) == Some(u)
    ensures InRange(t, [a, b]) <==> InRange(t, [a]) && (Apply(t, a).Some? ==> InRange(Apply(t, a).value, [b]))
  {
    assert [a, b][1..] == [b];
    match Apply(t, a)
    case None =>
    case Some(v) => ProgressOne(v, b);
  }

  lemma DeletePiece(x: string, s: string, y: string)
    ensures Apply(x + s + y, Op(Delete, |x|, s)) == Some(x + y)
  {
    var t := x + s + y;
    assert t[|x|..|x| + |s|] == s && t[..|x|] == x && t[|x| + |s|..] == y;
  }

  lemma DeleteFits(t: string, i: nat, s: string) returns (y: string)
    requires s != "" && Apply(t, Op(Delete, i, s)).Some?
    ensures i <= |t| && t == t[..i] + s + y && Apply(t, Op(Delete, i, s)) == Some(t[..i] + y)
  {
    assert |t[Min(i, |t|)..Min(i + |s|, |t|)]| == |s|;
    y := t[i + |s|..];
  }

  /** Two insertions, the second right behind the first, are one insertion. */
  lemma InsertTwice(t: string, i: nat, a: string, b: string)
    requires a != ""
    ensures Apply(Apply(t, Op(Insert, i, a)).value, Op(Insert, i + |a|, b)) == Apply(t, Op(Insert, i, a + b))
  {
    var j := Min(i, |t|);
    var u := t[..j] + a + t[j..];
    assert Min(i + |a|, |u|) == j + |a|;
    assert u[..j + |a|] == t[..j] + a && u[j + |a|..] == t[j..];
    assert t[..j] + a + b + t[j..] == t[..j] + (a + b) + t[j..];
  }

  lemma FrontSplits(t: string, i: nat, a: string, b: string)
    requires a != "" && b != "" && Apply(t, Op(Delete, i, a + b)).Some?
    ensures Apply(t, Op(Delete, i, a)).Some?
    ensures Apply(Apply(t, Op(Delete, i, a)).value, Op(Delete, i, b)) == Apply(t, Op(Delete, i, a + b))
  {
    var y := DeleteFits(t, i, a + b);
    assert t == t[..i] + a + (b + y);
    DeletePiece(t[..i], a, b + y);
    assert t[..i] + (b + y) == t[..i] + b + y;
    DeletePiece(t[..i], b, y);
  }

  /** What is left of two equal splits at the same place is equal. */
  lemma HeadOf(x: string, y: string, z: string)
    requires x + y == (x + y)[..|x|] + z
    ensures (x + y)[..|x|] == x && y == z
  {
    assert (x + y)[|x|..] == y;
    assert (x + z)[|x|..] == z;
  }

  lemma Joined(x: string, a: string, b: string, z: string)
    ensures x + a + (b + z) == x + (a + b) + z
  {}

  lemma FrontJoins(t: string, i: nat, a: string, b: string)
    requires a != "" && b != "" && Apply(t, Op(Delete, i, a)).Some?
    requires Apply(Apply(t, Op(Delete, i, a)).value, Op(Delete, i, b)).Some?
    ensures Apply(t, Op(Delete, i, a + b)) == Apply(Apply(t, Op(Delete, i, a)).value, Op(Delete, i, b))
  {
    var y := DeleteFits(t, i, a);
    var x := t[..i];
    var z := DeleteFits(x + y, i, b);
    HeadOf(x, y, b + z);
    Joined(x, a, b, z);
    DeletePiece(x, a + b, z);
  }

  lemma BackSplits(t: string, i: nat, a: string, b: string)
    requires a != "" && b != "" && Apply(t, Op(Delete, i, a + b)).Some?
    ensures Apply(t, Op(Delete, i + |a|, b)).Some?
    ensures Apply(Apply(t, Op(Delete, i + |a|, b)).value, Op(Delete, i, a)) == Apply(t, Op(Delete, i, a + b))
  {
    var y := DeleteFits(t, i, a + b);
    assert t == (t[..i] + a) + b + y;
    DeletePiece(t[..i] + a, b, y);
    DeletePiece(t[..i], a, y);
  }

  lemma EndsIn(x: string, y: string, i: nat, a: string)
    requires i + |a| == |x| && Apply(x + y, Op(Delete, i, a)).Some?
    ensures x == x[..i] + a
  {
    assert (x + y)[i..i + |a|] == x[i..];
  }

  lemma Regrouped(w: string, a: string, b: string, y: string)
    ensures (w + a) + b + y == w + (a + b) + y
    ensures (w + a) + y == w + a + y
  {}

  lemma BackJoins(t: string, i: nat, a: string, b: string)
    requires a != "" && b != "" && Apply(t, Op(Delete, i + |a|, b)).Some?
    requires Apply(Apply(t, Op(Delete, i + |a|, b)).value, Op(Delete, i, a)).Some?
    ensures Apply(t, Op(Delete, i, a + b)) == Apply(Apply(t, Op(Delete, i + |a|, b)).value, Op(Delete, i, a))
  {
    hide Apply;
    var y := DeleteFits(t, i + |a|, b);
    var x := t[..i + |a|];
    var z := DeleteFits(x + y, i, a);
    var w := x[..i];
    EndsIn(x, y, i, a);
    Regrouped(w, a, b, y);
    DeletePiece(w, a + b, y);
    DeletePiece(w, a, y);
  }

  predicate SameEffect(t: string, a: Op, b: Op, m: Op, u: string) {
    && (Replays(t, [a, b], u) <==> Replays(t, [m], u))
    && (InRange(t, [m]) <==> InRange(t, [a, b]))
    && |m.text| == |a.text| + |b.text|
  }

  lemma MergeInserts(t: string, a: Op, b: Op, m: Op, u: string)
    requires a.kind.Insert? && b.kind.Insert? && a.text != "" && b.text != ""
    requires b.offset == a.offset + |a.text| && m == Op(Insert, a.offset, a.text + b.text)
    ensures SameEffect(t, a, b, m, u)
  {
    ProgressOne(t, m);
    ReplaysTwo(t, a, b, u);
    InsertTwice(t, a.offset, a.text, b.text);
  }

  lemma MergeBackward(t: string, a: Op, b: Op, m: Op, u: string)
    requires a.kind.Delete? && b.kind.Delete? && a.text != "" && b.text != ""
    requires b.offset + |b.text| == a.offset && m == Op(Delete, b.offset, b.text + a.text)
    ensures SameEffect(t, a, b, m, u)
  {
    hide Apply;
    ProgressOne(t, m);
    ReplaysTwo(t, a, b, u);
    if Apply(t, m).Some? { BackSplits(t, b.offset, b.text, a.text); }
    if Replays(t, [a, b], u) { BackJoins(t, b.offset, b.text, a.text); }
  }

  lemma MergeForward(t: string, a: Op, b: Op, m: Op, u: string)
    requires a.kind.Delete? && b.kind.Delete? && a.text != "" && b.text != ""
    requires b.offset == a.offset && m == Op(Delete, a.offset, a.text + b.text)
    ensures SameEffect(t, a, b, m, u)
  {
    ProgressOne(t, m);
    ReplaysTwo(t, a, b, u);
    if Apply(t, m).Some? { FrontSplits(t, a.offset, a.text, b.text); }
    if Replays(t, [a, b], u) { FrontJoins(t, a.offset, a.text, b.text); }
  }

  /** The merged delta does to every text what the two deltas do one after the other. */
  lemma MergeReplays(a: Delta, b: Delta, t: string, u: string)
    requires a.op.text != "" && b.op.text != "" && MergedDelta(a, b).Some?
    ensures SameEffect(t, a.op, b.op, MergedDelta(a, b).value.op, u)
  {
    var m := MergedDelta(a, b).value;
    if a.op.kind.Insert? {
      MergeInserts(t, a.op, b.op, m.op, u);
    } else if a.direction == Backward {
      MergeBackward(t, a.op, b.op, m.op, u);
    } else {
      MergeForward(t, a.op, b.op, m.op, u);
    }
  }

  /**
    Coalescing is invisible: redoing the merged group is redoing its two groups in order, and
    undoing it is undoing them in reverse order.
   */
  lemma MergedGroupEquivalent(p: Group, c: Group, saved: Option<nat>, t: string, u: string)
    requires MergedGroup(p, c, saved).Some? && p.deltas[0].op.text != "" && c.deltas[0].op.text != ""
    ensures
      var m := MergedGroup(p, c, saved).value;
      && m.beforeId == p.beforeId && m.beforeView == p.beforeView
      && m.afterId == c.afterId && m.afterView == c.afterView
      && (Replays(t, RedoOps(m.deltas), u) <==> Replays(t, RedoOps(p.deltas) + RedoOps(c.deltas), u))
      && (Replays(t, RedoOps(m.deltas), u) && InRange(t, RedoOps(p.deltas) + RedoOps(c.deltas)) ==>
            Replays(u, UndoOps(m.deltas), t) && Replays(u, UndoOps(c.deltas) + UndoOps(p.deltas), t))
  {
    var m := MergedGroup(p, c, saved).value;
    var a, b := p.deltas[0], c.deltas[0];
    assert RedoOps(p.deltas) == [a.op] && RedoOps(c.deltas) == [b.op] && RedoOps(m.deltas) == [m.deltas[0].op];
    assert RedoOps(p.deltas) + RedoOps(c.deltas) == [a.op, b.op];
    MergeReplays(a, b, t, u);
    if Replays(t, RedoOps(m.deltas), u) && InRange(t, [a.op, b.op]) {
      InverseExact(t, RedoOps(m.deltas));
      InverseExact(t, [a.op, b.op]);
      assert UndoOps(c.deltas) + UndoOps(p.deltas) == Inverse([a.op, b.op]);
    }
  }
}
