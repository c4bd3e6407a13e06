/** Replay operations over a text buffer that checks every deletion and rolls back on failure. */
module Edits {
  import opened Prelude

  datatype EditKind = Insert | Delete

  datatype Op = Op(kind: EditKind, offset: nat, text: string)

  datatype Outcome = Applied | RolledBack | RollbackFailed

  /** One operation; positions past the end mean the end, and a deletion must find its text. */
  function Apply(t: string, op: Op): Option<string> {
    var i, j := Min(op.offset, |t|), Min(op.offset + |op.text|, |t|);
    match op.kind
    case Insert => Some(t[..i] + op.text + t[i..])
    case Delete => if t[i..j] == op.text then Some(t[..i] + t[j..]) else None
  }

  /** The text reached, and how many operations were applied, before the first mismatch. */
  function Progress(t: string, ops: seq<Op>): (r: (string, nat))
    ensures r.1 <= |ops|
    decreases |ops|
  {
    if ops == [] then (t, 0)
    else match Apply(t, ops[0])
      case None => (t, 0)
      case Some(t1) => var (u, n) := Progress(t1, ops[1..]); (u, n + 1)
  }

  predicate Replays(t: string, ops: seq<Op>, u: string) {
    Progress(t, ops) == (u, |ops|)
  }

  /** Every insertion that is reached addresses a position inside the text it meets. */
  predicate InRange(t: string, ops: seq<Op>)
    decreases |ops|
  {
    ops == [] ||
    match Apply(t, ops[0])
    case None => true
    case Some(t1) => (ops[0].kind.Insert? && ops[0].text != "" ==> ops[0].offset <= |t|) && InRange(t1, ops[1..])
  }

  function Flip(op: Op): Op {
    op.(kind := if op.kind.Insert? then Delete else Insert)
  }

  /** The inverse operations, last one first. */
  function Inverse(ops: seq<Op>): (r: seq<Op>)
    ensures |r| == |ops| && forall i | 0 <= i < |r| :: r[i] == Flip(ops[|ops| - 1 - i])
  {
    seq(|ops|, i requires 0 <= i < |ops| => Flip(ops[|ops| - 1 - i]))
  }

  /** The number of characters the operations carry: their share of the undo budget. */
  function OpsSize(ops: seq<Op>): nat {
    if ops == [] then 0 else |ops[0].text| + OpsSize(ops[1..])
  }

  /** The buffer's transaction: all operations, or the inverse of those applied. */
  function Transact(t: string, ops: seq<Op>): (string, Outcome) {
    var (u, n) := Progress(t, ops);
    if n == |ops| then (u, Applied)
    else
      var (v, m) := Progress(u, Inverse(ops[..n]));
      (v, if m == n then RolledBack else RollbackFailed)
  }

  lemma {:induction false} ProgressAppend(t: string, a: seq<Op>, b: seq<Op>)
    ensures
      var (u, n) := Progress(t, a);
      Progress(t, a + b) == if n < |a| then (u, n) else (Progress(u, b).0, n + Progress(u, b).1)
    decreases |a|
  {
    if a == [] {
      assert a + b == b;
    } else {
      assert (a + b)[1..] == a[1..] + b;
      match Apply(t, a[0])
      case None =>
      case Some(t1) => ProgressAppend(t1, a[1..], b);
    }
  }

  lemma ProgressOne(t: string, op: Op)
    ensures Progress(t, [op]) == match Apply(t, op) case None => (t, 0) case Some(u) => (u, 1)
  {
  }

  lemma {:induction false} InRangeAppend(t: string, a: seq<Op>, b: seq<Op>)
    requires Progress(t, a).1 == |a| && InRange(t, a) && InRange(Progress(t, a).0, b)
    ensures InRange(t, a + b)
    decreases |a|
  {
    if a == [] {
      assert a + b == b;
    } else {
      assert (a + b)[1..] == a[1..] + b;
      InRangeAppend(Apply(t, a[0]).value, a[1..], b);
    }
  }

  /** Taking back one operation: exact unless an insertion was clamped to the end of the text. */
  lemma FlipExact(t: string, op: Op)
    requires Apply(t, op).Some?
    ensures
      var back := Apply(Apply(t, op).value, Flip(op));
      if op.kind.Insert? && op.text != "" && op.offset > |t| then back == None else back == Some(t)
  {
    var u := Apply(t, op).value;
    if op.kind.Insert? {
      var i := Min(op.offset, |t|);
      if op.offset <= |t| {
        assert u[i..i + |op.text|] == op.text;
        assert u[..i] + u[i + |op.text|..] == t;
      } else if op.text != "" {
        assert |u[Min(op.offset, |u|)..Min(op.offset + |op.text|, |u|)]| < |op.text|;
      } else {
        assert u == t;
      }
    } else {
      var i, j := Min(op.offset, |t|), Min(op.offset + |op.text|, |t|);
      assert t == t[..i] + op.text + t[j..];
      if op.text != "" { assert |t[i..j]| == |op.text|; }
    }
  }

  /** The inverse list gives the source back exactly when every insertion was in range. */
  lemma {:induction false} InverseExact(t: string, ops: seq<Op>)
    requires Progress(t, ops).1 == |ops|
    ensures Replays(Progress(t, ops).0, Inverse(ops), t) <==> InRange(t, ops)
    ensures !InRange(t, ops) ==> Progress(Progress(t, ops).0, Inverse(ops)).1 < |ops|
    decreases |ops|
  {
    if ops == [] {
    } else {
      var t1 := Apply(t, ops[0]).value;
      var u := Progress(t, ops).0;
      assert Inverse(ops) == Inverse(ops[1..]) + [Flip(ops[0])];
      InverseExact(t1, ops[1..]);
      ProgressAppend(u, Inverse(ops[1..]), [Flip(ops[0])]);
      ProgressOne(t1, Flip(ops[0]));
      FlipExact(t, ops[0]);
    }
  }

  lemma {:induction false} ProgressPrefix(t: string, ops: seq<Op>)
    ensures var (u, n) := Progress(t, ops); Replays(t, ops[..n], u) && (InRange(t, ops[..n]) <==> InRange(t, ops))
    decreases |ops|
  {
    if ops == [] || Apply(t, ops[0]).None? {
    } else {
      var t1, n := Apply(t, ops[0]).value, Progress(t, ops).1;
      ProgressPrefix(t1, ops[1..]);
      assert ops[..n][1..] == ops[1..][..n - 1];
    }
  }

  /** A transaction that fails leaves the text as it was, exactly when its insertions were in range. */
  lemma TransactionIsAtomic(t: string, ops: seq<Op>)
    ensures
      var (u, outcome) := Transact(t, ops);
      && (outcome == Applied <==> Progress(t, ops).1 == |ops|)
      && (outcome == Applied ==> Replays(t, ops, u))
      && (outcome == RolledBack ==> u == t)
      && (outcome != Applied ==> (outcome == RolledBack <==> InRange(t, ops)))
  {
    var (u, n) := Progress(t, ops);
    ProgressPrefix(t, ops);
    InverseExact(t, ops[..n]);
  }

  lemma ProgressNext(start: string, a: seq<Op>, op: Op, rest: seq<Op>, now: string)
    requires Replays(start, a, now)
    ensures match Apply(now, op)
            case Some(u) => Replays(start, a + [op], u)
            case None => Progress(start, (a + [op]) + rest) == (now, |a|)
  {
    ProgressAppend(start, a, [op]);
    ProgressAppend(start, a + [op], rest);
    ProgressOne(now, op);
  }

  class TextBuffer {
    var text: string

    constructor ()
      ensures text == ""
    {
      text := "";
    }

    method ApplyOperation(op: Op) returns (ok: bool)
      modifies this
      ensures ok == Apply(old(text), op).Some?
      ensures text == if ok then Apply(old(text), op).value else old(text)
    {
      var start, end := Min(op.offset, |text|), Min(op.offset + |op.text|, |text|);
      match op.kind
      case Insert =>
        text := text[..start] + op.text + text[start..];
        ok := true;
      case Delete =>
        ok := text[start..end] == op.text;
        if ok {
          text := text[..start] + text[end..];
        }
    }

    /** Undoes the operations of `done`, last one first, until one of them does not fit. */
    method Unwind(done: seq<Op>) returns (outcome: Outcome)
      modifies this
      ensures var (u, n) := Progress(old(text), Inverse(done));
        text == u && outcome == if n == |done| then RolledBack else RollbackFailed
    {
      ghost var inverse := Inverse(done);
      var i := |done|;
      while i > 0
        invariant 0 <= i <= |done|
        invariant Replays(old(text), inverse[..|done| - i], text)
      {
        var op := Flip(done[i - 1]);
        ghost var n := |done| - i;
        assert inverse == (inverse[..n] + [op]) + inverse[n + 1..] && inverse[..n + 1] == inverse[..n] + [op];
        ProgressNext(old(text), inverse[..n], op, inverse[n + 1..], text);
        var ok := ApplyOperation(op);
        if !ok {
          return RollbackFailed;
        }
        i := i - 1;
      }
      assert inverse[..|done|] == inverse;
      outcome := RolledBack;
    }

    method ApplyOperations(ops: seq<Op>) returns (outcome: Outcome)
      modifies this
      ensures (text, outcome) == Transact(old(text), ops)
    {
      hide Apply, InRange, Inverse;
      var applied: seq<Op> := [];
      while |applied| < |ops|
        invariant |applied| <= |ops| && applied == ops[..|applied|]
        invariant Replays(old(text), applied, text)
      {
        var op, n := ops[|applied|], |applied|;
        ProgressAppend(old(text), applied, [op]);
        ProgressOne(text, op);
        assert ops[..n + 1] == applied + [op];
        ProgressAppend(old(text), ops[..n + 1], ops[n + 1..]);
        assert ops == ops[..n + 1] + ops[n + 1..];
        var ok := ApplyOperation(op);
        if !ok {
          outcome := Unwind(applied);
          return;
        }
        applied := applied + [op];
      }
      assert applied == ops;
      outcome := Applied;
    }
  }
}
