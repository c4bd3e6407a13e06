/** Several replacements in one text: the final text, the operations that produce it, and where the caret goes. */
module Patches {
  import opened Prelude
  import opened Edits

  /** The text from `start` up to `end` becomes `text`. */
  datatype Patch = Patch(start: nat, end: nat, text: string)

  /** Ascending and disjoint, at or after `from`, inside the text. */
  predicate Ordered(t: string, ps: seq<Patch>, from: int)
    decreases |ps|
  {
    if ps == [] then 0 <= from <= |t|
    else 0 <= from <= ps[0].start <= ps[0].end <= |t| && Ordered(t, ps[1..], ps[0].end)
  }

  /** The patched text from `from` on: kept pieces and replacements in turn. */
  function Build(t: string, ps: seq<Patch>, from: nat): (r: string)
    requires Ordered(t, ps, from)
    decreases |ps|
  {
    if ps == [] then t[from..]
    else t[from..ps[0].start] + ps[0].text + Build(t, ps[1..], ps[0].end)
  }

  /** The operation as a list; an empty text needs none. */
  function Single(kind: EditKind, offset: nat, text: string): (r: seq<Op>)
    ensures forall i | 0 <= i < |r| :: r[i].text != ""
  {
    if text == "" then [] else [Op(kind, offset, text)]
  }

  function PatchOps(t: string, p: Patch): (r: seq<Op>)
    requires p.start <= p.end <= |t|
    ensures forall i | 0 <= i < |r| :: r[i].text != ""
  {
    Single(Delete, p.start, t[p.start..p.end]) + Single(Insert, p.start, p.text)
  }

  /** The operations of the last patch come first, so no offset moves before it is used. */
  function DescendingOps(t: string, ps: seq<Patch>, from: nat): (r: seq<Op>)
    requires Ordered(t, ps, from)
    ensures forall i | 0 <= i < |r| :: r[i].text != ""
    decreases |ps|
  {
    if ps == [] then [] else DescendingOps(t, ps[1..], ps[0].end) + PatchOps(t, ps[0])
  }

  // --- The operations produce the final text -------------------------------------------------

  lemma SplitAt(t: string, i: nat, j: nat, k: nat)
    requires i <= j <= k <= |t|
    ensures t[i..k] == t[i..j] + t[j..k]
  {}

  lemma Regroup(r: string, a: string, b: string, c: string)
    ensures r + (a + b + c) == (r + a + b) + c
  {}

  lemma {:induction false} BuildFrom(t: string, ps: seq<Patch>, from: nat, first: nat)
    requires from <= first && Ordered(t, ps, first)
    ensures Ordered(t, ps, from) && Build(t, ps, from) == t[from..first] + Build(t, ps, first)
  {
    if ps == [] {
      SplitAt(t, from, first, |t|);
      assert t[from..] == t[from..|t|] && t[first..] == t[first..|t|];
    } else {
      SplitAt(t, from, first, ps[0].start);
      Regroup(t[from..first], t[first..ps[0].start], ps[0].text, Build(t, ps[1..], ps[0].end));
    }
  }

  /** The operations lead from `t` to `u` without a mismatch, every insertion inside the text it meets. */
  predicate Takes(t: string, ops: seq<Op>, u: string) {
    Replays(t, ops, u) && InRange(t, ops)
  }

  lemma TakesOne(t: string, op: Op, u: string)
    requires Apply(t, op) == Some(u) && op.offset <= |t|
    ensures Takes(t, [op], u)
  {
    ProgressOne(t, op);
  }

  lemma TakesBoth(t: string, a: seq<Op>, u: string, b: seq<Op>, v: string)
    requires Takes(t, a, u) && Takes(u, b, v)
    ensures Takes(t, a + b, v)
  {
    ProgressAppend(t, a, b);
    InRangeAppend(t, a, b);
  }

  lemma SingleInsert(u: string, i: nat, text: string)
    requires i <= |u|
    ensures Takes(u, Single(Insert, i, text), u[..i] + text + u[i..])
  {
    if text == "" {
      assert u[..i] + text + u[i..] == u;
    } else {
      TakesOne(u, Op(Insert, i, text), u[..i] + text + u[i..]);
    }
  }

  lemma SingleDelete(u: string, i: nat, j: nat)
    requires i <= j <= |u|
    ensures Takes(u, Single(Delete, i, u[i..j]), u[..i] + u[j..])
  {
    if i == j {
      assert u[..i] + u[j..] == u;
    } else {
      var op := Op(Delete, i, u[i..j]);
      assert Min(op.offset + |op.text|, |u|) == j;
      assert Apply(u, op) == Some(u[..i] + u[j..]);
      TakesOne(u, op, u[..i] + u[j..]);
    }
  }

  lemma SameSlice(t: string, u: string, i: nat, j: nat)
    requires i <= j <= |t| && j <= |u| && u[..j] == t[..j]
    ensures u[i..j] == t[i..j] && u[..i] == t[..i]
  {
    assert u[..j][i..] == u[i..j] && t[..j][i..] == t[i..j];
    assert u[..j][..i] == u[..i] && t[..j][..i] == t[..i];
  }

  /** One patch of `t`, applied to a text that agrees with `t` up to its end. */
  lemma OnePatch(t: string, u: string, p: Patch)
    requires p.start <= p.end <= |t| && p.end <= |u| && u[..p.end] == t[..p.end]
    ensures Takes(u, PatchOps(t, p), u[..p.start] + p.text + u[p.end..])
  {
    var removed := u[..p.start] + u[p.end..];
    SameSlice(t, u, p.start, p.end);
    SingleDelete(u, p.start, p.end);
    SingleInsert(removed, p.start, p.text);
    assert removed[..p.start] == u[..p.start] && removed[p.start..] == u[p.end..];
    TakesBoth(u, Single(Delete, p.start, t[p.start..p.end]), removed,
              Single(Insert, p.start, p.text), u[..p.start] + p.text + u[p.end..]);
  }

  lemma PatchedAt(t: string, u: string, p: Patch, from: nat, tail: string)
    requires from <= p.start <= p.end <= |t| && u == t[..p.end] + tail
    ensures u[..p.start] + p.text + u[p.end..] == t[..from] + (t[from..p.start] + p.text + tail)
  {
    assert u[..p.start] == t[..from] + t[from..p.start];
    assert u[p.end..] == tail;
  }

  /** In order, the operations meet no mismatch, stay in range, and end in the final text. */
  lemma {:induction false} DescendingReplays(t: string, ps: seq<Patch>, from: nat)
    requires Ordered(t, ps, from)
    ensures Takes(t, DescendingOps(t, ps, from), t[..from] + Build(t, ps, from))
    decreases |ps|
  {
    if ps == [] {
      assert t[..from] + t[from..] == t;
    } else {
      var p, rest := ps[0], DescendingOps(t, ps[1..], ps[0].end);
      var u := t[..p.end] + Build(t, ps[1..], p.end);
      DescendingReplays(t, ps[1..], p.end);
      OnePatch(t, u, p);
      PatchedAt(t, u, p, from, Build(t, ps[1..], p.end));
      TakesBoth(t, rest, u, PatchOps(t, p), t[..from] + Build(t, ps, from));
    }
  }

  /** Forwards to the final text, and with the inverse list back to the source. */
  lemma PatchesRoundTrip(t: string, ps: seq<Patch>)
    requires Ordered(t, ps, 0)
    ensures Takes(t, DescendingOps(t, ps, 0), Build(t, ps, 0))
    ensures Replays(Build(t, ps, 0), Inverse(DescendingOps(t, ps, 0)), t)
  {
    DescendingReplays(t, ps, 0);
    assert t[..0] + Build(t, ps, 0) == Build(t, ps, 0);
    InverseExact(t, DescendingOps(t, ps, 0));
  }

  // --- Patches that change nothing -----------------------------------------------------------

  predicate Changes(t: string, p: Patch)
    requires p.start <= p.end <= |t|
  {
    t[p.start..p.end] != p.text
  }

  function Changed(t: string, ps: seq<Patch>, from: nat): (r: seq<Patch>)
    requires Ordered(t, ps, from)
    ensures Ordered(t, r, from)
    ensures forall p | p in r :: p in ps && p.start <= p.end <= |t| && Changes(t, p)
    decreases |ps|
  {
    if ps == [] then []
    else
      var rest := Changed(t, ps[1..], ps[0].end);
      BuildFrom(t, rest, from, ps[0].end);
      if Changes(t, ps[0]) then [ps[0]] + rest else rest
  }

  /** Leaving such patches out does not change the final text. */
  lemma {:induction false} ChangedBuildsTheSame(t: string, ps: seq<Patch>, from: nat)
    requires Ordered(t, ps, from)
    ensures Build(t, Changed(t, ps, from), from) == Build(t, ps, from)
    decreases |ps|
  {
    if ps == [] {
    } else {
      var p, rest := ps[0], Changed(t, ps[1..], ps[0].end);
      ChangedBuildsTheSame(t, ps[1..], p.end);
      if Changes(t, p) {
        assert ([p] + rest)[1..] == rest;
      } else {
        BuildFrom(t, rest, from, p.end);
        SplitAt(t, from, p.start, p.end);
      }
    }
  }

  // --- The caret -----------------------------------------------------------------------------

  /**
    Where an offset of the source goes: inside or at the end of a patched span, behind the replacement;
    at its start, before it; elsewhere, along with the character it precedes.
   */
  function MapOffset(offset: int, ps: seq<Patch>, delta: int): int
    decreases |ps|
  {
    if ps == [] || offset < ps[0].start then offset + delta
    else if offset == ps[0].start then ps[0].start + delta
    else if offset <= ps[0].end then ps[0].start + delta + |ps[0].text|
    else MapOffset(offset, ps[1..], delta + |ps[0].text| - (ps[0].end - ps[0].start))
  }

  /** The patches that start before `offset`. */
  function Passed(ps: seq<Patch>, offset: int): seq<Patch>
    decreases |ps|
  {
    if ps == [] || offset <= ps[0].start then [] else [ps[0]] + Passed(ps[1..], offset)
  }

  /** `offset`, or the end of the span it is in. */
  function CutPoint(ps: seq<Patch>, offset: int): int
    decreases |ps|
  {
    if ps == [] || offset <= ps[0].start then offset else Max(ps[0].end, CutPoint(ps[1..], offset))
  }

  lemma {:induction false} CutInText(t: string, ps: seq<Patch>, from: nat, offset: int)
    requires Ordered(t, ps, from) && from <= offset <= |t|
    ensures offset <= CutPoint(ps, offset) <= |t| && Ordered(t[..CutPoint(ps, offset)], Passed(ps, offset), from)
    decreases |ps|
  {
    if ps == [] || offset <= ps[0].start {
    } else if offset <= ps[0].end {
      assert Passed(ps[1..], offset) == [] && CutPoint(ps[1..], offset) == offset;
    } else {
      CutInText(t, ps[1..], ps[0].end, offset);
      var x := CutPoint(ps, offset);
      assert ([ps[0]] + Passed(ps[1..], offset))[1..] == Passed(ps[1..], offset);
    }
  }

  lemma {:induction false} MapInBounds(t: string, ps: seq<Patch>, from: nat, delta: int, offset: int)
    requires Ordered(t, ps, from) && from <= offset <= |t|
    ensures from + delta <= MapOffset(offset, ps, delta) <= from + delta + |Build(t, ps, from)|
    decreases |ps|
  {
    if ps == [] || offset <= ps[0].end {
    } else {
      MapInBounds(t, ps[1..], ps[0].end, delta + |ps[0].text| - (ps[0].end - ps[0].start), offset);
    }
  }

  /**
    What stands before a caret's new place is the patched text of what stood before the old one; a span around the
    caret counts with its whole replacement.
   */
  lemma {:induction false} MapSplits(t: string, ps: seq<Patch>, from: nat, delta: int, offset: int)
    requires Ordered(t, ps, from) && from <= offset <= |t|
    ensures
      var x, m := CutPoint(ps, offset), MapOffset(offset, ps, delta) - from - delta;
      && 0 <= x <= |t| && Ordered(t[..x], Passed(ps, offset), from) && 0 <= m <= |Build(t, ps, from)|
      && Build(t, ps, from)[..m] == Build(t[..x], Passed(ps, offset), from)
    decreases |ps|
  {
    CutInText(t, ps, from, offset);
    MapInBounds(t, ps, from, delta, offset);
    var x := CutPoint(ps, offset);
    var u := t[..x];
    if ps == [] || offset <= ps[0].start {
      assert u[from..] == t[from..offset];
    } else {
      var p, next := ps[0], delta + |ps[0].text| - (ps[0].end - ps[0].start);
      var rest := Passed(ps[1..], offset);
      assert ([p] + rest)[1..] == rest && u[from..p.start] == t[from..p.start];
      if offset <= p.end {
        assert rest == [] && x == p.end && u[p.end..] == "";
        assert Build(u, [p], from) == t[from..p.start] + p.text + "";
      } else {
        CutInText(t, ps[1..], p.end, offset);
        MapSplits(t, ps[1..], p.end, next, offset);
      }
    }
  }

  /** `offset` is outside every patched span. */
  predicate Outside(offset: int, ps: seq<Patch>) {
    forall p | p in ps :: !(p.start <= offset < p.end)
  }

  lemma {:induction false} MapMonotone(t: string, ps: seq<Patch>, from: nat, delta: int, a: int, b: int)
    requires Ordered(t, ps, from) && from <= a <= b <= |t|
    ensures MapOffset(a, ps, delta) <= MapOffset(b, ps, delta)
    decreases |ps|
  {
    if ps == [] || b <= ps[0].end {
    } else {
      var next := delta + |ps[0].text| - (ps[0].end - ps[0].start);
      MapInBounds(t, ps[1..], ps[0].end, next, b);
      if a > ps[0].end { MapMonotone(t, ps[1..], ps[0].end, next, a, b); }
    }
  }

  lemma MapAtFrom(t: string, ps: seq<Patch>, from: nat, delta: int)
    requires Ordered(t, ps, from)
    ensures MapOffset(from, ps, delta) == from + delta
  {}

  /** An offset outside the patched spans keeps the character it precedes. */
  lemma {:induction false} MapKeepsCharacter(t: string, ps: seq<Patch>, from: nat, delta: int, offset: int)
    requires Ordered(t, ps, from) && from <= offset < |t| && Outside(offset, ps)
    requires forall p | p in ps :: p.start < p.end
    ensures
      var i := MapOffset(offset, ps, delta) - from - delta;
      0 <= i < |Build(t, ps, from)| && Build(t, ps, from)[i] == t[offset]
    decreases |ps|
  {
    if ps == [] || offset < ps[0].start {
    } else {
      var p, rest := ps[0], Build(t, ps[1..], ps[0].end);
      var next := delta + |p.text| - (p.end - p.start);
      assert p in ps && offset >= p.end;
      assert Outside(offset, ps[1..]);
      MapKeepsCharacter(t, ps[1..], p.end, next, offset);
      if offset == p.end { MapAtFrom(t, ps[1..], p.end, next); }
      var i := MapOffset(offset, ps[1..], next) - p.end - next;
      assert Build(t, ps, from)[p.start - from + |p.text| + i] == rest[i];
    }
  }

  /** `offset` is strictly inside a span whose text already reads like its replacement. */
  predicate InsideUnchanged(t: string, offset: int, ps: seq<Patch>)
    requires forall p | p in ps :: p.start <= p.end <= |t|
  {
    exists p | p in ps :: !Changes(t, p) && p.start < offset < p.end
  }

  lemma {:induction false} OrderedInText(t: string, ps: seq<Patch>, from: nat)
    requires Ordered(t, ps, from)
    ensures forall p | p in ps :: from <= p.start <= p.end <= |t|
    decreases |ps|
  {
    if ps == [] {
    } else {
      OrderedInText(t, ps[1..], ps[0].end);
      assert ps == [ps[0]] + ps[1..];
    }
  }

  lemma MapPast(p: Patch, ps: seq<Patch>, delta: int, offset: int)
    requires p.start <= p.end < offset
    ensures MapOffset(offset, [p] + ps, delta) == MapOffset(offset, ps, delta + |p.text| - (p.end - p.start))
  {
    assert ([p] + ps)[1..] == ps;
  }

  lemma ChangedCons(t: string, p: Patch, ps: seq<Patch>, from: nat)
    requires from <= p.start <= p.end <= |t| && Ordered(t, ps, p.end)
    ensures Ordered(t, [p] + ps, from)
    ensures Changed(t, [p] + ps, from) ==
              if Changes(t, p) then [p] + Changed(t, ps, p.end) else Changed(t, ps, p.end)
  {
    assert ([p] + ps)[1..] == ps;
  }

  lemma InsideTail(t: string, p: Patch, ps: seq<Patch>, offset: int)
    requires p.start <= p.end <= |t| && p.end < offset && forall q | q in ps :: q.start <= q.end <= |t|
    ensures InsideUnchanged(t, offset, [p] + ps) <==> InsideUnchanged(t, offset, ps)
  {}

  lemma MapBefore(ps: seq<Patch>, delta: int, offset: int)
    requires ps != [] ==> offset <= ps[0].start
    ensures MapOffset(offset, ps, delta) == offset + delta
  {}

  lemma HeadDecides(t: string, p: Patch, ps: seq<Patch>, delta: int, offset: int)
    requires p.start < p.end <= |t| && offset <= p.end && Ordered(t, ps, p.end)
    requires forall q | q in ps :: p.end <= q.start < q.end <= |t|
    ensures InsideUnchanged(t, offset, [p] + ps) <==> !Changes(t, p) && p.start < offset < p.end
    ensures !Changes(t, p) ==>
      (MapOffset(offset, [p] + ps, delta) == MapOffset(offset, Changed(t, ps, p.end), delta) <==>
         !(p.start < offset < p.end))
    ensures MapOffset(offset, [p] + ps, delta) == MapOffset(offset, [p] + Changed(t, ps, p.end), delta)
  {
    var rest := Changed(t, ps, p.end);
    MapBefore(rest, delta, offset);
    assert ([p] + ps)[0] == ([p] + rest)[0] == p;
  }

  lemma TailDecides(t: string, p: Patch, ps: seq<Patch>, from: nat, delta: int, offset: int)
    requires from <= p.start < p.end <= |t| && p.end < offset && Ordered(t, ps, p.end)
    requires forall q | q in ps :: q.start <= q.end <= |t|
    ensures
      var next := delta + |p.text| - (p.end - p.start);
      && Ordered(t, [p] + ps, from)
      && MapOffset(offset, [p] + ps, delta) == MapOffset(offset, ps, next)
      && MapOffset(offset, Changed(t, [p] + ps, from), delta) == MapOffset(offset, Changed(t, ps, p.end), next)
      && (InsideUnchanged(t, offset, [p] + ps) <==> InsideUnchanged(t, offset, ps))
  {
    hide MapOffset, Changed, InsideUnchanged;
    ChangedCons(t, p, ps, from);
    MapPast(p, ps, delta, offset);
    MapPast(p, Changed(t, ps, p.end), delta, offset);
    InsideTail(t, p, ps, offset);
  }

  lemma Uncons(ps: seq<Patch>)
    requires ps != []
    ensures ps == [ps[0]] + ps[1..]
  {}

  /** Passing over the unchanged spans as well moves an offset exactly when it is strictly inside one of them. */
  lemma {:induction false} UnchangedMovesInside(t: string, ps: seq<Patch>, from: nat, delta: int, offset: int)
    requires Ordered(t, ps, from) && from <= offset && (forall p | p in ps :: p.start < p.end <= |t|)
    ensures MapOffset(offset, ps, delta) == MapOffset(offset, Changed(t, ps, from), delta) <==>
              !InsideUnchanged(t, offset, ps)
    decreases |ps|
  {
    if ps == [] {
    } else {
      var p, rest := ps[0], ps[1..];
      Uncons(ps);
      if offset > p.end {
        UnchangedMovesInside(t, rest, p.end, delta + |p.text| - (p.end - p.start), offset);
        TailDecides(t, p, rest, from, delta, offset);
      } else {
        OrderedInText(t, rest, p.end);
        ChangedCons(t, p, rest, from);
        HeadDecides(t, p, rest, delta, offset);
      }
    }
  }

  /** The caret map of a whole plan keeps order and bounds: ends go to ends. */
  lemma MapStaysInOrder(t: string, ps: seq<Patch>, a: int, b: int)
    requires Ordered(t, ps, 0) && 0 <= a <= b <= |t|
    ensures 0 <= MapOffset(a, ps, 0) <= MapOffset(b, ps, 0) <= |Build(t, ps, 0)|
  {
    MapInBounds(t, ps, 0, 0, a);
    MapInBounds(t, ps, 0, 0, b);
    MapMonotone(t, ps, 0, 0, a, b);
  }

  /**
    A character that no operation removes is at `there` in the final text, and a caret before it goes there
    exactly when it is not strictly inside a span that already read like its replacement.
   */
  lemma MapFollowsTheEdit(t: string, ps: seq<Patch>, offset: nat)
    requires Ordered(t, ps, 0) && (forall p | p in ps :: p.start < p.end <= |t|)
    requires offset < |t| && Outside(offset, Changed(t, ps, 0))
    ensures
      var there := MapOffset(offset, Changed(t, ps, 0), 0);
      && 0 <= there < |Build(t, ps, 0)| && Build(t, ps, 0)[there] == t[offset]
      && (MapOffset(offset, ps, 0) == there <==> !InsideUnchanged(t, offset, ps))
  {
    UnchangedMovesInside(t, ps, 0, 0, offset);
    ChangedBuildsTheSame(t, ps, 0);
    MapKeepsCharacter(t, Changed(t, ps, 0), 0, 0, offset);
  }

  lemma {:induction false} MapNonNegative(t: string, ps: seq<Patch>, from: nat, delta: int, offset: int)
    requires Ordered(t, ps, from) && from <= offset && 0 <= from + delta
    ensures 0 <= MapOffset(offset, ps, delta)
    decreases |ps|
  {
    if ps == [] || offset <= ps[0].end {
    } else {
      MapNonNegative(t, ps[1..], ps[0].end, delta + |ps[0].text| - (ps[0].end - ps[0].start), offset);
    }
  }

  /** A caret inside the text stays inside; one past the end (which no buffer has) is kept from going below zero. */
  function MappedCaret(offset: nat, t: string, ps: seq<Patch>): nat
    requires Ordered(t, ps, 0)
  {
    MapNonNegative(t, ps, 0, 0, offset);
    MapOffset(offset, ps, 0)
  }

  // --- Walking over the patches --------------------------------------------------------------

  /** Where the walk over the patches stands before patch `k`. */
  function CursorAt(ps: seq<Patch>, k: int): nat
    requires 0 <= k <= |ps|
  {
    if k == 0 then 0 else ps[k - 1].end
  }

  lemma {:induction false} TailOrdered(t: string, ps: seq<Patch>, from: nat, k: int)
    requires Ordered(t, ps, from) && 0 < k <= |ps|
    ensures Ordered(t, ps[k..], ps[k - 1].end)
    decreases |ps|
  {
    if k == 1 {
    } else {
      TailOrdered(t, ps[1..], ps[0].end, k - 1);
      assert ps[1..][k - 1..] == ps[k..];
    }
  }

  lemma Tails(t: string, ps: seq<Patch>, k: int)
    requires Ordered(t, ps, 0) && 0 <= k <= |ps|
    ensures Ordered(t, ps[k..], CursorAt(ps, k))
    ensures k < |ps| ==> ps[k..] == [ps[k]] + ps[k + 1..] && CursorAt(ps, k) <= ps[k].start <= ps[k].end <= |t|
  {
    if k > 0 { TailOrdered(t, ps, 0, k); }
  }

  lemma BuildNext(t: string, ps: seq<Patch>, k: int, r: string)
    requires Ordered(t, ps, 0) && 0 <= k < |ps| && Ordered(t, ps[k..], CursorAt(ps, k))
    ensures CursorAt(ps, k) <= ps[k].start <= ps[k].end <= |t| && Ordered(t, ps[k + 1..], ps[k].end)
    ensures r + Build(t, ps[k..], CursorAt(ps, k))
         == (r + t[CursorAt(ps, k)..ps[k].start] + ps[k].text) + Build(t, ps[k + 1..], ps[k].end)
  {
    Tails(t, ps, k);
    Tails(t, ps, k + 1);
    assert ps[k..][1..] == ps[k + 1..] && ps[k..][0] == ps[k];
    Regroup(r, t[CursorAt(ps, k)..ps[k].start], ps[k].text, Build(t, ps[k + 1..], ps[k].end));
  }

  lemma OpsFrom(t: string, ps: seq<Patch>, from: nat, first: nat)
    requires from <= first && Ordered(t, ps, first)
    ensures Ordered(t, ps, from) && DescendingOps(t, ps, from) == DescendingOps(t, ps, first)
  {}

  lemma OpsNext(t: string, ps: seq<Patch>, k: int)
    requires Ordered(t, ps, 0) && 0 <= k < |ps| && Ordered(t, ps[k + 1..], CursorAt(ps, k + 1))
    ensures Ordered(t, ps[k..], CursorAt(ps, k)) && ps[k].start <= ps[k].end <= |t|
    ensures DescendingOps(t, Changed(t, ps[k..], CursorAt(ps, k)), CursorAt(ps, k))
         == DescendingOps(t, Changed(t, ps[k + 1..], ps[k].end), ps[k].end)
            + (if Changes(t, ps[k]) then PatchOps(t, ps[k]) else [])
  {
    Tails(t, ps, k);
    assert ps[k..][1..] == ps[k + 1..];
    var rest := Changed(t, ps[k + 1..], ps[k].end);
    if Changes(t, ps[k]) {
      assert ([ps[k]] + rest)[1..] == rest;
    } else {
      OpsFrom(t, rest, CursorAt(ps, k), ps[k].end);
    }
  }
}
