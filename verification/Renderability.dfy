/** The width budget of the interactive editor: one global check and two local guards. */
module Renderability {
  import opened Prelude

  const MAX_LINE_CHARS: nat := 20_000

  /** No line break among the characters `i` up to `j`. */
  predicate Clear(t: string, i: int, j: int) {
    forall k | i <= k < j && 0 <= k < |t| :: t[k] != '\n'
  }

  /** Every stretch of text without a line break is at most `limit` long. */
  ghost predicate Renderable(t: string, limit: nat) {
    forall i, j | 0 <= i <= j <= |t| && Clear(t, i, j) :: j - i <= limit
  }

  lemma AtBreak(t: string, k: int)
    ensures At(t, "\n", k) <==> 0 <= k < |t| && t[k] == '\n'
  {
    if 0 <= k < |t| { assert t[k..k + 1] == [t[k]]; }
  }

  /** `t[s..e]` is a logical line. */
  predicate IsLine(t: string, s: int, e: int) {
    0 <= s <= e <= |t| && (s == 0 || t[s - 1] == '\n') && (e == |t| || t[e] == '\n') && Clear(t, s, e)
  }

  function BreakCount(t: string): nat {
    if t == "" then 0 else BreakCount(t[..|t| - 1]) + (if t[|t| - 1] == '\n' then 1 else 0)
  }

  datatype TooWide = TooWide(lineNumber: nat, observed: nat)

  /** The error names the first line that is too wide. */
  ghost predicate FirstOffender(t: string, limit: nat, error: TooWide) {
    exists s, e ::
      && IsLine(t, s, e) && error == TooWide(1 + BreakCount(t[..s]), e - s)
      && e - s > limit && Renderable(t[..s], limit)
  }

  lemma {:induction false} BreakCountClear(t: string, s: nat, e: nat)
    requires s <= e <= |t| && Clear(t, s, e)
    ensures BreakCount(t[..e]) == BreakCount(t[..s])
  {
    if s == e {
    } else {
      BreakCountClear(t, s, e - 1);
      assert t[..e][..e - 1] == t[..e - 1];
    }
  }

  lemma {:induction false} BreakCountConcat(a: string, b: string)
    ensures BreakCount(a + b) == BreakCount(a) + BreakCount(b)
    decreases |b|
  {
    if b == "" {
      assert a + b == a;
    } else {
      assert (a + b)[..|a + b| - 1] == a + b[..|b| - 1];
      BreakCountConcat(a, b[..|b| - 1]);
    }
  }

  lemma BreakCountPast(t: string, s: nat, e: nat)
    requires s <= e < |t| && Clear(t, s, e) && t[e] == '\n'
    ensures BreakCount(t[..e + 1]) == BreakCount(t[..s]) + 1
  {
    BreakCountClear(t, s, e);
    assert t[..e + 1][..e] == t[..e];
  }

  lemma LineExtends(t: string, s: nat, e: nat, limit: nat)
    requires s <= e <= |t| && Clear(t, s, e) && (s == 0 || t[s - 1] == '\n') && Renderable(t[..s], limit)
    ensures Renderable(t[..e], limit) <==> e - s <= limit
    ensures e < |t| && t[e] == '\n' && e - s <= limit ==> Renderable(t[..e + 1], limit)
  {
    var whole := t[..e];
    assert Clear(whole, s, e);
    if e - s <= limit {
      var longer := if e < |t| && t[e] == '\n' then t[..e + 1] else whole;
      assert s == 0 || longer[s - 1] == '\n';
      assert |longer| > e ==> longer[e] == '\n';
      forall i, j | 0 <= i <= j <= |longer| && Clear(longer, i, j) ensures j - i <= limit {
        if i < s {
          assert Clear(t[..s], i, j);
        }
      }
      forall i, j | 0 <= i <= j <= |whole| && Clear(whole, i, j) ensures j - i <= limit {
        assert Clear(longer, i, j);
      }
    }
  }

  lemma LineAt(t: string, s: nat)
    requires s <= |t| && (s == 0 || t[s - 1] == '\n')
    ensures IsLine(t, s, if Find(t, "\n", s) < 0 then |t| else Find(t, "\n", s))
  {
    var e := if Find(t, "\n", s) < 0 then |t| else Find(t, "\n", s);
    forall k | s <= k < e ensures t[k] != '\n' { AtBreak(t, k); }
    AtBreak(t, e);
  }

  method EnsureTextRenderable(t: string, limit: nat) returns (error: Option<TooWide>)
    ensures error.None? <==> Renderable(t, limit)
    ensures error.Some? ==> FirstOffender(t, limit, error.value)
  {
    var start, lineNumber := 0, 1;
    while true
      invariant 0 <= start <= |t| && (start == 0 || t[start - 1] == '\n')
      invariant lineNumber == 1 + BreakCount(t[..start]) && Renderable(t[..start], limit)
      decreases |t| - start
    {
      var newline := Find(t, "\n", start);
      var end := if newline < 0 then |t| else newline;
      LineAt(t, start);
      LineExtends(t, start, end, limit);
      if end - start > limit {
        assert t[..|t|] == t && IsLine(t, start, end);
        return Some(TooWide(lineNumber, end - start));
      }
      if newline < 0 {
        assert t[..|t|] == t;
        return None;
      }
      BreakCountPast(t, start, newline);
      start, lineNumber := newline + 1, lineNumber + 1;
    }
  }

  /** Width of the stretch `i..j` of an insertion, with the text it touches on either side. */
  function Width(prefix: nat, suffix: nat, inserted: string, i: int, j: int): int {
    (if i == 0 then prefix else 0) + (j - i) + (if j == |inserted| then suffix else 0)
  }

  ghost predicate InsertFits(prefix: nat, suffix: nat, inserted: string, limit: nat) {
    forall i, j | 0 <= i <= j <= |inserted| && Clear(inserted, i, j) :: Width(prefix, suffix, inserted, i, j) <= limit
  }

  /** The pieces of the insertion before `start` fit. */
  ghost predicate FitsBefore(prefix: nat, suffix: nat, inserted: string, limit: nat, start: int) {
    forall i, j | 0 <= i <= j < start <= |inserted| && Clear(inserted, i, j) ::
      Width(prefix, suffix, inserted, i, j) <= limit
  }

  lemma PieceExtends(prefix: nat, suffix: nat, ins: string, limit: nat, s: nat, e: nat)
    requires IsLine(ins, s, e) && FitsBefore(prefix, suffix, ins, limit, s)
    ensures e < |ins| && Width(prefix, suffix, ins, s, e) <= limit ==> FitsBefore(prefix, suffix, ins, limit, e + 1)
    ensures e == |ins| && Width(prefix, suffix, ins, s, e) <= limit ==> InsertFits(prefix, suffix, ins, limit)
    ensures Width(prefix, suffix, ins, s, e) > limit ==> !InsertFits(prefix, suffix, ins, limit)
  {
    if Width(prefix, suffix, ins, s, e) <= limit {
      assert s == 0 || ins[s - 1] == '\n';
      forall i, j | 0 <= i <= j <= e && Clear(ins, i, j) ensures Width(prefix, suffix, ins, i, j) <= limit {
      }
    }
  }

  method EnsureInsertRenderable(prefix: nat, suffix: nat, inserted: string, limit: nat) returns (error: Option<nat>)
    ensures inserted == "" ==> error == None
    ensures inserted != "" ==> (error.None? <==> InsertFits(prefix, suffix, inserted, limit))
    ensures error.Some? ==>
      exists i, j :: IsLine(inserted, i, j) && error.value == Width(prefix, suffix, inserted, i, j) > limit
                  && FitsBefore(prefix, suffix, inserted, limit, i)
  {
    if inserted == "" {
      return None;
    }
    var start, newline := 0, Find(inserted, "\n", 0);
    LineAt(inserted, 0);
    if newline < 0 {
      PieceExtends(prefix, suffix, inserted, limit, 0, |inserted|);
      var resulting := prefix + |inserted| + suffix;
      return if resulting > limit then Some(resulting) else None;
    }
    PieceExtends(prefix, suffix, inserted, limit, 0, newline);
    if prefix + newline > limit {
      return Some(prefix + newline);
    }
    start := newline + 1;
    while true
      invariant 0 < start <= |inserted| && inserted[start - 1] == '\n'
      invariant FitsBefore(prefix, suffix, inserted, limit, start)
      decreases |inserted| - start
    {
      newline := Find(inserted, "\n", start);
      LineAt(inserted, start);
      if newline < 0 {
        PieceExtends(prefix, suffix, inserted, limit, start, |inserted|);
        var last := |inserted| - start + suffix;
        return if last > limit then Some(last) else None;
      }
      PieceExtends(prefix, suffix, inserted, limit, start, newline);
      if newline - start > limit {
        return Some(newline - start);
      }
      start := newline + 1;
    }
  }

  /** Validation of a deletion that joins two line edges. */
  function EnsureJoinRenderable(prefix: nat, suffix: nat, limit: nat): Option<nat> {
    if prefix + suffix > limit then Some(prefix + suffix) else None
  }

  lemma InsertGuardComplete(t: string, s: nat, p: nat, e: nat, inserted: string, limit: nat)
    requires s <= p <= e && IsLine(t, s, e) && Renderable(t[..p] + inserted + t[p..], limit)
    ensures InsertFits(p - s, e - p, inserted, limit)
  {
    var u, n := t[..p] + inserted + t[p..], |inserted|;
    forall i, j | 0 <= i <= j <= n && Clear(inserted, i, j) ensures Width(p - s, e - p, inserted, i, j) <= limit {
      var a := if i == 0 then s else p + i;
      var b := if j == n then e + n else p + j;
      assert Clear(u, a, b);
    }
  }

  /** A stretch of `u` without a line break reads the same in `v`, `d` characters further on. */
  lemma ClearShift(u: string, v: string, a: int, b: int, d: int)
    requires 0 <= a <= b <= |u| && 0 <= a + d && b + d <= |v| && Clear(u, a, b)
    requires forall k | a <= k < b :: v[k + d] == u[k]
    ensures Clear(v, a + d, b + d)
  {
    forall k | a + d <= k < b + d ensures v[k] != '\n' { assert v[(k - d) + d] == u[k - d]; }
  }

  lemma InsertGuardSound(t: string, s: nat, p: nat, e: nat, inserted: string, limit: nat)
    requires s <= p <= e && IsLine(t, s, e) && Renderable(t[..p], limit) && Renderable(t[e..], limit)
    requires InsertFits(p - s, e - p, inserted, limit)
    ensures Renderable(t[..p] + inserted + t[p..], limit)
  {
    var u, n := t[..p] + inserted + t[p..], |inserted|;
    assert (s == 0 || u[s - 1] == '\n') && (e == |t| || u[e + n] == '\n');
    assert Clear(inserted, n, n) && Width(p - s, e - p, inserted, n, n) <= limit;
    forall a, b | 0 <= a <= b <= |u| && Clear(u, a, b) ensures b - a <= limit {
      if b <= p {
        ClearShift(u, t[..p], a, b, 0);
      } else if a > e + n {
        ClearShift(u, t[e..], a, b, 0 - n - e);
      } else if a < p + n {
        var i, j := Max(a - p, 0), Min(b - p, n);
        ClearShift(u, inserted, i + p, j + p, 0 - p);
        assert b - a <= Width(p - s, e - p, inserted, i, j);
      } else {
        assert b - a <= e - p;
      }
    }
  }

  /**
    The insert guard decides exactly what the global check would say about the resulting text, when the
    text before the position and behind the line is within the budget.
   */
  lemma InsertGuardExact(t: string, s: nat, p: nat, e: nat, inserted: string, limit: nat)
    requires s <= p <= e && IsLine(t, s, e) && Renderable(t[..p], limit) && Renderable(t[e..], limit)
    ensures InsertFits(p - s, e - p, inserted, limit) <==> Renderable(t[..p] + inserted + t[p..], limit)
  {
    if InsertFits(p - s, e - p, inserted, limit) { InsertGuardSound(t, s, p, e, inserted, limit); }
    if Renderable(t[..p] + inserted + t[p..], limit) { InsertGuardComplete(t, s, p, e, inserted, limit); }
  }

  /** The join guard decides exactly what the global check would say about the text with the two edges joined. */
  lemma JoinGuardExact(t: string, s: nat, from: nat, end: nat, e: nat, limit: nat)
    requires s <= from <= end <= e <= |t| && Renderable(t[..from], limit) && Renderable(t[e..], limit)
    requires (s == 0 || t[s - 1] == '\n') && Clear(t, s, from) && Clear(t, end, e) && (e == |t| || t[e] == '\n')
    ensures EnsureJoinRenderable(from - s, e - end, limit).None? <==> Renderable(t[..from] + t[end..], limit)
  {
    var u, n := t[..from] + t[end..], end - from;
    assert Clear(u, s, e - n) && (s == 0 || u[s - 1] == '\n') && (e == |t| || u[e - n] == '\n');
    if from - s + (e - end) <= limit {
      forall a, b | 0 <= a <= b <= |u| && Clear(u, a, b) ensures b - a <= limit {
        if b <= from {
          ClearShift(u, t[..from], a, b, 0);
        } else if a > e - n {
          ClearShift(u, t[e..], a, b, n - e);
        } else {
          assert a >= s && b <= e - n;
        }
      }
    }
  }

  /** A stretch of a narrow text is narrow, and so is what is left when a stretch inside a line is taken out. */
  lemma NarrowParts(t: string, i: nat, j: nat, limit: nat)
    requires i <= j <= |t| && Renderable(t, limit)
    ensures Renderable(t[i..j], limit)
    ensures Clear(t, i, j) ==> Renderable(t[..i] + t[j..], limit)
  {
    var part, u, n := t[i..j], t[..i] + t[j..], j - i;
    forall a, b | 0 <= a <= b <= |part| && Clear(part, a, b) ensures b - a <= limit {
      ClearShift(part, t, a, b, i);
    }
    if Clear(t, i, j) {
      forall a, b | 0 <= a <= b <= |u| && Clear(u, a, b) ensures b - a <= limit {
        var c, d := if a <= i then a else a + n, if b < i then b else b + n;
        assert Clear(t, c, d) by {
          forall k | c <= k < d
            ensures t[k] != '\n'
          {
            assert k < i ==> t[k] == u[k];
            assert k >= j ==> t[k] == u[k - n];
          }
        }
      }
    }
  }
}
