/**
  Case folding of one line with a sparse table of the characters whose fold is not one character long.
  `f` is the character fold (toCasefold, section 3.13 of the Unicode Standard).
 */
module FoldedLines {
  import opened Prelude

  type CharFold = char -> string

  /** What is assumed of the fold: never empty, and line breaks occur in their own fold only. */
  ghost predicate FoldOk(f: CharFold) {
    forall c: char :: f(c) != "" && ('\n' in f(c) <==> c == '\n') && ('\r' in f(c) <==> c == '\r')
  }

  function Fold(f: CharFold, s: string): string {
    if s == "" then "" else f(s[0]) + Fold(f, s[1..])
  }

  /** Length of the fold of the first `i` characters: the dense map the table stands for. */
  function FoldedLength(f: CharFold, s: string, i: nat): nat
    requires i <= |s|
  {
    |Fold(f, s[..i])|
  }

  lemma {:induction false} FoldConcat(f: CharFold, a: string, b: string)
    ensures Fold(f, a + b) == Fold(f, a) + Fold(f, b)
  {
    if a == "" {
      assert a + b == b;
    } else {
      assert (a + b)[1..] == a[1..] + b;
      FoldConcat(f, a[1..], b);
    }
  }

  lemma FoldOfSpan(f: CharFold, s: string, i: nat, j: nat)
    requires i <= j <= |s|
    ensures FoldedLength(f, s, i) <= FoldedLength(f, s, j) <= |Fold(f, s)|
    ensures Fold(f, s)[FoldedLength(f, s, i)..FoldedLength(f, s, j)] == Fold(f, s[i..j])
    ensures FoldedLength(f, s, j) == FoldedLength(f, s, i) + |Fold(f, s[i..j])|
  {
    assert s[..j] == s[..i] + s[i..j] && s == s[..j] + s[j..];
    FoldConcat(f, s[..i], s[i..j]);
    FoldConcat(f, s[..j], s[j..]);
  }

  lemma {:induction false} FoldIsLonger(f: CharFold, s: string)
    requires FoldOk(f)
    ensures |s| <= |Fold(f, s)|
    ensures |s| == |Fold(f, s)| <==> forall i | 0 <= i < |s| :: |f(s[i])| == 1
  {
    if s == "" {
    } else {
      FoldIsLonger(f, s[1..]);
      assert f(s[0]) != "";
      if forall i | 0 <= i < |s| :: |f(s[i])| == 1 {
        forall i | 0 <= i < |s[1..]| ensures |f(s[1..][i])| == 1 { assert s[1..][i] == s[i + 1]; }
      }
      if |s| == |Fold(f, s)| {
        forall i | 0 <= i < |s| ensures |f(s[i])| == 1 { if i > 0 { assert s[1..][i - 1] == s[i]; } }
      }
    }
  }

  lemma NextLength(f: CharFold, s: string, i: nat)
    requires i < |s|
    ensures FoldedLength(f, s, i + 1) == FoldedLength(f, s, i) + |f(s[i])|
  {
    assert s[i..i + 1] == [s[i]];
    FoldOfSpan(f, s, i, i + 1);
  }

  /** The dense map is strictly increasing, and runs in step where every fold is one character. */
  lemma {:induction false} LengthGrows(f: CharFold, s: string, i: nat, j: nat)
    requires FoldOk(f) && i <= j <= |s|
    ensures FoldedLength(f, s, i) + (j - i) <= FoldedLength(f, s, j)
    ensures (forall k | i <= k < j :: |f(s[k])| == 1) ==> FoldedLength(f, s, j) == FoldedLength(f, s, i) + (j - i)
    decreases j - i
  {
    if i == j {
    } else {
      LengthGrows(f, s, i, j - 1);
      NextLength(f, s, j - 1);
      assert f(s[j - 1]) != "";
    }
  }

  datatype Expansion = Expansion(foldedStart: nat, foldedEnd: nat, sourceStart: nat, sourceEnd: nat)

  predicate Ascending(a: seq<nat>) {
    forall i, j | 0 <= i < j < |a| :: a[i] < a[j]
  }

  /** `bisect.bisect_right(a, x, lo, hi)`. */
  function BisectRight(a: seq<nat>, x: int, lo: nat, hi: nat): (r: nat)
    requires Ascending(a) && lo <= hi <= |a|
    ensures lo <= r <= hi
    ensures forall k | lo <= k < r :: a[k] <= x
    ensures forall k | r <= k < hi :: x < a[k]
    decreases hi - lo
  {
    if lo == hi then lo
    else
      var mid := (lo + hi) / 2;
      if x < a[mid] then BisectRight(a, x, lo, mid) else BisectRight(a, x, mid + 1, hi)
  }

  datatype FoldedLine = FoldedLine(text: string, sourceLength: nat, expansions: seq<Expansion>,
                                   foldedStarts: seq<nat>, sourceEnds: seq<nat>)
  {
    function SourceBoundary(pos: int): Option<nat>
      requires |foldedStarts| == |expansions| && Ascending(foldedStarts)
    {
      if pos < 0 || pos > |text| then None
      else if expansions == [] then Some(pos)
      else
        var index := BisectRight(foldedStarts, pos, 0, |foldedStarts|) - 1;
        if index < 0 then Some(pos)
        else
          var e := expansions[index];
          if pos == e.foldedStart then Some(e.sourceStart)
          else if pos < e.foldedEnd then None
          else Some(pos - (e.foldedEnd - e.sourceEnd))
    }

    function FoldedBoundary(pos: int): Option<int>
      requires |sourceEnds| == |expansions| && Ascending(sourceEnds)
    {
      if pos < 0 || pos > sourceLength then None
      else if expansions == [] then Some(pos)
      else
        var index := BisectRight(sourceEnds, pos, 0, |sourceEnds|) - 1;
        if index < 0 then Some(pos) else Some(pos + (expansions[index].foldedEnd - expansions[index].sourceEnd))
    }
  }

  predicate Parallel(es: seq<Expansion>, starts: seq<nat>, ends: seq<nat>) {
    && |starts| == |ends| == |es|
    && forall k | 0 <= k < |es| :: starts[k] == es[k].foldedStart && ends[k] == es[k].sourceEnd
  }

  ghost predicate IsExpansion(f: CharFold, line: string, e: Expansion) {
    && e.sourceStart < |line| && e.sourceEnd == e.sourceStart + 1
    && e.foldedStart == FoldedLength(f, line, e.sourceStart) && e.foldedEnd == FoldedLength(f, line, e.sourceEnd)
    && e.foldedEnd == e.foldedStart + |f(line[e.sourceStart])| && |f(line[e.sourceStart])| != 1
  }

  ghost predicate Lists(f: CharFold, line: string, n: nat, es: seq<Expansion>)
    requires n <= |line|
  {
    && (forall k | 0 <= k < |es| :: IsExpansion(f, line, es[k]) && es[k].sourceEnd <= n)
    && (forall i, k | 0 <= i < k < |es| :: es[i].sourceEnd <= es[k].sourceStart)
    && (forall p | 0 <= p < n && |f(line[p])| != 1 :: exists k :: 0 <= k < |es| && es[k].sourceStart == p)
  }

  /** The table lists exactly the characters of the line with a fold of another length, in order. */
  ghost predicate Represents(f: CharFold, line: string, fl: FoldedLine) {
    && fl.text == Fold(f, line) && fl.sourceLength == |line|
    && Lists(f, line, |line|, fl.expansions)
    && Parallel(fl.expansions, fl.foldedStarts, fl.sourceEnds)
  }

  lemma ListsNext(f: CharFold, line: string, i: nat, es: seq<Expansion>, e: Expansion)
    requires i < |line| && Lists(f, line, i, es)
    ensures |f(line[i])| == 1 ==> Lists(f, line, i + 1, es)
    ensures IsExpansion(f, line, e) && e.sourceStart == i ==> Lists(f, line, i + 1, es + [e])
  {
    if IsExpansion(f, line, e) && e.sourceStart == i {
      var longer := es + [e];
      forall p | 0 <= p < i + 1 && |f(line[p])| != 1
        ensures exists k :: 0 <= k < |longer| && longer[k].sourceStart == p
      {
        if p < i {
          var k :| 0 <= k < |es| && es[k].sourceStart == p;
          assert longer[k].sourceStart == p;
        } else {
          assert longer[|es|].sourceStart == p;
        }
      }
    }
  }

  method ListExpansions(f: CharFold, line: string) returns (es: seq<Expansion>, starts: seq<nat>, ends: seq<nat>)
    requires FoldOk(f)
    ensures Lists(f, line, |line|, es) && Parallel(es, starts, ends)
  {
    es, starts, ends := [], [], [];
    var delta := 0;
    for i := 0 to |line|
      invariant delta == FoldedLength(f, line, i) - i
      invariant Lists(f, line, i, es) && Parallel(es, starts, ends)
    {
      var length, start := |f(line[i])|, i + delta;
      assert f(line[i]) != "";
      NextLength(f, line, i);
      var e := Expansion(start, start + length, i, i + 1);
      ListsNext(f, line, i, es, e);
      if length != 1 {
        es, starts, ends := es + [e], starts + [start], ends + [i + 1];
        delta := delta + (length - 1);
      }
    }
  }

  method FoldLine(f: CharFold, line: string) returns (fl: FoldedLine)
    requires FoldOk(f)
    ensures Represents(f, line, fl)
  {
    var folded := Fold(f, line);
    FoldIsLonger(f, line);
    if |folded| == |line| {
      return FoldedLine(folded, |line|, [], [], []);
    }
    var expansions, starts, ends := ListExpansions(f, line);
    fl := FoldedLine(folded, |line|, expansions, starts, ends);
  }

  lemma TableAscends(f: CharFold, line: string, fl: FoldedLine)
    requires FoldOk(f) && Represents(f, line, fl)
    ensures Ascending(fl.foldedStarts) && Ascending(fl.sourceEnds)
  {
    forall i, j | 0 <= i < j < |fl.expansions| ensures fl.foldedStarts[i] < fl.foldedStarts[j] {
      LengthGrows(f, line, fl.expansions[i].sourceStart, fl.expansions[j].sourceStart);
    }
  }

  /** Between the end of one listed character and the start of the next the map runs in step. */
  lemma Gap(f: CharFold, line: string, fl: FoldedLine, index: int, from: nat, to: nat)
    requires FoldOk(f) && Represents(f, line, fl) && from <= to <= |line| && -1 <= index < |fl.expansions|
    requires from == if index < 0 then 0 else fl.expansions[index].sourceEnd
    requires index + 1 < |fl.expansions| ==> to <= fl.expansions[index + 1].sourceEnd - 1
    ensures FoldedLength(f, line, to) == FoldedLength(f, line, from) + (to - from)
  {
    forall k | 0 <= k < |fl.expansions|
      ensures fl.expansions[k].sourceEnd <= from || to <= fl.expansions[k].sourceStart
    {
      assert k < index ==> fl.expansions[k].sourceEnd <= fl.expansions[index].sourceStart;
      assert k > index + 1 ==> fl.expansions[index + 1].sourceEnd <= fl.expansions[k].sourceStart;
    }
    LengthGrows(f, line, from, to);
  }

  lemma AfterListed(f: CharFold, line: string, fl: FoldedLine, index: int, pos: nat)
    requires FoldOk(f) && Represents(f, line, fl) && pos <= |line| && -1 <= index < |fl.sourceEnds|
    requires index >= 0 ==> fl.sourceEnds[index] <= pos
    requires index + 1 < |fl.sourceEnds| ==> pos < fl.sourceEnds[index + 1]
    ensures FoldedLength(f, line, pos) ==
              if index < 0 then pos else pos + (fl.expansions[index].foldedEnd - fl.expansions[index].sourceEnd)
  {
    if index < 0 {
      Gap(f, line, fl, index, 0, pos);
    } else {
      assert IsExpansion(f, line, fl.expansions[index]);
      Gap(f, line, fl, index, fl.expansions[index].sourceEnd, pos);
    }
  }

  /** The entry of the table that `FoldedBoundary` reads. */
  lemma EntryBefore(fl: FoldedLine, pos: nat) returns (index: int)
    requires |fl.sourceEnds| == |fl.expansions| && Ascending(fl.sourceEnds) && pos <= fl.sourceLength
    ensures -1 <= index < |fl.sourceEnds|
    ensures (index >= 0 ==> fl.sourceEnds[index] <= pos)
    ensures (index + 1 < |fl.sourceEnds| ==> pos < fl.sourceEnds[index + 1])
    ensures fl.FoldedBoundary(pos) ==
              Some(if index < 0 then pos else pos + (fl.expansions[index].foldedEnd - fl.expansions[index].sourceEnd))
  {
    index := BisectRight(fl.sourceEnds, pos, 0, |fl.sourceEnds|) - 1;
  }

  lemma FoldedBoundaryInside(f: CharFold, line: string, fl: FoldedLine, pos: nat)
    requires FoldOk(f) && Represents(f, line, fl) && Ascending(fl.sourceEnds) && pos <= |line|
    ensures fl.FoldedBoundary(pos) == Some(FoldedLength(f, line, pos))
  {
    var index := EntryBefore(fl, pos);
    AfterListed(f, line, fl, index, pos);
  }

  /** Source offsets translate to the fold by the dense map. */
  lemma FoldedBoundaryExact(f: CharFold, line: string, fl: FoldedLine, pos: int)
    requires FoldOk(f) && Represents(f, line, fl)
    ensures Ascending(fl.sourceEnds)
    ensures fl.FoldedBoundary(pos) == if 0 <= pos <= |line| then Some(FoldedLength(f, line, pos)) else None
  {
    TableAscends(f, line, fl);
    if 0 <= pos <= |line| { FoldedBoundaryInside(f, line, fl, pos); }
  }

  /** What a folded position translates back to. */
  ghost predicate Translates(f: CharFold, line: string, pos: int, b: Option<nat>) {
    match b
    case Some(i) => i <= |line| && FoldedLength(f, line, i) == pos
    case None => forall i | 0 <= i <= |line| :: FoldedLength(f, line, i) != pos
  }

  /** The entry of the table that `SourceBoundary` reads. */
  lemma StartBefore(fl: FoldedLine, pos: nat) returns (index: int)
    requires Parallel(fl.expansions, fl.foldedStarts, fl.sourceEnds) && Ascending(fl.foldedStarts) && pos <= |fl.text|
    ensures -1 <= index < |fl.expansions|
    ensures index >= 0 ==> fl.expansions[index].foldedStart <= pos
    ensures index + 1 < |fl.expansions| ==> pos < fl.expansions[index + 1].foldedStart
    ensures fl.SourceBoundary(pos) ==
              if index < 0 then Some(pos)
              else if pos == fl.expansions[index].foldedStart then Some(fl.expansions[index].sourceStart)
              else if pos < fl.expansions[index].foldedEnd then None
              else Some(pos - (fl.expansions[index].foldedEnd - fl.expansions[index].sourceEnd))
  {
    index := BisectRight(fl.foldedStarts, pos, 0, |fl.foldedStarts|) - 1;
  }

  lemma InsideExpansion(f: CharFold, line: string, e: Expansion, pos: int)
    requires FoldOk(f) && IsExpansion(f, line, e) && e.foldedStart < pos < e.foldedEnd
    ensures forall i | 0 <= i <= |line| :: FoldedLength(f, line, i) != pos
  {
    forall i | 0 <= i <= |line| ensures FoldedLength(f, line, i) != pos {
      if i <= e.sourceStart { LengthGrows(f, line, i, e.sourceStart); } else { LengthGrows(f, line, e.sourceEnd, i); }
    }
  }

  lemma AfterExpansion(f: CharFold, line: string, fl: FoldedLine, index: int, pos: int)
    requires FoldOk(f) && Represents(f, line, fl) && -1 <= index < |fl.expansions| && 0 <= pos <= |fl.text|
    requires index >= 0 ==> fl.expansions[index].foldedEnd <= pos
    requires index + 1 < |fl.expansions| ==> pos < fl.expansions[index + 1].foldedStart
    ensures
      var i := if index < 0 then pos else pos - (fl.expansions[index].foldedEnd - fl.expansions[index].sourceEnd);
      0 <= i <= |line| && FoldedLength(f, line, i) == pos
  {
    var from := if index < 0 then 0 else fl.expansions[index].sourceEnd;
    var to := if index + 1 < |fl.expansions| then fl.expansions[index + 1].sourceStart else |line|;
    assert FoldedLength(f, line, 0) == 0;
    assert line[..|line|] == line;
    if index >= 0 && index + 1 < |fl.expansions| {
      assert fl.expansions[index].sourceEnd <= fl.expansions[index + 1].sourceStart;
    }
    Gap(f, line, fl, index, from, to);
    Gap(f, line, fl, index, from, from + (pos - FoldedLength(f, line, from)));
  }

  lemma SourceBoundaryInside(f: CharFold, line: string, fl: FoldedLine, pos: nat)
    requires FoldOk(f) && Represents(f, line, fl) && Ascending(fl.foldedStarts) && pos <= |fl.text|
    ensures Translates(f, line, pos, fl.SourceBoundary(pos))
  {
    var index := StartBefore(fl, pos);
    if index >= 0 && pos == fl.expansions[index].foldedStart {
      assert IsExpansion(f, line, fl.expansions[index]);
    } else if index >= 0 && pos < fl.expansions[index].foldedEnd {
      InsideExpansion(f, line, fl.expansions[index], pos);
    } else {
      AfterExpansion(f, line, fl, index, pos);
    }
  }

  /** Folded offsets translate back exactly where the dense map hits them. */
  lemma SourceBoundaryExact(f: CharFold, line: string, fl: FoldedLine, pos: int)
    requires FoldOk(f) && Represents(f, line, fl)
    ensures Ascending(fl.foldedStarts)
    ensures Translates(f, line, pos, fl.SourceBoundary(pos))
  {
    TableAscends(f, line, fl);
    if 0 <= pos <= |fl.text| {
      SourceBoundaryInside(f, line, fl, pos);
    } else {
      forall i | 0 <= i <= |line| ensures FoldedLength(f, line, i) != pos { FoldOfSpan(f, line, i, |line|); }
    }
  }
}
