// v2L0Sublevels of db/pebble_v2.go: the sublevels rebuilt from L0's tables, with their figures.
module L0Reports {
  import opened Keys
  import opened Numbers
  import opened Sequences
  import opened Sublevels
  import opened KeyFractions
  import opened Reconstruction
  import opened L0Shapes

  ghost function SpanOf(level: seq<Placed>, lo: Key, hi: Key): real {
    var total := Fraction(lo, hi, lo, hi);
    if total > 0.0 then Covered(level, lo, hi) / total else 0.0
  }

  method CoveredBy(level: seq<Placed>, lo: Key, hi: Key) returns (covered: real)
    ensures covered == Covered(level, lo, hi)
  {
    covered := 0.0;
    for i := 0 to |level|
      invariant covered == Covered(level[..i], lo, hi)
    {
      var f := KeyFraction(level[i].lo, level[i].hi, lo, hi);
      assert level[..i + 1][..i] == level[..i];
      covered := covered + f;
    }
    assert level[..|level|] == level;
  }

  lemma SpanInUnit(level: seq<Placed>, lo: Key, hi: Key)
    requires Tiled(level) && Within(level, lo, hi)
    ensures 0.0 <= SpanOf(level, lo, hi) <= 1.0
  {
    var total := Fraction(lo, hi, lo, hi);
    CoveredAtMostTotal(level, lo, hi);
    if total > 0.0 {
      assert total / total == 1.0;
      DivideMonotone(0.0, Covered(level, lo, hi), total);
      DivideMonotone(Covered(level, lo, hi), total, total);
    }
  }

  /** Each sublevel's figures with the share of L0's key range it covers added. */
  ghost predicate SpansFilled(levels: seq<seq<Placed>>, rebuilt: seq<SublevelStat>, stats: seq<SublevelStat>,
                              lo: Key, hi: Key)
  {
    && |levels| == |rebuilt| == |stats|
    && forall s :: 0 <= s < |stats| ==> stats[s] == rebuilt[s].(span := SpanOf(levels[s], lo, hi))
  }

  /** Fill in the share of L0's key range each sublevel covers. */
  method MeasureSpans(levels: seq<seq<Placed>>, rebuilt: seq<SublevelStat>, lo: Key, hi: Key)
    returns (stats: seq<SublevelStat>)
    requires |levels| == |rebuilt|
    ensures SpansFilled(levels, rebuilt, stats, lo, hi)
  {
    var total := KeyFraction(lo, hi, lo, hi);
    stats := [];
    for s := 0 to |rebuilt|
      invariant |stats| == s
      invariant forall t :: 0 <= t < s ==> stats[t] == rebuilt[t].(span := SpanOf(levels[t], lo, hi))
    {
      var covered := CoveredBy(levels[s], lo, hi);
      stats := stats + [rebuilt[s].(span := if total > 0.0 then covered / total else 0.0)];
    }
  }

  lemma LevelWithin(files: seq<TableInfo>, a: seq<nat>, levels: seq<seq<Placed>>, stats: seq<SublevelStat>,
                    s: nat, lo: Key, hi: Key)
    requires Rebuilt(files, a, |files|, levels, stats) && s < |levels|
    requires Hull(Placements(files), |files|, lo, hi)
    ensures Tiled(levels[s]) && Within(levels[s], lo, hi)
  {
    assert LevelRebuilt(files, a, |files|, s, levels[s], stats[s]);
    forall i | 0 <= i < |levels[s]| ensures Le(lo, levels[s][i].lo) && Le(levels[s][i].hi, hi) {
      InLevel(files, a, |files|, levels, stats, s, levels[s][i]);
    }
  }

  /**
   * What is reported for the files of one L0, oldest first: per sublevel its number, file count,
   * size and share of L0's key range, and the shape of the levels underlying them.
   */
  ghost predicate Reported(files: seq<TableInfo>, levels: seq<seq<Placed>>, lo: Key, hi: Key,
                           stats: seq<SublevelStat>, shape: L0Shape)
  {
    && |levels| == |stats|
    && Hull(Placements(files), |files|, lo, hi)
    && (exists rebuilt ::
          Rebuilt(files, Assignment(Placements(files)), |files|, levels, rebuilt) &&
          SpansFilled(levels, rebuilt, stats, lo, hi))
    && shape == Report(MeasureLevels(levels, |levels|, lo, hi))
  }

  lemma NextCounts(levels: seq<seq<Placed>>, n: nat, lo: Key, hi: Key)
    requires n < |levels|
    ensures MeasureLevels(levels, n + 1, lo, hi).files == MeasureLevels(levels, n, lo, hi).files + |levels[n]|
  {
    hide MeasureNext, Balanced;
    LevelsKeepBalance(levels, n, lo, hi);
    NextKeepsBalance(MeasureLevels(levels, n, lo, hi), levels, n, lo, hi);
  }

  lemma {:induction false} ShapeCountsFiles(levels: seq<seq<Placed>>, n: nat, lo: Key, hi: Key)
    requires n <= |levels|
    ensures MeasureLevels(levels, n, lo, hi).files == |Together(levels[..n])|
  {
    hide MeasureLevels, Together, Tiled;
    if n == 0 {
      NoLevelsNoFiles(levels, lo, hi);
    } else {
      ShapeCountsFiles(levels, n - 1, lo, hi);
      NextCounts(levels, n - 1, lo, hi);
      assert levels[..n] == levels[..n - 1] + [levels[n - 1]];
      TogetherAppend(levels[..n - 1], levels[n - 1]);
    }
  }

  lemma NoLevelsNoFiles(levels: seq<seq<Placed>>, lo: Key, hi: Key)
    ensures MeasureLevels(levels, 0, lo, hi).files == |Together(levels[..0])|
  {
    assert levels[..0] == [];
  }

  lemma {:induction false} TogetherAppend(levels: seq<seq<Placed>>, level: seq<Placed>)
    ensures Together(levels + [level]) == Together(levels) + multiset(level)
    ensures |Together(levels + [level])| == |Together(levels)| + |level|
  {
    if levels == [] {
      assert [] + [level] == [level] && [level][1..] == [];
    } else {
      TogetherAppend(levels[1..], level);
      assert (levels + [level])[1..] == levels[1..] + [level];
    }
  }

  lemma SpansInUnit(files: seq<TableInfo>, a: seq<nat>, levels: seq<seq<Placed>>, rebuilt: seq<SublevelStat>,
                    stats: seq<SublevelStat>, lo: Key, hi: Key)
    requires Rebuilt(files, a, |files|, levels, rebuilt) && Hull(Placements(files), |files|, lo, hi)
    requires SpansFilled(levels, rebuilt, stats, lo, hi)
    ensures SpansReported(stats)
  {
    hide Hull, SpanOf, Tiled, Within, Placements;
    forall s | 0 <= s < |stats| ensures stats[s].sublevel == s && 0.0 <= stats[s].span <= 1.0 {
      assert LevelRebuilt(files, a, |files|, s, levels[s], rebuilt[s]);
      LevelWithin(files, a, levels, rebuilt, s, lo, hi);
      SpanInUnit(levels[s], lo, hi);
    }
  }

  lemma AllFilesCounted(files: seq<TableInfo>, a: seq<nat>, levels: seq<seq<Placed>>, rebuilt: seq<SublevelStat>,
                        lo: Key, hi: Key)
    requires Rebuilt(files, a, |files|, levels, rebuilt)
    ensures MeasureLevels(levels, |levels|, lo, hi).files == |files|
  {
    hide Rebuilt, MeasureLevels, Together;
    RebuiltHoldsAll(files, a, |files|, levels, rebuilt);
    ShapeCountsFiles(levels, |levels|, lo, hi);
    assert levels[..|levels|] == levels && Placements(files)[..|files|] == Placements(files);
  }

  /**
   * Every reported span lies in [0, 1], the shape's figures are in range, and everything above
   * sublevel 0 was measured.
   */
  lemma ReportedInRange(files: seq<TableInfo>, levels: seq<seq<Placed>>, lo: Key, hi: Key,
                        stats: seq<SublevelStat>, shape: L0Shape)
    requires Reported(files, levels, lo, hi, stats, shape)
    ensures SpansReported(stats) && FiguresInRange(shape)
    ensures shape.files == |files|
    ensures files != [] ==> stats != [] && shape.measured == |files| - stats[0].files
  {
    hide MeasureLevels, Hull, FiguresInRange, SpanOf, Stacked;
    var a := Assignment(Placements(files));
    var rebuilt :| Rebuilt(files, a, |files|, levels, rebuilt) && SpansFilled(levels, rebuilt, stats, lo, hi);
    SpansInUnit(files, a, levels, rebuilt, stats, lo, hi);
    RebuiltIsStacked(files, a, |files|, levels, rebuilt);
    AllFilesCounted(files, a, levels, rebuilt, lo, hi);
    ShapeInRange(levels, lo, hi);
    HeightBounds(a, |files|);
    if files != [] {
      assert a[0] < |stats|;
      assert LevelRebuilt(files, a, |files|, 0, levels[0], rebuilt[0]);
    }
  }

  /**
   * The number of sublevels reported is the longest chain of ever newer overlapping files, which
   * no layout of the files can do with fewer than.
   */
  lemma ReportedIsMinimal(files: seq<TableInfo>, levels: seq<seq<Placed>>, lo: Key, hi: Key,
                          stats: seq<SublevelStat>, shape: L0Shape)
    requires Reported(files, levels, lo, hi, stats, shape)
    ensures Minimal(Placements(files), |stats|)
  {
    hide MeasureLevels, Hull, Chain, Layout;
    forall a | Layout(Placements(files), a) ensures |stats| <= |Elements(a)| {
      NoLayoutUsesFewer(Placements(files), a);
    }
    AssignmentIsLeastLayout(Placements(files));
    NoLayoutUsesFewer(Placements(files), Assignment(Placements(files)));
  }

  /** The sublevels' file counts and sizes reported add up to L0's. */
  lemma ReportedConserves(files: seq<TableInfo>, levels: seq<seq<Placed>>, lo: Key, hi: Key,
                          stats: seq<SublevelStat>, shape: L0Shape)
    requires Reported(files, levels, lo, hi, stats, shape)
    ensures Sum(FileCounts(stats)) == |files| && Sum(FileSizes(stats)) == TotalSize(files, |files|)
  {
    hide MeasureLevels, Hull, Rebuilt, Sum, TotalSize;
    var a := Assignment(Placements(files));
    var rebuilt :| Rebuilt(files, a, |files|, levels, rebuilt) && SpansFilled(levels, rebuilt, stats, lo, hi);
    StatsConserve(files, a, |files|, levels, rebuilt);
    assert FileCounts(stats) == FileCounts(rebuilt) && FileSizes(stats) == FileSizes(rebuilt);
  }

  lemma SortedTablesProper(tables: seq<TableInfo>)
    requires forall i :: 0 <= i < |tables| ==> Le(tables[i].smallest, tables[i].largest)
    ensures Proper(Placements(OldestFirst(tables)))
  {
    hide SortBy, Compare;
    var files := OldestFirst(tables);
    forall i | 0 <= i < |files| ensures files[i] in tables {
      assert files[i] in multiset(files);
    }
  }

  /** As many sublevels as the longest chain of overlapping files, which no layout can do with fewer than. */
  ghost predicate Minimal(ps: seq<Placed>, sublevels: nat) {
    && (forall c :: Chain(ps, c) ==> |c| <= sublevels)
    && (ps != [] ==> exists c :: Chain(ps, c) && |c| == sublevels)
    && (forall a :: Layout(ps, a) ==> sublevels <= |Elements(a)|)
  }

  ghost predicate SpansReported(stats: seq<SublevelStat>) {
    forall s :: 0 <= s < |stats| ==> stats[s].sublevel == s && 0.0 <= stats[s].span <= 1.0
  }

  method MeasureL0(files: seq<TableInfo>)
    returns (stats: seq<SublevelStat>, shape: L0Shape, ghost levels: seq<seq<Placed>>, ghost lo: Key, ghost hi: Key)
    requires Proper(Placements(files))
    ensures Reported(files, levels, lo, hi, stats, shape)
  {
    var levels', rebuilt, lo', hi' := Reconstruct(files);
    forall s | 0 <= s < |levels'| ensures Tiled(levels'[s]) {
      LevelWithin(files, Assignment(Placements(files)), levels', rebuilt, s, lo', hi');
    }
    stats := MeasureSpans(levels', rebuilt, lo', hi');
    shape := MeasureShape(levels', lo', hi');
    levels, lo, hi := levels', lo', hi';
  }

  // --- What is reported, told over the tables themselves.

  /** The files numbered s among the oldest n. */
  ghost function Numbered(at: seq<nat>, n: nat, s: nat): set<nat>
    requires n <= |at|
  {
    set i: nat | i < n && at[i] == s
  }

  ghost function TableSize(files: seq<TableInfo>): nat -> real {
    (i: nat) => if i < |files| then files[i].size as real else 0.0
  }

  /** How far the leading bytes of a table's two ends lie apart. */
  ghost function TableWidth(files: seq<TableInfo>): nat -> real {
    (i: nat) => if i < |files| then Position(files[i].largest, WIDTH) - Position(files[i].smallest, WIDTH) else 0.0
  }

  /** The tables have a key in common. */
  predicate Meet(a: TableInfo, b: TableInfo) {
    Le(a.smallest, b.largest) && Le(b.smallest, a.largest)
  }

  /** The range is that of a table numbered s. */
  ghost predicate HasNumber(files: seq<TableInfo>, at: seq<nat>, s: nat, q: Placed)
    requires |at| == |files|
  {
    exists i :: 0 <= i < |files| && at[i] == s && files[i].smallest == q.lo && files[i].largest == q.hi
  }

  /** A numbering that puts each file above every older one it meets, and directly above one of them. */
  ghost predicate Rises(files: seq<TableInfo>, at: seq<nat>)
    requires |at| == |files|
  {
    && (forall i, j :: 0 <= i < j < |files| && Meet(files[i], files[j]) ==> at[i] < at[j])
    && (forall j :: 0 <= j < |files| && at[j] > 0 ==>
          exists i :: 0 <= i < j && at[i] == at[j] - 1 && Meet(files[i], files[j]))
  }

  /** The sublevels hold the files of each number, sorted and disjoint. */
  ghost predicate Holds(files: seq<TableInfo>, at: seq<nat>, levels: seq<seq<Placed>>)
    requires |at| == |files|
  {
    && (forall i :: 0 <= i < |files| ==> at[i] < |levels|)
    && (forall s, q :: 0 <= s < |levels| ==> (q in levels[s] <==> HasNumber(files, at, s, q)))
    && (forall s :: 0 <= s < |levels| ==> Tiled(levels[s]))
  }

  ghost predicate Numbering(files: seq<TableInfo>, at: seq<nat>, levels: seq<seq<Placed>>) {
    |at| == |files| && Rises(files, at) && Holds(files, at, levels)
  }

  /** A sublevel's count, size and share of the range lo to hi, as sums over the files numbered s. */
  ghost predicate StatOf(files: seq<TableInfo>, at: seq<nat>, stat: SublevelStat, s: nat, lo: Key, hi: Key)
    requires |at| == |files|
  {
    var total := Position(hi, WIDTH) - Position(lo, WIDTH);
    var mine := Numbered(at, |files|, s);
    && stat.sublevel == s && stat.files == |mine|
    && stat.size as real == Total(mine, TableSize(files))
    && (if total > 0.0 then stat.span * total == Total(mine, TableWidth(files)) else stat.span == 0.0)
  }

  ghost predicate StatsOf(files: seq<TableInfo>, at: seq<nat>, stats: seq<SublevelStat>, lo: Key, hi: Key)
    requires |at| == |files|
  {
    forall s :: 0 <= s < |stats| ==> StatOf(files, at, stats[s], s, lo, hi)
  }

  lemma NumberedStep(at: seq<nat>, n: nat, s: nat)
    requires n <= |at|
    ensures n < |at| ==> Numbered(at, n + 1, s) == Numbered(at, n, s) + if at[n] == s then {n} else {}
    ensures n !in Numbered(at, n, s) && Numbered(at, 0, s) == {}
  {}

  lemma {:induction false} CountIsNumbered(files: seq<TableInfo>, at: seq<nat>, n: nat, s: nat)
    requires n <= |files| == |at|
    ensures |Members(Placements(files), at, n, s)| == |Numbered(at, n, s)|
  {
    hide Numbered;
    NumberedStep(at, if n == 0 then 0 else n - 1, s);
    if n > 0 {
      CountIsNumbered(files, at, n - 1, s);
    }
  }

  lemma {:induction false} SizeIsNumbered(files: seq<TableInfo>, at: seq<nat>, n: nat, s: nat)
    requires n <= |files| == |at|
    ensures SizeOf(files, at, n, s) as real == Total(Numbered(at, n, s), TableSize(files))
  {
    hide Numbered, Total;
    var last: nat := if n == 0 then 0 else n - 1;
    if n > 0 {
      SizeIsNumbered(files, at, last, s);
      NumberedStep(at, last, s);
      TotalAdd<nat>(Numbered(at, last, s), last, TableSize(files));
      assert Numbered(at, last, s) + {} == Numbered(at, last, s);
    } else {
      TotalAdd<nat>({}, 0, TableSize(files));
      NoneNumbered(at, s);
    }
  }

  lemma NoneNumbered(at: seq<nat>, s: nat)
    ensures Numbered(at, 0, s) == {}
  {}

  lemma CoveredOne(p: Placed, lo: Key, hi: Key)
    ensures Covered([p], lo, hi) == Fraction(p.lo, p.hi, lo, hi)
  {
    assert [p][..0] == [];
  }

  lemma {:induction false} CoveredConcat(a: seq<Placed>, b: seq<Placed>, lo: Key, hi: Key)
    ensures Covered(a + b, lo, hi) == Covered(a, lo, hi) + Covered(b, lo, hi)
  {
    hide Fraction;
    if b == [] {
      assert a + b == a;
    } else {
      var n := |b| - 1;
      CoveredConcat(a, b[..n], lo, hi);
      assert (a + b)[..|a| + n] == a + b[..n];
    }
  }

  lemma CoveredWithout(a: seq<Placed>, i: nat, lo: Key, hi: Key)
    requires i < |a|
    ensures Covered(a, lo, hi) == Covered(a[..i] + a[i + 1..], lo, hi) + Fraction(a[i].lo, a[i].hi, lo, hi)
  {
    hide Covered, Fraction;
    assert a == a[..i] + ([a[i]] + a[i + 1..]);
    CoveredConcat(a[..i], [a[i]] + a[i + 1..], lo, hi);
    CoveredConcat([a[i]], a[i + 1..], lo, hi);
    CoveredConcat(a[..i], a[i + 1..], lo, hi);
    CoveredOne(a[i], lo, hi);
  }

  /** What a sublevel covers does not depend on the order its files are held in. */
  lemma {:induction false} CoveredPermutes(a: seq<Placed>, b: seq<Placed>, lo: Key, hi: Key)
    requires multiset(a) == multiset(b)
    ensures Covered(a, lo, hi) == Covered(b, lo, hi)
  {
    hide Covered, Fraction;
    if a == [] {
      assert |multiset(b)| == 0;
    } else {
      assert a[0] in multiset(b);
      var i :| 0 <= i < |b| && b[i] == a[0];
      MultisetRemoved(a, 0);
      MultisetRemoved(b, i);
      CoveredWithout(a, 0, lo, hi);
      CoveredWithout(b, i, lo, hi);
      CoveredPermutes(a[..0] + a[1..], b[..i] + b[i + 1..], lo, hi);
    }
  }

  lemma FractionIsWidth(p: Placed, lo: Key, hi: Key)
    ensures var total := Position(hi, WIDTH) - Position(lo, WIDTH);
            if total > 0.0
            then Fraction(p.lo, p.hi, lo, hi) == (Position(p.hi, WIDTH) - Position(p.lo, WIDTH)) / total
            else Fraction(p.lo, p.hi, lo, hi) == 0.0
  {}

  lemma {:induction false} CoveredIsWidths(files: seq<TableInfo>, at: seq<nat>, n: nat, s: nat, lo: Key, hi: Key)
    requires n <= |files| == |at| && Position(hi, WIDTH) > Position(lo, WIDTH)
    ensures Covered(Members(Placements(files), at, n, s), lo, hi) * (Position(hi, WIDTH) - Position(lo, WIDTH))
         == Total(Numbered(at, n, s), TableWidth(files))
  {
    hide Position, Numbered, Total, Fraction, Covered;
    var w := TableWidth(files);
    var total := Position(hi, WIDTH) - Position(lo, WIDTH);
    var last: nat := if n == 0 then 0 else n - 1;
    if n == 0 {
      NoneNumbered(at, s);
      TotalAdd<nat>({}, 0, w);
      NothingCovered(lo, hi);
    } else {
      var p := Placements(files)[last];
      var ms := Members(Placements(files), at, last, s);
      CoveredIsWidths(files, at, last, s, lo, hi);
      NumberedStep(at, last, s);
      TotalAdd<nat>(Numbered(at, last, s), last, w);
      if at[last] == s {
        CoveredConcat(ms, [p], lo, hi);
        CoveredOne(p, lo, hi);
        FractionIsWidth(p, lo, hi);
        ScaledSum(Covered(ms, lo, hi), w(last), total);
        assert Members(Placements(files), at, n, s) == ms + [p];
      } else {
        assert Members(Placements(files), at, n, s) == ms;
        assert Numbered(at, n, s) == Numbered(at, last, s);
      }
    }
  }

  lemma NothingCovered(lo: Key, hi: Key)
    ensures Covered([], lo, hi) == 0.0
  {}

  lemma ScaledSum(c: real, w: real, total: real)
    requires total > 0.0
    ensures (c + w / total) * total == c * total + w
  {
    assert w / total * total == w;
  }

  lemma QuotientTimesItself(x: real)
    requires x > 0.0
    ensures x / x == 1.0
  {}

  lemma StatIsNumbered(files: seq<TableInfo>, at: seq<nat>, level: seq<Placed>, stat: SublevelStat, s: nat,
                       lo: Key, hi: Key)
    requires |at| == |files| && LevelRebuilt(files, at, |files|, s, level, stat)
    ensures stat.files == |Numbered(at, |files|, s)|
    ensures stat.size as real == Total(Numbered(at, |files|, s), TableSize(files))
    ensures var total := Position(hi, WIDTH) - Position(lo, WIDTH);
            if total > 0.0 then SpanOf(level, lo, hi) * total == Total(Numbered(at, |files|, s), TableWidth(files))
            else SpanOf(level, lo, hi) == 0.0
  {
    hide Position, Members, SizeOf, Tiled, Total, Numbered, Covered, Placements, TableWidth, TableSize;
    var ms := Members(Placements(files), at, |files|, s);
    assert |multiset(level)| == |level| && |multiset(ms)| == |ms|;
    CountIsNumbered(files, at, |files|, s);
    SizeIsNumbered(files, at, |files|, s);
    var total := Position(hi, WIDTH) - Position(lo, WIDTH);
    if total > 0.0 {
      CoveredPermutes(level, ms, lo, hi);
      CoveredIsWidths(files, at, |files|, s, lo, hi);
      QuotientTimesItself(total);
      assert SpanOf(level, lo, hi) == Covered(level, lo, hi) / 1.0;
    }
  }

  /** The longest-chain numbering of the files, with everything reported told over it. */
  lemma ReportedIsNumbering(files: seq<TableInfo>, levels: seq<seq<Placed>>, lo: Key, hi: Key,
                            stats: seq<SublevelStat>, shape: L0Shape)
    requires Reported(files, levels, lo, hi, stats, shape)
    ensures var at := Assignment(Placements(files));
            Numbering(files, at, levels) && StatsOf(files, at, stats, lo, hi)
  {
    hide Hull, MeasureLevels, Numbering, SpanOf, Assignment, Placements, Position, LevelRebuilt, Total, Numbered;
    var at := Assignment(Placements(files));
    var rebuilt: seq<SublevelStat> :|
      Rebuilt(files, at, |files|, levels, rebuilt) && SpansFilled(levels, rebuilt, stats, lo, hi);
    NumberingHolds(files, levels, rebuilt);
    forall s | 0 <= s < |levels| ensures LevelRebuilt(files, at, |files|, s, levels[s], rebuilt[s]) {}
    forall s | 0 <= s < |levels|
      ensures StatOf(files, at, stats[s], s, lo, hi)
    {
      StatIsNumbered(files, at, levels[s], rebuilt[s], s, lo, hi);
      SublevelOf(files, at, levels[s], rebuilt[s], s);
    }
  }

  lemma SublevelOf(files: seq<TableInfo>, at: seq<nat>, level: seq<Placed>, stat: SublevelStat, s: nat)
    requires |at| == |files| && LevelRebuilt(files, at, |files|, s, level, stat)
    ensures stat.sublevel == s && Tiled(level)
  {}

  lemma NumberingRises(files: seq<TableInfo>, j: nat)
    requires j < |files|
    ensures var ps, at := Placements(files), Assignment(Placements(files));
            && (forall i :: 0 <= i < j && Meet(files[i], files[j]) ==> at[i] < at[j])
            && (at[j] > 0 ==> exists i :: 0 <= i < j && at[i] == at[j] - 1 && Meet(files[i], files[j]))
  {
    hide Compare;
    var ps, at := Placements(files), Assignment(Placements(files));
    AboveOlderBounds(ps, j, j);
    assert at[j] == AboveOlder(ps, j, j);
    hide Sublevel;
    forall i | 0 <= i < j ensures Overlap(ps[i], ps[j]) == Meet(files[i], files[j]) && at[i] == Sublevel(ps, i) {}
  }

  lemma LevelHolds(files: seq<TableInfo>, levels: seq<seq<Placed>>, rebuilt: seq<SublevelStat>, s: nat, q: Placed)
    requires Rebuilt(files, Assignment(Placements(files)), |files|, levels, rebuilt) && s < |levels|
    ensures q in levels[s] <==> HasNumber(files, Assignment(Placements(files)), s, q)
  {
    hide Rebuilt, Compare, Assignment;
    InLevel(files, Assignment(Placements(files)), |files|, levels, rebuilt, s, q);
  }

  lemma NumberingHolds(files: seq<TableInfo>, levels: seq<seq<Placed>>, rebuilt: seq<SublevelStat>)
    requires Rebuilt(files, Assignment(Placements(files)), |files|, levels, rebuilt)
    ensures Numbering(files, Assignment(Placements(files)), levels)
  {
    hide Compare, Tiled, Meet, HasNumber, LevelRebuilt, Placements, Assignment, Rises;
    var at := Assignment(Placements(files));
    assert |at| == |files| && Rises(files, at) by {
      AllRise(files);
    }
    HeightBounds(at, |files|);
    forall s, q | 0 <= s < |levels| ensures q in levels[s] <==> HasNumber(files, at, s, q) {
      LevelHolds(files, levels, rebuilt, s, q);
    }
    forall s | 0 <= s < |levels| ensures Tiled(levels[s]) {
      SublevelOf(files, at, levels[s], rebuilt[s], s);
    }
  }

  lemma AllRise(files: seq<TableInfo>)
    ensures |Assignment(Placements(files))| == |files| && Rises(files, Assignment(Placements(files)))
  {
    hide Compare, Meet, Sublevel;
    forall j | 0 <= j < |files|
      ensures var at := Assignment(Placements(files));
              && (forall i :: 0 <= i < j && Meet(files[i], files[j]) ==> at[i] < at[j])
              && (at[j] > 0 ==> exists i :: 0 <= i < j && at[i] == at[j] - 1 && Meet(files[i], files[j]))
    {
      NumberingRises(files, j);
    }
  }

  /** The key range of all the tables: bounds that two of them attain. */
  ghost predicate KeyRange(files: seq<TableInfo>, lo: Key, hi: Key) {
    && (forall i :: 0 <= i < |files| ==> Le(lo, files[i].smallest) && Le(files[i].largest, hi))
    && (files != [] ==>
          && (exists i :: 0 <= i < |files| && files[i].smallest == lo)
          && (exists i :: 0 <= i < |files| && files[i].largest == hi))
  }

  lemma HullIsKeyRange(files: seq<TableInfo>, lo: Key, hi: Key)
    requires Hull(Placements(files), |files|, lo, hi)
    ensures KeyRange(files, lo, hi)
  {
    var ps := Placements(files);
    forall i | 0 <= i < |files| ensures ps[i] == Placed(files[i].smallest, files[i].largest) {}
    if files != [] {
      var i :| 0 <= i < |files| && ps[i].lo == lo;
      var j :| 0 <= j < |files| && ps[j].hi == hi;
      assert files[i].smallest == lo && files[j].largest == hi;
    }
  }

  /**
   * Of two tables with a key in common the one with the smaller largest sequence number lies
   * strictly lower; every figure is a sum, a mean or a maximum over the files numbered so. An
   * unreadable or empty listing gives no sublevels and no shape.
   */
  method V2L0Sublevels(tables: seq<TableInfo>)
    returns (stats: seq<SublevelStat>, shape: L0Shape,
             ghost at: seq<nat>, ghost levels: seq<seq<Placed>>, ghost lo: Key, ghost hi: Key)
    requires forall i :: 0 <= i < |tables| ==> Le(tables[i].smallest, tables[i].largest)
    ensures var files := OldestFirst(tables);
            && |levels| == |stats| && Numbering(files, at, levels) && KeyRange(files, lo, hi)
            && (forall i, j | 0 <= i < |files| && 0 <= j < |files| && Meet(files[i], files[j]) ::
                  files[i].largestSeqNum < files[j].largestSeqNum ==> at[i] < at[j])
            && StatsOf(files, at, stats, lo, hi)
            && Figures(levels, lo, hi, shape)
    ensures Minimal(Placements(OldestFirst(tables)), |stats|)
    ensures Sum(FileCounts(stats)) == |tables| && Sum(FileSizes(stats)) == TotalSize(OldestFirst(tables), |tables|)
    ensures SpansReported(stats) && FiguresInRange(shape)
    ensures shape.files == |tables|
    ensures tables != [] ==> stats != [] && shape.measured == |tables| - stats[0].files
  {
    hide Chain, Layout, Reported, Sum, TotalSize, FiguresInRange, Compare, Figures, Numbering, StatsOf, KeyRange, Meet;
    SortedTablesProper(tables);
    var files := OldestFirst(tables);
    if tables == [] {
      stats, shape, levels, lo, hi := [], NO_SHAPE, [], [], [];
      NothingReported();
    } else {
      stats, shape, levels, lo, hi := MeasureL0(files);
    }
    at := Assignment(Placements(files));
    ReportedInRange(files, levels, lo, hi, stats, shape);
    ReportedConserves(files, levels, lo, hi, stats, shape);
    ReportedIsMinimal(files, levels, lo, hi, stats, shape);
    ReportedIsNumbering(files, levels, lo, hi, stats, shape);
    ReportedFigures(files, levels, lo, hi, stats, shape);
    OlderLiesLower(files, at, levels);
  }

  lemma OlderLiesLower(files: seq<TableInfo>, at: seq<nat>, levels: seq<seq<Placed>>)
    requires Numbering(files, at, levels)
    requires forall i, j :: 0 <= i < j < |files| ==> files[i].largestSeqNum <= files[j].largestSeqNum
    ensures forall i, j | 0 <= i < |files| && 0 <= j < |files| && Meet(files[i], files[j]) ::
              files[i].largestSeqNum < files[j].largestSeqNum ==> at[i] < at[j]
  {
    hide Holds, Meet;
  }

  lemma ReportedFigures(files: seq<TableInfo>, levels: seq<seq<Placed>>, lo: Key, hi: Key,
                        stats: seq<SublevelStat>, shape: L0Shape)
    requires Reported(files, levels, lo, hi, stats, shape)
    ensures |levels| == |stats| && KeyRange(files, lo, hi) && Figures(levels, lo, hi, shape)
  {
    hide Hull, Figures, KeyRange, Tiled, Report, MeasureLevels;
    var at := Assignment(Placements(files));
    var rebuilt: seq<SublevelStat> :|
      Rebuilt(files, at, |files|, levels, rebuilt) && SpansFilled(levels, rebuilt, stats, lo, hi);
    forall s | 0 <= s < |levels| ensures Tiled(levels[s]) {
      assert LevelRebuilt(files, at, |files|, s, levels[s], rebuilt[s]);
    }
    MeasuredFigures(levels, lo, hi);
    HullIsKeyRange(files, lo, hi);
  }

  lemma NothingReported()
    ensures Reported([], [], [], [], [], NO_SHAPE)
  {
    assert Rebuilt([], Assignment(Placements([])), 0, [], []);
  }
}
