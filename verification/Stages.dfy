// metrics/stages.go against the byte totals of the v1 and v2 adapters, in wrapping 64-bit
// arithmetic throughout: BuildStageBreakdown's rows account for every byte the levels wrote.
module Stages {

  import opened Numbers

  const NUM_LEVELS: nat := 7

  type Uint64 = n: int | 0 <= n < TWO_64

  function U64(x: int): Uint64 {
    x % TWO_64
  }

  function Add(a: Uint64, b: Uint64): Uint64 {
    U64(a + b)
  }

  /** int64(x): the bit pattern read as two's complement. */
  function Signed(x: Uint64): int {
    if x <= MAX_INT64 then x else x - TWO_64
  }

  function WrapSigned(x: int): int {
    Signed(U64(x))
  }

  /** One level of pebble's metrics; version 1 has no blob files. */
  datatype Level = Level(flushed: Uint64, compacted: Uint64, blobFlushed: Uint64, blobCompacted: Uint64, tables: int)

  datatype LevelStat = LevelStat(bytesFlushed: Uint64, bytesCompacted: Uint64)

  /** The fields of DBMetrics that the breakdown reads. */
  datatype DBMetrics = DBMetrics(walBytesIn: Uint64, bytesWritten: Uint64, baseLevel: int, levels: seq<LevelStat>)

  datatype StageBreakdown = StageBreakdown(accepted: Uint64, wal: Uint64, flushToL0: Uint64, intraL0: Uint64,
                                           aboveLbase: Uint64, l0ToLbase: Uint64, lbaseToBot: Uint64,
                                           total: Uint64, residual: int)

  // --- True totals, before any wrap-around.

  function Written(l: LevelStat): nat {
    l.bytesFlushed + l.bytesCompacted
  }

  /** Bytes written into levels from (inclusive) to below (exclusive). */
  function WrittenIn(ls: seq<LevelStat>, from: int, below: int): nat
    requires |ls| == NUM_LEVELS
    decreases below - from
  {
    if from >= below then 0
    else (if 0 <= from < NUM_LEVELS then Written(ls[from]) else 0) + WrittenIn(ls, from + 1, below)
  }

  lemma {:induction false} WrittenSplits(ls: seq<LevelStat>, from: int, mid: int, below: int)
    requires |ls| == NUM_LEVELS && from <= mid <= below
    ensures WrittenIn(ls, from, below) == WrittenIn(ls, from, mid) + WrittenIn(ls, mid, below)
    decreases mid - from
  {
    if from < mid {
      WrittenSplits(ls, from + 1, mid, below);
    }
  }

  /** Adding with wrap-around at every step gives the true sum's remainder. */
  lemma ModAdd(x: int, y: int)
    ensures Add(U64(x), U64(y)) == U64(x + y)
  {}

  lemma ModSub(x: int, y: int)
    ensures U64(U64(x) - U64(y)) == U64(x - y)
  {}

  lemma Small(x: Uint64)
    ensures U64(x) == x
  {}

  // --- The breakdown.

  datatype Row = Above | Lbase | Bottom

  function RowOf(level: int, base: int): Row {
    if level == base then Lbase else if base >= 0 && level > base then Bottom else Above
  }

  /** The true bytes of one row over levels 1 to n-1. */
  ghost function RowBytes(m: DBMetrics, row: Row, n: nat): nat
    requires |m.levels| == NUM_LEVELS && n <= NUM_LEVELS
  {
    if n <= 1 then 0
    else RowBytes(m, row, n - 1) + if RowOf(n - 1, m.baseLevel) == row then Written(m.levels[n - 1]) else 0
  }

  /** Levels above the base: all of them when no level below L0 is the base. */
  function AboveEnd(base: int): int {
    if base < 0 || base >= NUM_LEVELS then NUM_LEVELS else if base == 0 then 1 else base
  }

  lemma LastLevel(ls: seq<LevelStat>, from: int, n: nat)
    requires |ls| == NUM_LEVELS && from < n <= NUM_LEVELS && n > 0
    ensures WrittenIn(ls, from, n) == WrittenIn(ls, from, n - 1) + Written(ls[n - 1])
  {
    WrittenSplits(ls, from, n - 1, n);
  }

  lemma {:induction false} AboveIsRange(m: DBMetrics, n: nat)
    requires |m.levels| == NUM_LEVELS && 1 <= n <= NUM_LEVELS
    ensures RowBytes(m, Above, n) == WrittenIn(m.levels, 1, Min(n, AboveEnd(m.baseLevel)))
  {
    hide Written;
    if n > 1 {
      AboveIsRange(m, n - 1);
      LastLevel(m.levels, 1, n);
    }
  }

  lemma {:induction false} LbaseIsLevel(m: DBMetrics, n: nat)
    requires |m.levels| == NUM_LEVELS && 1 <= n <= NUM_LEVELS
    ensures RowBytes(m, Lbase, n) == if 1 <= m.baseLevel < n then Written(m.levels[m.baseLevel]) else 0
  {
    hide Written;
    if n > 1 {
      LbaseIsLevel(m, n - 1);
    }
  }

  lemma {:induction false} BottomIsRange(m: DBMetrics, n: nat)
    requires |m.levels| == NUM_LEVELS && 1 <= n <= NUM_LEVELS
    ensures RowBytes(m, Bottom, n) == if 0 <= m.baseLevel then WrittenIn(m.levels, m.baseLevel + 1, n) else 0
  {
    hide Written;
    if n > 1 {
      BottomIsRange(m, n - 1);
      if 0 <= m.baseLevel < n - 1 {
        LastLevel(m.levels, m.baseLevel + 1, n);
      }
    }
  }

  /** Every level's bytes fall in exactly one row, whatever the base level. */
  lemma {:induction false} RowsPartition(m: DBMetrics, n: nat)
    requires |m.levels| == NUM_LEVELS && 1 <= n <= NUM_LEVELS
    ensures RowBytes(m, Above, n) + RowBytes(m, Lbase, n) + RowBytes(m, Bottom, n) == WrittenIn(m.levels, 1, n)
  {
    if n > 1 {
      RowsPartition(m, n - 1);
      WrittenSplits(m.levels, 1, n - 1, n);
      assert WrittenIn(m.levels, n - 1, n) == Written(m.levels[n - 1]);
    }
  }

  /** The stage rows as sums over level ranges, and their total as everything written. */
  ghost predicate RowsRight(s: StageBreakdown, m: DBMetrics)
    requires |m.levels| == NUM_LEVELS
  {
    var base := m.baseLevel;
    && s.accepted == s.wal == m.walBytesIn
    && s.flushToL0 == m.levels[0].bytesFlushed && s.intraL0 == m.levels[0].bytesCompacted
    && s.aboveLbase == U64(WrittenIn(m.levels, 1, AboveEnd(base)))
    && s.l0ToLbase == U64(if 1 <= base < NUM_LEVELS then Written(m.levels[base]) else 0)
    && s.lbaseToBot == U64(if 0 <= base then WrittenIn(m.levels, base + 1, NUM_LEVELS) else 0)
    && s.total == U64(m.walBytesIn + WrittenIn(m.levels, 0, NUM_LEVELS))
    && s.residual == WrapSigned(m.bytesWritten - s.total)
  }

  lemma L0First(ls: seq<LevelStat>)
    requires |ls| == NUM_LEVELS
    ensures WrittenIn(ls, 0, NUM_LEVELS) == Written(ls[0]) + WrittenIn(ls, 1, NUM_LEVELS)
  {}

  lemma TotalIsEverything(m: DBMetrics, above: Uint64, lbase: Uint64, bottom: Uint64)
    requires |m.levels| == NUM_LEVELS
    requires above == U64(RowBytes(m, Above, NUM_LEVELS))
    requires lbase == U64(RowBytes(m, Lbase, NUM_LEVELS))
    requires bottom == U64(RowBytes(m, Bottom, NUM_LEVELS))
    ensures var l0 := m.levels[0];
            Add(Add(Add(Add(Add(m.walBytesIn, l0.bytesFlushed), l0.bytesCompacted), above), lbase), bottom)
            == U64(m.walBytesIn + WrittenIn(m.levels, 0, NUM_LEVELS))
  {
    hide U64, Add, WrittenIn, RowBytes;
    RowsPartition(m, NUM_LEVELS);
    L0First(m.levels);
    FiveAdds(m.walBytesIn, m.levels[0].bytesFlushed, m.levels[0].bytesCompacted,
             RowBytes(m, Above, NUM_LEVELS), RowBytes(m, Lbase, NUM_LEVELS), RowBytes(m, Bottom, NUM_LEVELS));
  }

  lemma FiveAdds(a: Uint64, b: Uint64, c: Uint64, d: nat, e: nat, f: nat)
    ensures Add(Add(Add(Add(Add(a, b), c), U64(d)), U64(e)), U64(f)) == U64(a + b + c + d + e + f)
  {
    hide U64, Add;
    Small(a);
    Small(b);
    Small(c);
    ModAdd(a, b);
    ModAdd(a + b, c);
    ModAdd(a + b + c, d);
    ModAdd(a + b + c + d, e);
    ModAdd(a + b + c + d + e, f);
  }

  lemma LevelWritten(l: LevelStat)
    ensures Add(l.bytesCompacted, l.bytesFlushed) == U64(Written(l))
  {}

  /** The loop over the levels below L0. */
  method SumRows(m: DBMetrics) returns (above: Uint64, lbase: Uint64, bottom: Uint64)
    requires |m.levels| == NUM_LEVELS
    ensures above == U64(RowBytes(m, Above, NUM_LEVELS))
    ensures lbase == U64(RowBytes(m, Lbase, NUM_LEVELS))
    ensures bottom == U64(RowBytes(m, Bottom, NUM_LEVELS))
  {
    Small(0);
    hide U64, Add, Written;
    above, lbase, bottom := 0, 0, 0;
    var base := m.baseLevel;
    for level := 1 to NUM_LEVELS
      invariant above == U64(RowBytes(m, Above, level))
      invariant lbase == U64(RowBytes(m, Lbase, level))
      invariant bottom == U64(RowBytes(m, Bottom, level))
    {
      var written := Add(m.levels[level].bytesCompacted, m.levels[level].bytesFlushed);
      LevelWritten(m.levels[level]);
      ModAdd(RowBytes(m, RowOf(level, base), level), Written(m.levels[level]));
      if level == base {
        lbase := Add(lbase, written);
      } else if base >= 0 && level > base {
        bottom := Add(bottom, written);
      } else {
        above := Add(above, written);
      }
    }
  }

  method BuildStageBreakdown(m: DBMetrics) returns (s: StageBreakdown)
    requires |m.levels| == NUM_LEVELS
    ensures RowsRight(s, m)
  {
    hide U64, Add, Written, WrittenIn, RowBytes, Signed;
    var above, lbase, bottom := SumRows(m);
    var flush, intra := m.levels[0].bytesFlushed, m.levels[0].bytesCompacted;
    var total := Add(Add(Add(Add(Add(m.walBytesIn, flush), intra), above), lbase), bottom);
    TotalIsEverything(m, above, lbase, bottom);
    AboveIsRange(m, NUM_LEVELS);
    LbaseIsLevel(m, NUM_LEVELS);
    BottomIsRange(m, NUM_LEVELS);
    SignedDifference(m.bytesWritten, total);
    s := StageBreakdown(m.walBytesIn, m.walBytesIn, flush, intra, above, lbase, bottom, total,
                        WrapSigned(Signed(m.bytesWritten) - Signed(total)));
  }

  lemma SignedDifference(x: Uint64, y: Uint64)
    ensures WrapSigned(Signed(x) - Signed(y)) == WrapSigned(x - y)
  {}

  // --- The adapters.

  function LevelBytes(l: Level): nat {
    l.flushed + l.compacted
  }

  function BlobBytes(l: Level): nat {
    l.blobFlushed + l.blobCompacted
  }

  /** Every level's bytes, blob bytes counted or not. */
  function SumLevels(ls: seq<Level>, blobs: bool): nat {
    if ls == [] then 0
    else
      var l := ls[|ls| - 1];
      SumLevels(ls[..|ls| - 1], blobs) + Counted(l, blobs)
  }

  function SumBlobs(ls: seq<Level>): nat {
    if ls == [] then 0 else SumBlobs(ls[..|ls| - 1]) + BlobBytes(ls[|ls| - 1])
  }

  lemma {:induction false} BlobsApart(ls: seq<Level>)
    ensures SumLevels(ls, true) == SumLevels(ls, false) + SumBlobs(ls)
  {
    if ls != [] {
      BlobsApart(ls[..|ls| - 1]);
    }
  }

  function Stat(l: Level): LevelStat {
    LevelStat(l.flushed, l.compacted)
  }

  /** The shallowest level below L0 holding tables, or -1. */
  ghost predicate IsBaseLevel(base: int, ls: seq<Level>) {
    && (base == -1 || (1 <= base < |ls| && ls[base].tables > 0))
    && forall i :: 1 <= i < (if base == -1 then |ls| else base) ==> ls[i].tables <= 0
  }

  ghost predicate Adapted(m: DBMetrics, ls: seq<Level>, walBytesIn: Uint64, blobs: bool)
  {
    && |m.levels| == |ls|
    && (forall i :: 0 <= i < |ls| ==> m.levels[i] == Stat(ls[i]))
    && m.walBytesIn == walBytesIn
    && m.bytesWritten == U64(SumLevels(ls, blobs) + walBytesIn)
    && IsBaseLevel(m.baseLevel, ls)
  }

  function Counted(l: Level, blobs: bool): nat {
    LevelBytes(l) + if blobs then BlobBytes(l) else 0
  }

  method LevelTotal(l: Level, blobs: bool) returns (here: Uint64)
    ensures here == U64(Counted(l, blobs))
  {
    hide U64, Add;
    Small(l.flushed);
    Small(l.compacted);
    ModAdd(l.flushed, l.compacted);
    here := Add(l.flushed, l.compacted);
    if blobs {
      Small(l.blobFlushed);
      Small(l.blobCompacted);
      ModAdd(LevelBytes(l), l.blobFlushed);
      ModAdd(LevelBytes(l) + l.blobFlushed, l.blobCompacted);
      here := Add(Add(here, l.blobFlushed), l.blobCompacted);
    }
  }

  method SumWritten(ls: seq<Level>, blobs: bool) returns (written: Uint64)
    ensures written == U64(SumLevels(ls, blobs))
  {
    Small(0);
    hide U64, Add, Counted;
    written := 0;
    for i := 0 to |ls|
      invariant written == U64(SumLevels(ls[..i], blobs))
    {
      assert ls[..i + 1][..i] == ls[..i];
      var here := LevelTotal(ls[i], blobs);
      ModAdd(SumLevels(ls[..i], blobs), Counted(ls[i], blobs));
      written := Add(written, here);
    }
    assert ls[..|ls|] == ls;
  }

  /** The byte sums of the v1 (blobs false) and v2 (blobs true) adapters' Metrics. */
  method Metrics(ls: seq<Level>, walBytesIn: Uint64, blobs: bool) returns (m: DBMetrics)
    requires |ls| == NUM_LEVELS
    ensures Adapted(m, ls, walBytesIn, blobs)
  {
    hide U64, Add, SumLevels;
    var written := SumWritten(ls, blobs);
    Small(walBytesIn);
    ModAdd(SumLevels(ls, blobs), walBytesIn);
    written := Add(written, walBytesIn);
    var base, levels := -1, [];
    for i := 0 to |ls|
      invariant |levels| == i && forall j :: 0 <= j < i ==> levels[j] == Stat(ls[j])
      invariant base == -1 || (1 <= base < i && ls[base].tables > 0)
      invariant forall j :: 1 <= j < (if base == -1 then i else base) ==> ls[j].tables <= 0
    {
      levels := levels + [Stat(ls[i])];
      if i > 0 && base < 0 && ls[i].tables > 0 {
        base := i;
      }
    }
    m := DBMetrics(walBytesIn, written, base, levels);
  }

  lemma {:induction false} StatsSumLevels(m: DBMetrics, ls: seq<Level>, n: nat)
    requires |m.levels| == |ls| == NUM_LEVELS && n <= NUM_LEVELS
    requires forall i :: 0 <= i < |ls| ==> m.levels[i] == Stat(ls[i])
    ensures WrittenIn(m.levels, 0, n) == SumLevels(ls[..n], false)
  {
    if n > 0 {
      StatsSumLevels(m, ls, n - 1);
      WrittenSplits(m.levels, 0, n - 1, n);
      assert ls[..n][..n - 1] == ls[..n - 1];
      assert WrittenIn(m.levels, n - 1, n) == Written(m.levels[n - 1]);
    }
  }

  lemma ResidueIsExtra(written: Uint64, total: Uint64, rows: int, extra: int)
    requires written == U64(rows + extra) && total == U64(rows)
    ensures WrapSigned(written - total) == WrapSigned(extra)
    ensures 0 <= extra <= MAX_INT64 ==> WrapSigned(extra) == extra
  {
    ModSub(rows + extra, rows);
    if 0 <= extra <= MAX_INT64 {
      Small(extra);
    }
  }

  /**
   * The cross-check: nothing is left over from a v1 snapshot, and from a v2 snapshot exactly the
   * blob bytes, which no row counts.
   */
  lemma {:induction false} ResidualIsBlobBytes(ls: seq<Level>, walBytesIn: Uint64, blobs: bool,
                                               m: DBMetrics, s: StageBreakdown)
    requires |ls| == NUM_LEVELS && Adapted(m, ls, walBytesIn, blobs) && RowsRight(s, m)
    ensures s.residual == if blobs then WrapSigned(SumBlobs(ls)) else 0
    ensures blobs && SumBlobs(ls) <= MAX_INT64 ==> s.residual == SumBlobs(ls)
  {
    BlobsApart(ls);
    StatsSumLevels(m, ls, NUM_LEVELS);
    assert ls[..NUM_LEVELS] == ls;
    hide SumLevels, SumBlobs, WrittenIn, U64, WrapSigned, IsBaseLevel, Written, AboveEnd;
    ResidueIsExtra(m.bytesWritten, s.total, walBytesIn + SumLevels(ls, false), if blobs then SumBlobs(ls) else 0);
  }

  // --- The same figures, level by level.

  /** Flushed and compacted bytes of those levels below L0 that are chosen. */
  ghost function BelowL0(ls: seq<LevelStat>, chosen: int -> bool): nat
    requires |ls| == 7
  {
    (if chosen(1) then ls[1].bytesFlushed + ls[1].bytesCompacted else 0)
    + (if chosen(2) then ls[2].bytesFlushed + ls[2].bytesCompacted else 0)
    + (if chosen(3) then ls[3].bytesFlushed + ls[3].bytesCompacted else 0)
    + (if chosen(4) then ls[4].bytesFlushed + ls[4].bytesCompacted else 0)
    + (if chosen(5) then ls[5].bytesFlushed + ls[5].bytesCompacted else 0)
    + (if chosen(6) then ls[6].bytesFlushed + ls[6].bytesCompacted else 0)
  }

  function AboveBase(base: int): int -> bool {
    i => base < 0 || i < base
  }

  function AtBase(base: int): int -> bool {
    i => i == base
  }

  function PastBase(base: int): int -> bool {
    i => base >= 0 && i > base
  }

  function Anywhere(): int -> bool {
    i => true
  }

  /** The levels between two bounds. */
  lemma RangeIsChosen(w: seq<LevelStat>, from: int, below: int, chosen: int -> bool)
    requires |w| == 7 && 1 <= from && below <= 7
    requires forall i :: 1 <= i < 7 ==> (chosen(i) <==> from <= i < below)
    ensures WrittenIn(w, from, below) == BelowL0(w, chosen)
  {
    if from < below {
      forall i | 1 <= i <= 7
        ensures WrittenIn(w, i, below) ==
                if i >= below then 0 else Written(w[i]) + WrittenIn(w, i + 1, below)
      {}
      hide WrittenIn;
      forall i | 0 <= i < 7 ensures Written(w[i]) == w[i].bytesFlushed + w[i].bytesCompacted {}
    }
  }

  lemma OneIsChosen(w: seq<LevelStat>, base: int, chosen: int -> bool)
    requires |w| == 7
    requires forall i :: 1 <= i < 7 ==> (chosen(i) <==> i == base)
    ensures (if 1 <= base < 7 then Written(w[base]) else 0) == BelowL0(w, chosen)
  {}

  lemma NoneChosen(w: seq<LevelStat>, chosen: int -> bool)
    requires |w| == 7 && forall i :: 1 <= i < 7 ==> !chosen(i)
    ensures BelowL0(w, chosen) == 0
  {}

  lemma L0Written(l: LevelStat)
    ensures Written(l) == l.bytesFlushed + l.bytesCompacted
  {}

  lemma WordOf(x: nat)
    ensures U64(x) == x % 0x1_0000_0000_0000_0000
  {}

  lemma AboveIsChosen(w: seq<LevelStat>, base: int)
    requires |w| == 7
    ensures WrittenIn(w, 1, AboveEnd(base)) == BelowL0(w, AboveBase(base))
  {
    hide BelowL0, WrittenIn;
    RangeIsChosen(w, 1, AboveEnd(base), AboveBase(base));
  }

  /**
   * The breakdown, whatever the base level: L0's two rows, the three rows of the levels above, at and
   * below the base level, and everything written in all, modulo 2^64.
   */
  lemma StagesOfMetrics(m: DBMetrics, s: StageBreakdown)
    requires |m.levels| == 7 && RowsRight(s, m)
    ensures var base, w := m.baseLevel, m.levels;
            && s.accepted == s.wal == m.walBytesIn
            && s.flushToL0 == w[0].bytesFlushed && s.intraL0 == w[0].bytesCompacted
            && s.aboveLbase == BelowL0(w, AboveBase(base)) % 0x1_0000_0000_0000_0000
            && s.l0ToLbase == BelowL0(w, AtBase(base)) % 0x1_0000_0000_0000_0000
            && s.lbaseToBot == BelowL0(w, PastBase(base)) % 0x1_0000_0000_0000_0000
            && s.total == (m.walBytesIn + w[0].bytesFlushed + w[0].bytesCompacted + BelowL0(w, Anywhere()))
                          % 0x1_0000_0000_0000_0000
            && -0x8000_0000_0000_0000 <= s.residual < 0x8000_0000_0000_0000
            && (s.residual - (m.bytesWritten - s.total)) % 0x1_0000_0000_0000_0000 == 0
  {
    hide BelowL0, WrittenIn, Written, WrapSigned, U64, AboveEnd;
    var base, w := m.baseLevel, m.levels;
    L0First(w);
    L0Written(w[0]);
    RangeIsChosen(w, 1, 7, Anywhere());
    AboveIsChosen(w, base);
    OneIsChosen(w, base, AtBase(base));
    if base >= 0 {
      RangeIsChosen(w, base + 1, 7, PastBase(base));
    } else {
      NoneChosen(w, PastBase(base));
    }
    WordOf(BelowL0(w, AboveBase(base)));
    WordOf(BelowL0(w, AtBase(base)));
    WordOf(BelowL0(w, PastBase(base)));
    WordOf(m.walBytesIn + w[0].bytesFlushed + w[0].bytesCompacted + BelowL0(w, Anywhere()));
    WrapSignedIsInt64(m.bytesWritten - s.total);
  }

  /** What the adapters report of each level and in all, version 1 without blob bytes. */
  lemma MetricsOfLevels(ls: seq<Level>, walBytesIn: Uint64, blobs: bool, m: DBMetrics)
    requires |ls| == 7 && Adapted(m, ls, walBytesIn, blobs)
    ensures |m.levels| == 7
    ensures forall i :: 0 <= i < 7 ==>
              m.levels[i].bytesFlushed == ls[i].flushed && m.levels[i].bytesCompacted == ls[i].compacted
    ensures var blob := ls[0].blobFlushed + ls[0].blobCompacted + ls[1].blobFlushed + ls[1].blobCompacted
                        + ls[2].blobFlushed + ls[2].blobCompacted + ls[3].blobFlushed + ls[3].blobCompacted
                        + ls[4].blobFlushed + ls[4].blobCompacted + ls[5].blobFlushed + ls[5].blobCompacted
                        + ls[6].blobFlushed + ls[6].blobCompacted;
            m.bytesWritten == (walBytesIn + m.levels[0].bytesFlushed + m.levels[0].bytesCompacted
                               + BelowL0(m.levels, Anywhere()) + if blobs then blob else 0)
                              % 0x1_0000_0000_0000_0000
  {
    BlobsApart(ls);
    SevenTerms(ls, blobs);
    StatsSumLevels(m, ls, 7);
    assert ls[..7] == ls;
    hide SumLevels, SumBlobs, WrittenIn, BelowL0, U64;
    L0First(m.levels);
    RangeIsChosen(m.levels, 1, 7, Anywhere());
    WordOf(SumLevels(ls, blobs) + walBytesIn);
  }

  lemma SevenTerms(ls: seq<Level>, blobs: bool)
    requires |ls| == 7
    ensures SumLevels(ls, blobs) == Counted(ls[0], blobs) + Counted(ls[1], blobs) + Counted(ls[2], blobs)
                                    + Counted(ls[3], blobs) + Counted(ls[4], blobs) + Counted(ls[5], blobs)
                                    + Counted(ls[6], blobs)
    ensures SumBlobs(ls) == BlobBytes(ls[0]) + BlobBytes(ls[1]) + BlobBytes(ls[2]) + BlobBytes(ls[3])
                            + BlobBytes(ls[4]) + BlobBytes(ls[5]) + BlobBytes(ls[6])
  {
    hide Counted, BlobBytes;
    forall n: nat | n < 7
      ensures SumLevels(ls[..n + 1], blobs) == SumLevels(ls[..n], blobs) + Counted(ls[n], blobs)
      ensures SumBlobs(ls[..n + 1]) == SumBlobs(ls[..n]) + BlobBytes(ls[n])
    {
      assert ls[..n + 1][..n] == ls[..n];
    }
    assert ls[..7] == ls && SumLevels(ls[..0], blobs) == 0 && SumBlobs(ls[..0]) == 0;
    hide SumLevels, SumBlobs;
    assert SumBlobs(ls[..1]) == BlobBytes(ls[0]);
    assert SumBlobs(ls[..2]) == BlobBytes(ls[0]) + BlobBytes(ls[1]);
    assert SumBlobs(ls[..4]) == SumBlobs(ls[..2]) + BlobBytes(ls[2]) + BlobBytes(ls[3]);
    assert SumLevels(ls[..2], blobs) == Counted(ls[0], blobs) + Counted(ls[1], blobs);
    assert SumLevels(ls[..4], blobs) == SumLevels(ls[..2], blobs) + Counted(ls[2], blobs) + Counted(ls[3], blobs);
  }

  lemma WrapSignedIsInt64(x: int)
    ensures -0x8000_0000_0000_0000 <= WrapSigned(x) < 0x8000_0000_0000_0000
    ensures (WrapSigned(x) - x) % 0x1_0000_0000_0000_0000 == 0
  {
    var q := x / TWO_64;
    assert U64(x) == x - q * TWO_64;
    if U64(x) <= MAX_INT64 {
      assert WrapSigned(x) - x == -q * TWO_64;
    } else {
      assert WrapSigned(x) - x == (-q - 1) * TWO_64;
    }
  }
}
