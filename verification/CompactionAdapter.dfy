// recordV1Compaction and recordV2Compaction (one body, duplicated per pebble version): classify
// a finished compaction and hand its byte counts and overlap depth to the tracker.
module CompactionAdapters {
  import opened Keys
  import opened Sequences
  import opened RangeDepth
  import opened Sublevels
  import opened Compactions
  import opened Text

  datatype Table = Table(size: nat, smallest: Key, largest: Key)

  datatype LevelInfo = LevelInfo(level: int, tables: seq<Table>)

  datatype CompactionInfo = CompactionInfo(reason: string, input: seq<LevelInfo>, outputLevel: int,
                                           output: seq<Table>, duration: int)

  function TableBytes(ts: seq<Table>): nat {
    if ts == [] then 0 else TableBytes(ts[..|ts| - 1]) + ts[|ts| - 1].size
  }

  function AllBytes(input: seq<LevelInfo>): nat {
    if input == [] then 0 else AllBytes(input[..|input| - 1]) + TableBytes(input[|input| - 1].tables)
  }

  /** The part an input level plays: L0 before anything else, then the output level. */
  datatype Part = FromL0 | FanIn | FromStart

  function PartOf(level: int, outputLevel: int): Part {
    if level == 0 then FromL0 else if level == outputLevel then FanIn else FromStart
  }

  function PartBytes(input: seq<LevelInfo>, outputLevel: int, part: Part): nat {
    if input == [] then 0
    else
      var l := input[|input| - 1];
      PartBytes(input[..|input| - 1], outputLevel, part) +
      if PartOf(l.level, outputLevel) == part then TableBytes(l.tables) else 0
  }

  function L0Tables(input: seq<LevelInfo>): seq<Table> {
    if input == [] then []
    else
      var l := input[|input| - 1];
      L0Tables(input[..|input| - 1]) + if l.level == 0 then l.tables else []
  }

  function Smallests(ts: seq<Table>): (ks: seq<Key>)
    ensures |ks| == |ts|
  {
    seq(|ts|, i requires 0 <= i < |ts| => ts[i].smallest)
  }

  function Largests(ts: seq<Table>): (ks: seq<Key>)
    ensures |ks| == |ts|
  {
    seq(|ts|, i requires 0 <= i < |ts| => ts[i].largest)
  }

  ghost predicate ProperTables(ts: seq<Table>) {
    forall i :: 0 <= i < |ts| ==> Le(ts[i].smallest, ts[i].largest)
  }

  function KindOf(info: CompactionInfo): int {
    if HasSuffix(info.reason, "move") then MOVE
    else if info.outputLevel == 0 then INTRA_L0
    else if PartBytes(info.input, info.outputLevel, FromL0) > 0 then L0_LBASE
    else LBASE_PLUS
  }

  /** Each input level plays one part, so the three parts make up the input. */
  lemma {:induction false} PartsMakeInput(input: seq<LevelInfo>, outputLevel: int)
    ensures PartBytes(input, outputLevel, FromL0) + PartBytes(input, outputLevel, FanIn)
            + PartBytes(input, outputLevel, FromStart) == AllBytes(input)
  {
    if input != [] {
      PartsMakeInput(input[..|input| - 1], outputLevel);
    }
  }

  lemma {:induction false} NoFanInIntoL0(input: seq<LevelInfo>)
    ensures PartBytes(input, 0, FanIn) == 0
  {
    if input != [] {
      NoFanInIntoL0(input[..|input| - 1]);
    }
  }

  method SumTables(ts: seq<Table>) returns (bytes: nat)
    ensures bytes == TableBytes(ts)
  {
    bytes := 0;
    for j := 0 to |ts|
      invariant bytes == TableBytes(ts[..j])
    {
      assert ts[..j + 1][..j] == ts[..j];
      bytes := bytes + ts[j].size;
    }
    assert ts[..|ts|] == ts;
  }

  /** The loop over the input levels. */
  method SumParts(input: seq<LevelInfo>, outputLevel: int)
    returns (l0Bytes: nat, startBytes: nat, fanInBytes: nat, l0Starts: seq<Key>, l0Ends: seq<Key>)
    ensures l0Bytes == PartBytes(input, outputLevel, FromL0)
    ensures startBytes == PartBytes(input, outputLevel, FromStart)
    ensures fanInBytes == PartBytes(input, outputLevel, FanIn)
    ensures l0Starts == Smallests(L0Tables(input)) && l0Ends == Largests(L0Tables(input))
  {
    l0Bytes, startBytes, fanInBytes, l0Starts, l0Ends := 0, 0, 0, [], [];
    for i := 0 to |input|
      invariant l0Bytes == PartBytes(input[..i], outputLevel, FromL0)
      invariant startBytes == PartBytes(input[..i], outputLevel, FromStart)
      invariant fanInBytes == PartBytes(input[..i], outputLevel, FanIn)
      invariant l0Starts == Smallests(L0Tables(input[..i])) && l0Ends == Largests(L0Tables(input[..i]))
    {
      assert input[..i + 1][..i] == input[..i];
      var l := input[i];
      var bytes := SumTables(l.tables);
      if l.level == 0 {
        l0Bytes := l0Bytes + bytes;
        l0Starts := l0Starts + Smallests(l.tables);
        l0Ends := l0Ends + Largests(l.tables);
      } else if l.level == outputLevel {
        fanInBytes := fanInBytes + bytes;
      } else {
        startBytes := startBytes + bytes;
      }
    }
    assert input[..|input|] == input;
  }

  method DepthOf(starts: seq<Key>, ends: seq<Key>) returns (depth: int)
    requires Ranges(starts, ends)
    ensures IsDepth(starts, ends, depth)
  {
    var ss := new Key[|starts|](i requires 0 <= i < |starts| => starts[i]);
    var es := new Key[|ends|](i requires 0 <= i < |ends| => ends[i]);
    assert ss[..] == starts && es[..] == ends;
    depth := OverlapDepth(ss, es);
  }

  /** What one recorded event says about the compaction it came from. */
  ghost predicate Describes(e: Event, info: CompactionInfo, levelBytes: seq<nat>)
    requires |levelBytes| == NUM_LEVELS
  {
    && e.kind == KindOf(info) && e.outputLevel == info.outputLevel && e.duration == info.duration
    && e.l0Bytes == PartBytes(info.input, info.outputLevel, FromL0)
    && e.startBytes == PartBytes(info.input, info.outputLevel, FromStart)
    && e.fanInBytes == PartBytes(info.input, info.outputLevel, FanIn)
    && e.outputBytes == TableBytes(info.output)
    && e.dstBytes == (if 0 <= info.outputLevel < NUM_LEVELS then levelBytes[info.outputLevel] else 0)
    && IsDepth(Smallests(L0Tables(info.input)), Largests(L0Tables(info.input)), e.sublevels)
  }

  /** Exactly one event is recorded, in one bucket; without a tracker nothing happens. */
  method RecordCompaction(t: CompactionTracker?, info: CompactionInfo)
    requires t != null ==> t.Valid()
    requires ProperTables(L0Tables(info.input))
    modifies if t == null then {} else {t}
    ensures t != null ==> t.Valid() && t.levelBytes == old(t.levelBytes)
    ensures t != null ==> exists e :: t.history == old(t.history) + [e] && Describes(e, info, t.levelBytes) &&
                                      Accounts(e, info)
  {
    if t == null {
      return;
    }
    var l0Bytes, startBytes, fanInBytes, l0Starts, l0Ends := SumParts(info.input, info.outputLevel);
    var outputBytes := SumTables(info.output);
    var kind := MOVE;
    if !HasSuffix(info.reason, "move") {
      kind := if info.outputLevel == 0 then INTRA_L0 else if l0Bytes > 0 then L0_LBASE else LBASE_PLUS;
    }
    var depth := DepthOf(l0Starts, l0Ends);
    t.Record(kind, info.outputLevel, l0Bytes, startBytes, fanInBytes, outputBytes, depth, info.duration);
    ghost var e := t.history[|t.history| - 1];
    assert t.history == old(t.history) + [e] && Describes(e, info, t.levelBytes);
    DescribedAccounts(e, info, t.levelBytes);
  }

  /**
   * Classification and bytes go together: the event's input bytes are all of the input, a drain
   * always read L0, an Lbase+ compaction never did, and compactions within L0 have no fan-in.
   */
  lemma DescribedEvent(e: Event, info: CompactionInfo, levelBytes: seq<nat>)
    requires |levelBytes| == NUM_LEVELS && Describes(e, info, levelBytes)
    ensures 0 <= e.kind < NUM_KINDS
    ensures e.l0Bytes + e.startBytes + e.fanInBytes == AllBytes(info.input)
    ensures e.kind == L0_LBASE ==> e.l0Bytes > 0
    ensures e.kind == LBASE_PLUS ==> e.l0Bytes == 0
    ensures e.kind == INTRA_L0 ==> e.fanInBytes == 0
    ensures (e.kind == L0_LBASE && e.startBytes == 0) || (e.kind == LBASE_PLUS && e.startBytes > 0) ==> OneSource(e)
  {
    PartsMakeInput(info.input, info.outputLevel);
    NoFanInIntoL0(info.input);
  }

  /**
   * The depth recorded for a compaction whose L0 input is a selection of L0's files, oldest first,
   * is at most the number of sublevels that selection occupies, and equals it exactly when the
   * selection holds a column through all of them. No other number is the depth of that input.
   */
  lemma RecordedDepth(e: Event, info: CompactionInfo, levelBytes: seq<nat>, files: seq<Placed>, sel: seq<nat>)
    requires |levelBytes| == NUM_LEVELS && Describes(e, info, levelBytes)
    requires Selection(files, sel) && |sel| == |L0Tables(info.input)|
    requires forall k :: 0 <= k < |sel| ==>
               files[sel[k]] == Placed(L0Tables(info.input)[k].smallest, L0Tables(info.input)[k].largest)
    ensures var a := Assignment(files);
            && e.sublevels <= |Used(a, Elements(sel))|
            && (e.sublevels == |Used(a, Elements(sel))| <==> exists t :: Column(files, a, sel, t))
            && forall d :: IsDepth(Lows(files, sel), Highs(files, sel), d) ==> d == e.sublevels
  {
    hide Compare, Sublevel, Cover, IsDepth;
    AssignmentIsLeastLayout(files);
    assert Lows(files, sel) == Smallests(L0Tables(info.input));
    assert Highs(files, sel) == Largests(L0Tables(info.input));
    DepthAtMostSublevels(files, Assignment(files), sel, e.sublevels);
    DepthIsSublevelsIffColumn(files, Assignment(files), sel, e.sublevels);
    forall d | IsDepth(Lows(files, sel), Highs(files, sel), d) ensures d == e.sublevels {
      DepthIsUnique(Lows(files, sel), Highs(files, sel), d, e.sublevels);
    }
  }

  // --- The same, told over the tables of the compaction: table j of input level i is slot (i, j).

  ghost function Slots(input: seq<LevelInfo>, from: int -> bool): set<(nat, nat)> {
    set i: nat, j: nat | i < |input| && j < |input[i].tables| && from(input[i].level) :: (i, j)
  }

  ghost function SlotSize(input: seq<LevelInfo>): ((nat, nat)) -> real {
    (s: (nat, nat)) => if s.0 < |input| && s.1 < |input[s.0].tables| then input[s.0].tables[s.1].size as real else 0.0
  }

  /** The slots of level i alone. */
  ghost function SlotsOf(input: seq<LevelInfo>, i: nat, n: nat): set<(nat, nat)> {
    set j: nat | j < n :: (i, j)
  }

  lemma {:induction false} LevelIsTotal(input: seq<LevelInfo>, i: nat, n: nat)
    requires i < |input| && n <= |input[i].tables|
    ensures TableBytes(input[i].tables[..n]) as real == Total(SlotsOf(input, i, n), SlotSize(input))
  {
    var ts := input[i].tables;
    if n == 0 {
      assert SlotsOf(input, i, 0) == {};
      TotalAdd<(nat, nat)>({}, (i, 0), SlotSize(input));
    } else {
      LevelIsTotal(input, i, n - 1);
      assert ts[..n][..n - 1] == ts[..n - 1];
      assert SlotsOf(input, i, n) == SlotsOf(input, i, n - 1) + {(i, n - 1)};
      TotalAdd<(nat, nat)>(SlotsOf(input, i, n - 1), (i, n - 1), SlotSize(input));
    }
  }

  lemma SlotsGrow(input: seq<LevelInfo>, from: int -> bool)
    requires input != []
    ensures var n := |input| - 1;
            var mine := SlotsOf(input, n, |input[n].tables|);
            && Slots(input, from) == Slots(input[..n], from) + (if from(input[n].level) then mine else {})
            && Slots(input[..n], from) !! mine
  {}

  /** The bytes of one part are those of the tables in the levels that play it. */
  lemma {:induction false} PartIsTotal(input: seq<LevelInfo>, outputLevel: int, part: Part, from: int -> bool)
    requires forall l :: from(l) <==> PartOf(l, outputLevel) == part
    ensures PartBytes(input, outputLevel, part) as real == Total(Slots(input, from), SlotSize(input))
  {
    hide Slots, SlotsOf, SlotSize, TableBytes;
    if input == [] {
      NoSlots(from);
    } else {
      var n := |input| - 1;
      var ts := input[n].tables;
      PartIsTotal(input[..n], outputLevel, part, from);
      SlotsGrow(input, from);
      LevelIsTotal(input, n, |ts|);
      assert ts[..|ts|] == ts;
      SameSizes(input, n, from);
      TotalUnion(Slots(input[..n], from), SlotsOf(input, n, |ts|), SlotSize(input));
      assert Slots(input[..n], from) + {} == Slots(input[..n], from);
    }
  }

  lemma NoSlots(from: int -> bool)
    ensures Slots([], from) == {} && Total({}, SlotSize([])) == 0.0
  {}

  lemma SameSizes(input: seq<LevelInfo>, n: nat, from: int -> bool)
    requires n <= |input|
    ensures Total(Slots(input[..n], from), SlotSize(input[..n])) == Total(Slots(input[..n], from), SlotSize(input))
  {
    TotalSame(Slots(input[..n], from), SlotSize(input[..n]), SlotSize(input));
  }

  function AtL0(): int -> bool {
    l => l == 0
  }

  function AtOutput(outputLevel: int): int -> bool {
    l => l != 0 && l == outputLevel
  }

  function Elsewhere(outputLevel: int): int -> bool {
    l => l != 0 && l != outputLevel
  }

  /** A reason that ends in "move" is how pebble marks a compaction that only relinked its input. */
  ghost predicate Relinked(info: CompactionInfo) {
    var r := info.reason;
    |r| >= 4 && r[|r| - 4] == 'm' && r[|r| - 3] == 'o' && r[|r| - 2] == 'v' && r[|r| - 1] == 'e'
  }

  ghost predicate ReadsL0(info: CompactionInfo) {
    exists s :: s in Slots(info.input, AtL0()) && SlotSize(info.input)(s) > 0.0
  }

  /** The tables of L0 in the input whose range has x. */
  ghost function SlotsOver(input: seq<LevelInfo>, x: Key): set<(nat, nat)> {
    set i: nat, j: nat | i < |input| && j < |input[i].tables| && input[i].level == 0 &&
      Le(input[i].tables[j].smallest, x) && Le(x, input[i].tables[j].largest) :: (i, j)
  }

  /**
   * Moves first (3), then by whether the output stays in L0 (2), then by whether L0 was read: 0 for a
   * drain of L0, 1 below. The input splits into L0's bytes, the bytes already in the output level,
   * and the rest; the depth is the most L0 tables that have any one key.
   */
  ghost predicate Accounts(e: Event, info: CompactionInfo) {
    var out := info.outputLevel;
    && e.kind == (if Relinked(info) then 3 else if out == 0 then 2 else if ReadsL0(info) then 0 else 1)
    && e.l0Bytes as real == Total(Slots(info.input, AtL0()), SlotSize(info.input))
    && e.fanInBytes as real == Total(Slots(info.input, AtOutput(out)), SlotSize(info.input))
    && e.startBytes as real == Total(Slots(info.input, Elsewhere(out)), SlotSize(info.input))
    && (forall x :: |SlotsOver(info.input, x)| <= e.sublevels)
    && (exists x :: |SlotsOver(info.input, x)| == e.sublevels)
  }

  lemma {:induction false} CoverConcat(a: seq<Key>, b: seq<Key>, c: seq<Key>, d: seq<Key>, x: Key)
    requires |a| == |b| && |c| == |d|
    ensures Cover(a + c, b + d, x) == Cover(a, b, x) + Cover(c, d, x)
  {
    if a == [] {
      assert a + c == c && b + d == d;
    } else {
      CoverConcat(a[1..], b[1..], c, d, x);
      assert (a + c)[1..] == a[1..] + c && (b + d)[1..] == b[1..] + d;
    }
  }

  /** Those of level i's first n tables that have x. */
  ghost function LevelOver(input: seq<LevelInfo>, i: nat, n: nat, x: Key): set<(nat, nat)>
    requires i < |input| && n <= |input[i].tables|
  {
    set j: nat | j < n && Le(input[i].tables[j].smallest, x) && Le(x, input[i].tables[j].largest) :: (i, j)
  }

  lemma {:induction false} LevelCover(input: seq<LevelInfo>, i: nat, n: nat, x: Key)
    requires i < |input| && n <= |input[i].tables|
    ensures var ts := input[i].tables[..n];
            Cover(Smallests(ts), Largests(ts), x) == |LevelOver(input, i, n, x)|
  {
    hide Compare;
    if n == 0 {
      assert LevelOver(input, i, 0, x) == {};
    } else {
      var ts, t := input[i].tables[..n - 1], input[i].tables[n - 1];
      LevelCover(input, i, n - 1, x);
      CoverConcat(Smallests(ts), Largests(ts), [t.smallest], [t.largest], x);
      assert Smallests(input[i].tables[..n]) == Smallests(ts) + [t.smallest];
      assert Largests(input[i].tables[..n]) == Largests(ts) + [t.largest];
      var here := Le(t.smallest, x) && Le(x, t.largest);
      CoverOne(t.smallest, t.largest, x);
      assert LevelOver(input, i, n, x) == LevelOver(input, i, n - 1, x) + if here then {(i, n - 1)} else {};
      assert (i, n - 1) !in LevelOver(input, i, n - 1, x);
    }
  }

  lemma CoverOne(lo: Key, hi: Key, x: Key)
    ensures Cover([lo], [hi], x) == if Le(lo, x) && Le(x, hi) then 1 else 0
  {
    assert [lo][1..] == [] && [hi][1..] == [];
  }

  lemma OverGrows(input: seq<LevelInfo>, x: Key)
    requires input != []
    ensures var n := |input| - 1;
            var mine := LevelOver(input, n, |input[n].tables|, x);
            && SlotsOver(input, x) == SlotsOver(input[..n], x) + (if input[n].level == 0 then mine else {})
            && SlotsOver(input[..n], x) !! mine
  {
    hide Compare;
  }

  /** The ranges handed to the depth sweep are those of the input's L0 tables. */
  lemma {:induction false} CoverIsSlots(input: seq<LevelInfo>, x: Key)
    ensures Cover(Smallests(L0Tables(input)), Largests(L0Tables(input)), x) == |SlotsOver(input, x)|
  {
    hide Cover, SlotsOver, LevelOver;
    if input == [] {
      NothingOver(x);
    } else {
      var n := |input| - 1;
      var before, ts := L0Tables(input[..n]), input[n].tables;
      CoverIsSlots(input[..n], x);
      OverGrows(input, x);
      if input[n].level == 0 {
        LevelCover(input, n, |ts|, x);
        assert ts[..|ts|] == ts;
        CoverConcat(Smallests(before), Largests(before), Smallests(ts), Largests(ts), x);
        assert Smallests(before + ts) == Smallests(before) + Smallests(ts);
        assert Largests(before + ts) == Largests(before) + Largests(ts);
      } else {
        assert L0Tables(input) == before && SlotsOver(input, x) == SlotsOver(input[..n], x);
      }
    }
  }

  lemma NothingOver(x: Key)
    ensures Cover(Smallests(L0Tables([])), Largests(L0Tables([])), x) == |SlotsOver([], x)|
  {
    assert SlotsOver([], x) == {};
  }

  /** What is recorded is what the compaction's own fields say. */
  lemma DescribedAccounts(e: Event, info: CompactionInfo, levelBytes: seq<nat>)
    requires |levelBytes| == NUM_LEVELS && Describes(e, info, levelBytes)
    ensures Accounts(e, info)
  {
    hide Slots, SlotSize, SlotsOver, PartBytes, Cover, TableBytes, Total;
    var out := info.outputLevel;
    PartIsTotal(info.input, out, FromL0, AtL0());
    PartIsTotal(info.input, out, FanIn, AtOutput(out));
    PartIsTotal(info.input, out, FromStart, Elsewhere(out));
    SizesNonNegative(info.input);
    TotalPositive(Slots(info.input, AtL0()), SlotSize(info.input));
    MoveSuffix(info);
    forall x ensures Cover(Smallests(L0Tables(info.input)), Largests(L0Tables(info.input)), x)
                     == |SlotsOver(info.input, x)|
    {
      CoverIsSlots(info.input, x);
    }
  }

  lemma SizesNonNegative(input: seq<LevelInfo>)
    ensures forall s :: SlotSize(input)(s) >= 0.0
  {}

  lemma MoveSuffix(info: CompactionInfo)
    ensures HasSuffix(info.reason, "move") <==> Relinked(info)
  {
    var r := info.reason;
    if |r| >= 4 {
      var t := r[|r| - 4..];
      assert t == [t[0], t[1], t[2], t[3]];
    }
  }
}
