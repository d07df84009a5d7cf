// v2L0Sublevels of db/pebble_v2.go: rebuild L0's sublevels from the tables' key ranges.
module Reconstruction {
  import opened Keys
  import opened Numbers
  import opened Sequences
  import opened Sublevels
  import opened KeyFractions

  /** The fields of pebble's SSTableInfo that are read. */
  datatype TableInfo = TableInfo(smallest: Key, largest: Key, size: nat,
                                 smallestSeqNum: nat, largestSeqNum: nat, fileNum: nat)

  datatype SublevelStat = SublevelStat(sublevel: nat, files: nat, size: nat, span: real)

  function Bounds(f: TableInfo): Placed {
    Placed(f.smallest, f.largest)
  }

  function Placements(files: seq<TableInfo>): (ps: seq<Placed>)
    ensures |ps| == |files|
  {
    seq(|files|, i requires 0 <= i < |files| => Bounds(files[i]))
  }

  /** Oldest first: by largest, then smallest sequence number, then file number. */
  predicate OlderOrSame(a: TableInfo, b: TableInfo) {
    if a.largestSeqNum != b.largestSeqNum then a.largestSeqNum < b.largestSeqNum
    else if a.smallestSeqNum != b.smallestSeqNum then a.smallestSeqNum < b.smallestSeqNum
    else a.fileNum <= b.fileNum
  }

  ghost predicate InAgeOrder(files: seq<TableInfo>) {
    forall i, j :: 0 <= i < j < |files| ==> OlderOrSame(files[i], files[j])
  }

  function ByAge(): (TableInfo, TableInfo) -> bool {
    (a, b) => OlderOrSame(a, b)
  }

  lemma SortedByAge(files: seq<TableInfo>)
    ensures multiset(SortBy(ByAge(), files)) == multiset(files) && InAgeOrder(SortBy(ByAge(), files))
    ensures |SortBy(ByAge(), files)| == |files|
  {
    SortByCorrect(ByAge(), files);
    assert |multiset(SortBy(ByAge(), files))| == |SortBy(ByAge(), files)| && |multiset(files)| == |files|;
  }

  /** slices.SortFunc: the same tables, oldest first. */
  function OldestFirst(files: seq<TableInfo>): (r: seq<TableInfo>)
    ensures multiset(r) == multiset(files) && |r| == |files|
    ensures forall i, j :: 0 <= i < j < |r| ==>
              && r[i].largestSeqNum <= r[j].largestSeqNum
              && (r[i].largestSeqNum == r[j].largestSeqNum ==>
                    && r[i].smallestSeqNum <= r[j].smallestSeqNum
                    && (r[i].smallestSeqNum == r[j].smallestSeqNum ==> r[i].fileNum <= r[j].fileNum))
  {
    SortedByAge(files);
    SortBy(ByAge(), files)
  }

  /** File numbers being unique, the order pebble lists the tables in does not matter. */
  lemma OldestFirstIgnoresListing(a: seq<TableInfo>, b: seq<TableInfo>)
    requires multiset(a) == multiset(b)
    requires forall x, y :: x in a && y in a && x.fileNum == y.fileNum ==> x == y
    ensures OldestFirst(a) == OldestFirst(b)
  {
    hide SortBy;
    var r, t := OldestFirst(a), OldestFirst(b);
    forall x | x in r ensures x in a {
      assert x in multiset(r);
    }
    SortedIsUnique(ByAge(), r, t);
  }

  // --- The parts of L0 placed so far, where file i has sublevel a[i].

  /** The files of sublevel s among the oldest n, in order of age. */
  ghost function Members(ps: seq<Placed>, a: seq<nat>, n: nat, s: nat): seq<Placed>
    requires n <= |ps| == |a|
  {
    if n == 0 then [] else Members(ps, a, n - 1, s) + (if a[n - 1] == s then [ps[n - 1]] else [])
  }

  ghost function SizeOf(files: seq<TableInfo>, a: seq<nat>, n: nat, s: nat): nat
    requires n <= |files| == |a|
  {
    if n == 0 then 0 else SizeOf(files, a, n - 1, s) + (if a[n - 1] == s then files[n - 1].size else 0)
  }

  lemma {:induction false} InMembers(ps: seq<Placed>, a: seq<nat>, n: nat, s: nat, q: Placed)
    requires n <= |ps| == |a|
    ensures q in Members(ps, a, n, s) <==> exists j :: 0 <= j < n && ps[j] == q && a[j] == s
  {
    if n > 0 {
      InMembers(ps, a, n - 1, s, q);
    }
  }

  lemma {:induction false} NothingAbove(files: seq<TableInfo>, ps: seq<Placed>, a: seq<nat>, n: nat, s: nat)
    requires n <= |ps| == |a| == |files| && s >= Height(a, n)
    ensures Members(ps, a, n, s) == [] && SizeOf(files, a, n, s) == 0
  {
    if n > 0 {
      NothingAbove(files, ps, a, n - 1, s);
    }
  }

  lemma MembersStep(ps: seq<Placed>, a: seq<nat>, n: nat, s: nat)
    requires n < |ps| == |a|
    ensures multiset(Members(ps, a, n + 1, s)) ==
            multiset(Members(ps, a, n, s)) + (if a[n] == s then multiset{ps[n]} else multiset{})
  {}

  ghost function Together(levels: seq<seq<Placed>>): multiset<Placed> {
    if levels == [] then multiset{} else multiset(levels[0]) + Together(levels[1..])
  }

  ghost function MembersFrom(ps: seq<Placed>, a: seq<nat>, n: nat, s: nat, h: nat): multiset<Placed>
    requires n <= |ps| == |a|
    decreases h - s
  {
    if s >= h then multiset{} else multiset(Members(ps, a, n, s)) + MembersFrom(ps, a, n, s + 1, h)
  }

  lemma MembersFromUnfolds(ps: seq<Placed>, a: seq<nat>, n: nat, s: nat, h: nat)
    requires n <= |ps| == |a|
    ensures MembersFrom(ps, a, n, s, h) ==
            if s >= h then multiset{} else multiset(Members(ps, a, n, s)) + MembersFrom(ps, a, n, s + 1, h)
  {}

  lemma {:induction false} MembersFromStep(ps: seq<Placed>, a: seq<nat>, n: nat, s: nat, h: nat)
    requires n < |ps| == |a| && a[n] < h
    ensures MembersFrom(ps, a, n + 1, s, h) ==
            MembersFrom(ps, a, n, s, h) + (if a[n] >= s then multiset{ps[n]} else multiset{})
    decreases h - s
  {
    hide Members, MembersFrom;
    MembersFromUnfolds(ps, a, n, s, h);
    MembersFromUnfolds(ps, a, n + 1, s, h);
    if s < h {
      MembersStep(ps, a, n, s);
      MembersFromStep(ps, a, n, s + 1, h);
    }
  }

  lemma {:induction false} MembersPartition(ps: seq<Placed>, a: seq<nat>, n: nat, h: nat)
    requires n <= |ps| == |a| && h >= Height(a, n)
    ensures MembersFrom(ps, a, n, 0, h) == multiset(ps[..n])
  {
    hide MembersFrom;
    if n == 0 {
      NoMembersFrom(ps, a, 0, h);
    } else {
      MembersPartition(ps, a, n - 1, h);
      MembersFromStep(ps, a, n - 1, 0, h);
      assert ps[..n] == ps[..n - 1] + [ps[n - 1]];
    }
  }

  lemma {:induction false} NoMembersFrom(ps: seq<Placed>, a: seq<nat>, s: nat, h: nat)
    requires |ps| == |a|
    ensures MembersFrom(ps, a, 0, s, h) == multiset{}
    decreases h - s
  {
    if s < h {
      NoMembersFrom(ps, a, s + 1, h);
    }
  }

  // --- The invariant.

  ghost predicate LevelRebuilt(files: seq<TableInfo>, a: seq<nat>, n: nat, s: nat,
                               level: seq<Placed>, stat: SublevelStat)
    requires n <= |files| == |a|
  {
    && Tiled(level)
    && multiset(level) == multiset(Members(Placements(files), a, n, s))
    && stat == SublevelStat(s, |level|, SizeOf(files, a, n, s), 0.0)
  }

  /** What the reconstruction maintains after placing the oldest n files. */
  ghost predicate Rebuilt(files: seq<TableInfo>, a: seq<nat>, n: nat,
                          levels: seq<seq<Placed>>, stats: seq<SublevelStat>)
  {
    && n <= |files| == |a|
    && |levels| == |stats| == Height(a, n)
    && forall s :: 0 <= s < |levels| ==> LevelRebuilt(files, a, n, s, levels[s], stats[s])
  }

  ghost predicate OverlapsAny(ps: seq<Placed>, p: Placed) {
    exists k :: 0 <= k < |ps| && Overlap(ps[k], p)
  }

  ghost predicate RestsOn(above: seq<Placed>, below: seq<Placed>) {
    forall i :: 0 <= i < |above| ==> OverlapsAny(below, above[i])
  }

  /** Every file above sublevel 0 overlaps one directly below it. */
  ghost predicate Stacked(levels: seq<seq<Placed>>) {
    forall s, t :: 0 <= s < |levels| && 0 <= t < |levels| && t == s + 1 ==> RestsOn(levels[t], levels[s])
  }

  lemma InLevel(files: seq<TableInfo>, a: seq<nat>, n: nat,
                levels: seq<seq<Placed>>, stats: seq<SublevelStat>, s: nat, q: Placed)
    requires Rebuilt(files, a, n, levels, stats) && s < |levels|
    ensures q in levels[s] <==> exists j :: 0 <= j < n && Placements(files)[j] == q && a[j] == s
  {
    var ps := Placements(files);
    InMembers(ps, a, n, s, q);
    assert LevelRebuilt(files, a, n, s, levels[s], stats[s]);
    assert q in multiset(levels[s]) <==> q in multiset(Members(ps, a, n, s));
  }

  lemma MemberRests(files: seq<TableInfo>, a: seq<nat>, n: nat,
                    levels: seq<seq<Placed>>, stats: seq<SublevelStat>, s: nat, p: Placed)
    requires Rebuilt(files, a, n, levels, stats) && a == Assignment(Placements(files))
    requires 0 < s < |levels| && p in levels[s]
    ensures OverlapsAny(levels[s - 1], p)
  {
    var ps := Placements(files);
    InLevel(files, a, n, levels, stats, s, p);
    var k :| 0 <= k < n && ps[k] == p && a[k] == s;
    AboveOlderBounds(ps, k, k);
    var o :| 0 <= o < k && Overlap(ps[o], ps[k]) && Sublevel(ps, o) + 1 == Sublevel(ps, k);
    assert a[o] == s - 1;
    InLevel(files, a, n, levels, stats, s - 1, ps[o]);
  }

  lemma RebuiltIsStacked(files: seq<TableInfo>, a: seq<nat>, n: nat,
                         levels: seq<seq<Placed>>, stats: seq<SublevelStat>)
    requires Rebuilt(files, a, n, levels, stats) && a == Assignment(Placements(files))
    ensures Stacked(levels)
  {
    forall s, t | 0 <= s < |levels| && 0 <= t < |levels| && t == s + 1 ensures RestsOn(levels[t], levels[s]) {
      forall i | 0 <= i < |levels[t]| ensures OverlapsAny(levels[s], levels[t][i]) {
        MemberRests(files, a, n, levels, stats, t, levels[t][i]);
      }
    }
  }

  /** There are no gaps: every sublevel up to the highest holds a file. */
  lemma {:induction false} NoSublevelEmpty(files: seq<TableInfo>, a: seq<nat>, n: nat,
                                           levels: seq<seq<Placed>>, stats: seq<SublevelStat>, s: nat)
    requires Rebuilt(files, a, n, levels, stats) && a == Assignment(Placements(files))
    requires s < |levels|
    ensures levels[s] != []
    decreases |levels| - s
  {
    hide LevelRebuilt, Compare, Sublevel, Placements;
    if s + 1 == |levels| {
      HeightBounds(a, n);
      var i :| 0 <= i < n && a[i] + 1 == |levels|;
      InLevel(files, a, n, levels, stats, s, Placements(files)[i]);
    } else {
      NoSublevelEmpty(files, a, n, levels, stats, s + 1);
      MemberRests(files, a, n, levels, stats, s + 1, levels[s + 1][0]);
    }
  }

  lemma {:induction false} TogetherIsMembers(ps: seq<Placed>, a: seq<nat>, n: nat,
                                             levels: seq<seq<Placed>>, s: nat, h: nat)
    requires n <= |ps| == |a| && s <= h && |levels| == h - s
    requires forall t :: 0 <= t < |levels| ==> multiset(levels[t]) == multiset(Members(ps, a, n, s + t))
    ensures Together(levels) == MembersFrom(ps, a, n, s, h)
    decreases h - s
  {
    if s < h {
      assert levels[0] == levels[1 - 1];
      forall t | 0 <= t < |levels[1..]|
        ensures multiset(levels[1..][t]) == multiset(Members(ps, a, n, s + 1 + t))
      {
        assert levels[1..][t] == levels[t + 1];
      }
      TogetherIsMembers(ps, a, n, levels[1..], s + 1, h);
    }
  }

  /** The sublevels together hold exactly the files placed, each as often as it was listed. */
  lemma RebuiltHoldsAll(files: seq<TableInfo>, a: seq<nat>, n: nat,
                        levels: seq<seq<Placed>>, stats: seq<SublevelStat>)
    requires Rebuilt(files, a, n, levels, stats)
    ensures Together(levels) == multiset(Placements(files)[..n])
  {
    var ps := Placements(files);
    forall t | 0 <= t < |levels| ensures multiset(levels[t]) == multiset(Members(ps, a, n, 0 + t)) {
      assert LevelRebuilt(files, a, n, t, levels[t], stats[t]);
    }
    TogetherIsMembers(ps, a, n, levels, 0, |levels|);
    MembersPartition(ps, a, n, |levels|);
  }

  /** Bytes of the sublevels from s up to h. */
  ghost function SizeFrom(files: seq<TableInfo>, a: seq<nat>, n: nat, s: nat, h: nat): nat
    requires n <= |files| == |a|
    decreases h - s
  {
    if s >= h then 0 else SizeOf(files, a, n, s) + SizeFrom(files, a, n, s + 1, h)
  }

  ghost function TotalSize(files: seq<TableInfo>, n: nat): nat
    requires n <= |files|
  {
    if n == 0 then 0 else TotalSize(files, n - 1) + files[n - 1].size
  }

  lemma {:induction false} SizeFromStep(files: seq<TableInfo>, a: seq<nat>, n: nat, s: nat, h: nat)
    requires n < |files| == |a| && a[n] < h
    ensures SizeFrom(files, a, n + 1, s, h) == SizeFrom(files, a, n, s, h) + if a[n] >= s then files[n].size else 0
    decreases h - s
  {
    if s < h {
      SizeFromStep(files, a, n, s + 1, h);
    }
  }

  lemma {:induction false} NoSizeFrom(files: seq<TableInfo>, a: seq<nat>, s: nat, h: nat)
    requires |files| == |a|
    ensures SizeFrom(files, a, 0, s, h) == 0
    decreases h - s
  {
    if s < h {
      NoSizeFrom(files, a, s + 1, h);
    }
  }

  lemma {:induction false} SizesPartition(files: seq<TableInfo>, a: seq<nat>, n: nat, h: nat)
    requires n <= |files| == |a| && h >= Height(a, n)
    ensures SizeFrom(files, a, n, 0, h) == TotalSize(files, n)
  {
    hide SizeFrom;
    if n == 0 {
      NoSizeFrom(files, a, 0, h);
    } else {
      SizesPartition(files, a, n - 1, h);
      SizeFromStep(files, a, n - 1, 0, h);
    }
  }

  ghost function FileCounts(stats: seq<SublevelStat>): seq<int> {
    seq(|stats|, s requires 0 <= s < |stats| => stats[s].files)
  }

  ghost function FileSizes(stats: seq<SublevelStat>): seq<int> {
    seq(|stats|, s requires 0 <= s < |stats| => stats[s].size)
  }

  lemma {:induction false} CountsAreTogether(levels: seq<seq<Placed>>, stats: seq<SublevelStat>)
    requires |levels| == |stats| && forall s :: 0 <= s < |stats| ==> stats[s].files == |levels[s]|
    ensures Sum(FileCounts(stats)) == |Together(levels)|
  {
    if levels != [] {
      CountsAreTogether(levels[1..], stats[1..]);
      assert FileCounts(stats)[1..] == FileCounts(stats[1..]);
    }
  }

  lemma {:induction false} SizesAreSummed(files: seq<TableInfo>, a: seq<nat>, n: nat,
                                          stats: seq<SublevelStat>, s: nat, h: nat)
    requires n <= |files| == |a| && s <= h && |stats| == h - s
    requires forall t :: 0 <= t < |stats| ==> stats[t].size == SizeOf(files, a, n, s + t)
    ensures Sum(FileSizes(stats)) == SizeFrom(files, a, n, s, h)
    decreases h - s
  {
    hide SizeOf;
    if s < h {
      forall t | 0 <= t < |stats[1..]| ensures stats[1..][t].size == SizeOf(files, a, n, s + 1 + t) {
        assert stats[1..][t] == stats[t + 1];
      }
      SizesAreSummed(files, a, n, stats[1..], s + 1, h);
      assert FileSizes(stats)[1..] == FileSizes(stats[1..]);
      assert stats[0].size == SizeOf(files, a, n, s + 0);
    }
  }

  /** The sublevels' file counts and sizes add up to those of the files placed. */
  lemma StatsConserve(files: seq<TableInfo>, a: seq<nat>, n: nat,
                      levels: seq<seq<Placed>>, stats: seq<SublevelStat>)
    requires Rebuilt(files, a, n, levels, stats)
    ensures Sum(FileCounts(stats)) == n && Sum(FileSizes(stats)) == TotalSize(files, n)
  {
    forall s | 0 <= s < |stats| ensures LevelRebuilt(files, a, n, s, levels[s], stats[s]) {}
    hide Sum, SizeOf, Members, Tiled;
    RebuiltHoldsAll(files, a, n, levels, stats);
    CountsAreTogether(levels, stats);
    SizesAreSummed(files, a, n, stats, 0, |stats|);
    SizesPartition(files, a, n, |stats|);
  }

  // --- Binary search and the overlap test.

  /** slices.BinarySearchFunc on lower bounds: the first file starting at or after k. */
  method FirstAtOrAfter(ps: seq<Placed>, k: Key) returns (i: nat)
    requires Tiled(ps)
    ensures i <= |ps|
    ensures forall j :: 0 <= j < i ==> Lt(ps[j].lo, k)
    ensures forall j :: i <= j < |ps| ==> Le(k, ps[j].lo)
  {
    i := 0;
    var j := |ps|;
    while i < j
      invariant 0 <= i <= j <= |ps|
      invariant forall l :: 0 <= l < i ==> Lt(ps[l].lo, k)
      invariant forall l :: j <= l < |ps| ==> Le(k, ps[l].lo)
    {
      var h := (i + j) / 2;
      StartsRise(ps, h);
      TotalOrder();
      if Lt(ps[h].lo, k) {
        i := h + 1;
      } else {
        j := h;
      }
    }
  }

  lemma StartsRise(ps: seq<Placed>, h: nat)
    requires Tiled(ps) && h < |ps|
    ensures forall l :: 0 <= l < h ==> Le(ps[l].lo, ps[h].lo)
    ensures forall l :: h <= l < |ps| ==> Le(ps[h].lo, ps[l].lo)
  {
    TotalOrder();
  }

  lemma EndsBefore(ps: seq<Placed>, p: Placed, k: nat, i: nat)
    requires Tiled(ps) && k < i < |ps| && Lt(ps[i].lo, p.lo)
    ensures !Overlap(ps[k], p)
  {
    TotalOrder();
    assert Lt(ps[k].hi, ps[i].lo);
  }

  /** Two candidates decide the overlap test: the file starting at or after lo, and the one before. */
  lemma TwoCandidates(ps: seq<Placed>, p: Placed, i: nat)
    requires Tiled(ps) && i <= |ps| && Le(p.lo, p.hi)
    requires forall j :: 0 <= j < i ==> Lt(ps[j].lo, p.lo)
    requires forall j :: i <= j < |ps| ==> Le(p.lo, ps[j].lo)
    ensures OverlapsAny(ps, p) <==>
            (i < |ps| && Le(ps[i].lo, p.hi)) || (i > 0 && Le(p.lo, ps[i - 1].hi))
  {
    forall k | 0 <= k < i - 1 ensures !Overlap(ps[k], p) {
      EndsBefore(ps, p, k, i - 1);
    }
    TotalOrder();
    if i < |ps| && Le(ps[i].lo, p.hi) {
      assert Overlap(ps[i], p);
    }
    if i > 0 && Le(p.lo, ps[i - 1].hi) {
      assert Overlap(ps[i - 1], p);
    }
    if k :| 0 <= k < |ps| && Overlap(ps[k], p) {
      assert k > i ==> Lt(ps[i].hi, ps[k].lo);
    }
  }

  method Overlaps(ps: seq<Placed>, lo: Key, hi: Key) returns (b: bool)
    requires Tiled(ps) && Le(lo, hi)
    ensures b <==> OverlapsAny(ps, Placed(lo, hi))
  {
    var i := FirstAtOrAfter(ps, lo);
    TwoCandidates(ps, Placed(lo, hi), i);
    if i < |ps| && Le(ps[i].lo, hi) {
      return true;
    }
    return i > 0 && Le(lo, ps[i - 1].hi);
  }

  /** The sublevel one above the highest level with an overlap, scanning from the top. */
  method ChooseSublevel(levels: seq<seq<Placed>>, p: Placed) returns (sub: nat)
    requires Le(p.lo, p.hi) && forall s :: 0 <= s < |levels| ==> Tiled(levels[s])
    ensures sub <= |levels|
    ensures forall s :: sub <= s < |levels| ==> !OverlapsAny(levels[s], p)
    ensures sub > 0 ==> OverlapsAny(levels[sub - 1], p)
  {
    sub := 0;
    var s := |levels|;
    while s > 0
      invariant 0 <= s <= |levels|
      invariant forall t :: s <= t < |levels| ==> !OverlapsAny(levels[t], p)
    {
      s := s - 1;
      var b := Overlaps(levels[s], p.lo, p.hi);
      if b {
        return s + 1;
      }
    }
  }

  lemma OlderOverlapsLieBelow(files: seq<TableInfo>, a: seq<nat>, n: nat,
                              levels: seq<seq<Placed>>, stats: seq<SublevelStat>, sub: nat, j: nat)
    requires Rebuilt(files, a, n, levels, stats) && j < n < |files|
    requires Overlap(Placements(files)[j], Bounds(files[n]))
    requires forall s :: sub <= s < |levels| ==> !OverlapsAny(levels[s], Bounds(files[n]))
    ensures a[j] < sub
  {
    var p := Placements(files)[j];
    HeightBounds(a, n);
    InLevel(files, a, n, levels, stats, a[j], p);
    var k :| 0 <= k < |levels[a[j]]| && levels[a[j]][k] == p;
    assert OverlapsAny(levels[a[j]], Bounds(files[n]));
  }

  /** The scan finds the file's sublevel as longest chains define it. */
  lemma ChosenIsSublevel(files: seq<TableInfo>, a: seq<nat>, n: nat,
                         levels: seq<seq<Placed>>, stats: seq<SublevelStat>, sub: nat)
    requires Rebuilt(files, a, n, levels, stats) && n < |files| && sub <= |levels|
    requires a == Assignment(Placements(files))
    requires forall s :: sub <= s < |levels| ==> !OverlapsAny(levels[s], Bounds(files[n]))
    requires sub > 0 ==> OverlapsAny(levels[sub - 1], Bounds(files[n]))
    ensures a[n] == sub
  {
    hide Compare, AboveOlder, LevelRebuilt;
    var ps := Placements(files);
    forall j | 0 <= j < n && Overlap(ps[j], ps[n]) ensures Sublevel(ps, j) < sub {
      OlderOverlapsLieBelow(files, a, n, levels, stats, sub, j);
      assert a[j] == Sublevel(ps, j);
    }
    if sub > 0 {
      var k :| 0 <= k < |levels[sub - 1]| && Overlap(levels[sub - 1][k], ps[n]);
      InLevel(files, a, n, levels, stats, sub - 1, levels[sub - 1][k]);
      var j :| 0 <= j < n && ps[j] == levels[sub - 1][k] && a[j] == sub - 1;
      assert Sublevel(ps, j) + 1 == sub;
    }
    SublevelIsOneAboveHighest(ps, n, sub);
  }

  lemma InsertKeepsTiled(ps: seq<Placed>, p: Placed, i: nat)
    requires Tiled(ps) && i <= |ps| && Le(p.lo, p.hi) && !OverlapsAny(ps, p)
    requires forall j :: 0 <= j < i ==> Lt(ps[j].lo, p.lo)
    requires forall j :: i <= j < |ps| ==> Le(p.lo, ps[j].lo)
    ensures Tiled(ps[..i] + [p] + ps[i..])
  {
    forall j | 0 <= j < |ps|
      ensures j < i ==> Lt(ps[j].hi, p.lo)
      ensures j >= i ==> Lt(p.hi, ps[j].lo)
    {
      assert !Overlap(ps[j], p);
      TotalOrder();
    }
  }

  lemma InsertedMultiset(ps: seq<Placed>, p: Placed, i: nat)
    requires i <= |ps|
    ensures multiset(ps[..i] + [p] + ps[i..]) == multiset(ps) + multiset{p}
  {
    assert ps == ps[..i] + ps[i..];
  }

  /** slices.Insert at the searched position. */
  method Place(ps: seq<Placed>, p: Placed) returns (r: seq<Placed>)
    requires Tiled(ps) && Le(p.lo, p.hi) && !OverlapsAny(ps, p)
    ensures Tiled(r) && |r| == |ps| + 1 && multiset(r) == multiset(ps) + multiset{p}
  {
    hide Compare;
    var i := FirstAtOrAfter(ps, p.lo);
    InsertKeepsTiled(ps, p, i);
    r := ps[..i] + [p] + ps[i..];
    InsertedMultiset(ps, p, i);
  }

  /** lo and hi are the hull of the first n ranges, absent when there are none. */
  ghost predicate Hull(ps: seq<Placed>, n: nat, lo: Key, hi: Key)
    requires n <= |ps|
  {
    && (forall i :: 0 <= i < n ==> Le(lo, ps[i].lo) && Le(ps[i].hi, hi))
    && (n > 0 ==> (exists i :: 0 <= i < n && ps[i].lo == lo) && (exists i :: 0 <= i < n && ps[i].hi == hi))
  }

  lemma HullStep(ps: seq<Placed>, n: nat, lo: Key, hi: Key)
    requires n < |ps| && Proper(ps) && Hull(ps, n, lo, hi)
    ensures Hull(ps, n + 1, if n == 0 || Lt(ps[n].lo, lo) then ps[n].lo else lo,
                 if n == 0 || Lt(hi, ps[n].hi) then ps[n].hi else hi)
  {
    TotalOrder();
    assert ps[n].lo == ps[n].lo && ps[n].hi == ps[n].hi;
  }

  lemma LevelStep(files: seq<TableInfo>, a: seq<nat>, n: nat, s: nat)
    requires n < |files| == |a|
    ensures multiset(Members(Placements(files), a, n + 1, s)) ==
            multiset(Members(Placements(files), a, n, s)) +
            (if a[n] == s then multiset{Bounds(files[n])} else multiset{})
    ensures SizeOf(files, a, n + 1, s) == SizeOf(files, a, n, s) + (if a[n] == s then files[n].size else 0)
  {
    MembersStep(Placements(files), a, n, s);
  }

  lemma LevelGrows(files: seq<TableInfo>, a: seq<nat>, n: nat, s: nat,
                   level: seq<Placed>, stat: SublevelStat, level': seq<Placed>)
    requires n < |files| == |a| && a[n] == s && LevelRebuilt(files, a, n, s, level, stat)
    requires Tiled(level') && multiset(level') == multiset(level) + multiset{Bounds(files[n])}
    requires |level'| == |level| + 1
    ensures LevelRebuilt(files, a, n + 1, s, level',
                         stat.(files := stat.files + 1, size := stat.size + files[n].size))
  {
    LevelStep(files, a, n, s);
  }

  /** Adding the next file to its sublevel, and to that sublevel's figures, keeps the invariant. */
  lemma PlacedStep(files: seq<TableInfo>, a: seq<nat>, n: nat,
                   levels: seq<seq<Placed>>, stats: seq<SublevelStat>,
                   levels': seq<seq<Placed>>, stats': seq<SublevelStat>)
    requires Rebuilt(files, a, n, levels, stats) && n < |files| && a[n] <= |levels|
    requires |levels'| == |stats'| == Max(|levels|, a[n] + 1)
    requires forall s :: 0 <= s < |levels| && s != a[n] ==> levels'[s] == levels[s] && stats'[s] == stats[s]
    requires LevelRebuilt(files, a, n + 1, a[n], levels'[a[n]], stats'[a[n]])
    ensures Rebuilt(files, a, n + 1, levels', stats')
  {
    forall s | 0 <= s < |levels'| ensures LevelRebuilt(files, a, n + 1, s, levels'[s], stats'[s]) {
      if s != a[n] {
        assert LevelRebuilt(files, a, n, s, levels[s], stats[s]);
        LevelStep(files, a, n, s);
      }
    }
  }

  /** Opening the next sublevel, empty, when the file goes above all the others. */
  lemma OpenLevel(files: seq<TableInfo>, a: seq<nat>, n: nat, sub: nat)
    requires n <= |files| == |a| && sub >= Height(a, n)
    ensures LevelRebuilt(files, a, n, sub, [], SublevelStat(sub, 0, 0, 0.0))
  {
    NothingAbove(files, Placements(files), a, n, sub);
  }

  ghost function LevelOr(levels: seq<seq<Placed>>, s: nat): seq<Placed> {
    if s < |levels| then levels[s] else []
  }

  ghost function StatOr(stats: seq<SublevelStat>, s: nat): SublevelStat {
    if s < |stats| then stats[s] else SublevelStat(s, 0, 0, 0.0)
  }

  /** Open sublevel sub if it is new, insert the range there and count the file. */
  method PutAt(levels: seq<seq<Placed>>, stats: seq<SublevelStat>, sub: nat, p: Placed, size: nat)
    returns (levels': seq<seq<Placed>>, stats': seq<SublevelStat>)
    requires |levels| == |stats| && sub <= |levels| && Le(p.lo, p.hi)
    requires Tiled(LevelOr(levels, sub)) && !OverlapsAny(LevelOr(levels, sub), p)
    ensures |levels'| == |stats'| == Max(|levels|, sub + 1)
    ensures forall s :: 0 <= s < |levels| && s != sub ==> levels'[s] == levels[s] && stats'[s] == stats[s]
    ensures Tiled(levels'[sub]) && |levels'[sub]| == |LevelOr(levels, sub)| + 1
    ensures multiset(levels'[sub]) == multiset(LevelOr(levels, sub)) + multiset{p}
    ensures stats'[sub] == var was := StatOr(stats, sub); was.(files := was.files + 1, size := was.size + size)
  {
    levels', stats' := levels, stats;
    while |levels'| <= sub
      invariant |levels| <= |levels'| == |stats'| <= Max(|levels|, sub + 1)
      invariant forall s :: 0 <= s < |levels'| ==> levels'[s] == LevelOr(levels, s) && stats'[s] == StatOr(stats, s)
    {
      levels' := levels' + [[]];
      stats' := stats' + [SublevelStat(|levels'| - 1, 0, 0, 0.0)];
    }
    var grown := Place(levels'[sub], p);
    levels' := levels'[sub := grown];
    stats' := stats'[sub := stats'[sub].(files := stats'[sub].files + 1, size := stats'[sub].size + size)];
  }

  lemma LevelOrRebuilt(files: seq<TableInfo>, a: seq<nat>, n: nat,
                       levels: seq<seq<Placed>>, stats: seq<SublevelStat>, s: nat)
    requires Rebuilt(files, a, n, levels, stats)
    ensures LevelRebuilt(files, a, n, s, LevelOr(levels, s), StatOr(stats, s))
  {
    if s < |levels| {
      assert LevelRebuilt(files, a, n, s, levels[s], stats[s]);
    } else {
      OpenLevel(files, a, n, s);
    }
  }

  /** One pass of the loop over files: choose the sublevel and put the file there. */
  method PlaceFile(f: TableInfo, levels: seq<seq<Placed>>, stats: seq<SublevelStat>,
                   ghost files: seq<TableInfo>, ghost a: seq<nat>, ghost n: nat)
    returns (levels': seq<seq<Placed>>, stats': seq<SublevelStat>)
    requires Rebuilt(files, a, n, levels, stats) && n < |files| && f == files[n]
    requires Le(f.smallest, f.largest) && a == Assignment(Placements(files))
    ensures Rebuilt(files, a, n + 1, levels', stats')
  {
    forall s | 0 <= s < |levels| ensures Tiled(levels[s]) {
      LevelOrRebuilt(files, a, n, levels, stats, s);
    }
    var p := Bounds(f);
    var sub := ChooseSublevel(levels, p);
    ChosenIsSublevel(files, a, n, levels, stats, sub);
    LevelOrRebuilt(files, a, n, levels, stats, sub);
    levels', stats' := PutAt(levels, stats, sub, p, f.size);
    LevelGrows(files, a, n, sub, LevelOr(levels, sub), StatOr(stats, sub), levels'[sub]);
    PlacedStep(files, a, n, levels, stats, levels', stats');
  }

  method Reconstruct(files: seq<TableInfo>)
    returns (levels: seq<seq<Placed>>, stats: seq<SublevelStat>, lo: Key, hi: Key)
    requires Proper(Placements(files))
    ensures Rebuilt(files, Assignment(Placements(files)), |files|, levels, stats)
    ensures Hull(Placements(files), |files|, lo, hi)
  {
    ghost var ps := Placements(files);
    ghost var a := Assignment(ps);
    levels, stats, lo, hi := [], [], [], [];
    for n := 0 to |files|
      invariant Rebuilt(files, a, n, levels, stats)
      invariant Hull(ps, n, lo, hi)
    {
      var f := files[n];
      assert ps[n] == Bounds(f);
      HullStep(ps, n, lo, hi);
      // The hull starts out absent (nil), so the first file always sets both ends.
      if n == 0 || Lt(f.smallest, lo) {
        lo := f.smallest;
      }
      if n == 0 || Lt(hi, f.largest) {
        hi := f.largest;
      }
      levels, stats := PlaceFile(f, levels, stats, files, a, n);
    }
  }
}
