// What L0 sublevels mean, independently of how they are computed: a file sits one above the
// highest older file it overlaps, which makes sublevel numbers longest overlap chains.
module Sublevels {
  import opened Keys
  import opened Numbers
  import opened RangeDepth

  /** An L0 file's user key range, inclusive at both ends. */
  datatype Placed = Placed(lo: Key, hi: Key)

  predicate Overlap(p: Placed, q: Placed) {
    Le(p.lo, q.hi) && Le(q.lo, p.hi)
  }

  ghost predicate Proper(files: seq<Placed>) {
    forall i :: 0 <= i < |files| ==> Le(files[i].lo, files[i].hi)
  }

  /** The sublevel of file i when files are placed oldest first. */
  ghost function Sublevel(files: seq<Placed>, i: nat): nat
    requires i < |files|
    decreases i, i + 1
  {
    AboveOlder(files, i, i)
  }

  /** One above the highest sublevel among those of the oldest n files that file i overlaps. */
  ghost function AboveOlder(files: seq<Placed>, i: nat, n: nat): nat
    requires n <= i < |files|
    decreases i, n
  {
    if n == 0 then 0
    else
      var rest := AboveOlder(files, i, n - 1);
      if Overlap(files[n - 1], files[i]) then Max(rest, Sublevel(files, n - 1) + 1) else rest
  }

  lemma {:induction false} AboveOlderBounds(files: seq<Placed>, i: nat, n: nat)
    requires n <= i < |files|
    ensures forall j :: 0 <= j < n && Overlap(files[j], files[i]) ==> Sublevel(files, j) < AboveOlder(files, i, n)
    ensures AboveOlder(files, i, n) > 0 ==>
              exists j :: 0 <= j < n && Overlap(files[j], files[i]) && Sublevel(files, j) + 1 == AboveOlder(files, i, n)
  {
    if n > 0 {
      AboveOlderBounds(files, i, n - 1);
    }
  }

  /** A sublevel is pinned down by the older files overlapped: all lie lower, and one directly below. */
  lemma SublevelIsOneAboveHighest(files: seq<Placed>, i: nat, s: nat)
    requires i < |files|
    requires forall j :: 0 <= j < i && Overlap(files[j], files[i]) ==> Sublevel(files, j) < s
    requires s > 0 ==> exists j :: 0 <= j < i && Overlap(files[j], files[i]) && Sublevel(files, j) + 1 == s
    ensures Sublevel(files, i) == s
  {
    AboveOlderBounds(files, i, i);
  }

  // --- Longest chains.

  /** Indices of ever newer files, each overlapping the one before it. */
  ghost predicate Chain(files: seq<Placed>, c: seq<nat>) {
    && |c| > 0
    && (forall k :: 0 <= k < |c| ==> c[k] < |files|)
    && (forall k :: 0 < k < |c| ==> c[k - 1] < c[k] && Overlap(files[c[k - 1]], files[c[k]]))
  }

  lemma {:induction false} ChainAtMostSublevel(files: seq<Placed>, c: seq<nat>)
    requires Chain(files, c)
    ensures |c| <= Sublevel(files, c[|c| - 1]) + 1
  {
    if |c| > 1 {
      var d := c[..|c| - 1];
      ChainAtMostSublevel(files, d);
      AboveOlderBounds(files, c[|c| - 1], c[|c| - 1]);
    }
  }

  lemma {:induction false} ChainOfSublevel(files: seq<Placed>, i: nat) returns (c: seq<nat>)
    requires i < |files|
    ensures Chain(files, c) && c[|c| - 1] == i && |c| == Sublevel(files, i) + 1
    decreases i
  {
    hide Compare;
    if Sublevel(files, i) == 0 {
      c := [i];
    } else {
      AboveOlderBounds(files, i, i);
      var j :| 0 <= j < i && Overlap(files[j], files[i]) && Sublevel(files, j) + 1 == Sublevel(files, i);
      var d := ChainOfSublevel(files, j);
      c := d + [i];
    }
  }

  /** The sublevel of a file is the length of the longest overlap chain ending at it, less one. */
  lemma SublevelIsLongestChain(files: seq<Placed>, i: nat)
    requires i < |files|
    ensures exists c :: Chain(files, c) && c[|c| - 1] == i && |c| == Sublevel(files, i) + 1
    ensures forall c :: Chain(files, c) && c[|c| - 1] == i ==> |c| <= Sublevel(files, i) + 1
  {
    var c := ChainOfSublevel(files, i);
    forall c | Chain(files, c) && c[|c| - 1] == i ensures |c| <= Sublevel(files, i) + 1 {
      ChainAtMostSublevel(files, c);
    }
  }

  // --- Layouts.

  /** Any numbering that puts every older overlapping file strictly lower. */
  ghost predicate Layout(files: seq<Placed>, a: seq<nat>) {
    && |a| == |files|
    && forall j, i :: 0 <= j < i < |files| && Overlap(files[j], files[i]) ==> a[j] < a[i]
  }

  ghost function Assignment(files: seq<Placed>): seq<nat> {
    seq(|files|, i requires 0 <= i < |files| => Sublevel(files, i))
  }

  /** The reconstruction's numbering is a layout, and no layout puts any file lower. */
  lemma AssignmentIsLeastLayout(files: seq<Placed>)
    ensures Layout(files, Assignment(files))
    ensures forall a, i :: Layout(files, a) && 0 <= i < |files| ==> Assignment(files)[i] <= a[i]
  {
    forall j, i | 0 <= j < i < |files| && Overlap(files[j], files[i])
      ensures Assignment(files)[j] < Assignment(files)[i]
    {
      AboveOlderBounds(files, i, i);
    }
    forall a, i | Layout(files, a) && 0 <= i < |files| ensures Assignment(files)[i] <= a[i] {
      LeastAt(files, a, i);
    }
  }

  lemma {:induction false} LeastAt(files: seq<Placed>, a: seq<nat>, i: nat)
    requires Layout(files, a) && i < |files|
    ensures Sublevel(files, i) <= a[i]
    decreases i
  {
    AboveOlderBounds(files, i, i);
    if Sublevel(files, i) > 0 {
      var j :| 0 <= j < i && Overlap(files[j], files[i]) && Sublevel(files, j) + 1 == Sublevel(files, i);
      LeastAt(files, a, j);
    }
  }

  /** One above the highest number in use among the first n files. */
  ghost function Height(a: seq<nat>, n: nat): nat
    requires n <= |a|
  {
    if n == 0 then 0 else Max(Height(a, n - 1), a[n - 1] + 1)
  }

  lemma {:induction false} HeightBounds(a: seq<nat>, n: nat)
    requires n <= |a|
    ensures forall i :: 0 <= i < n ==> a[i] < Height(a, n)
    ensures Height(a, n) > 0 ==> exists i :: 0 <= i < n && a[i] + 1 == Height(a, n)
  {
    if n > 0 {
      HeightBounds(a, n - 1);
    }
  }

  ghost function Used(a: seq<nat>, t: set<nat>): set<nat>
    requires forall i :: i in t ==> i < |a|
  {
    set i | i in t :: a[i]
  }

  ghost function Elements(sel: seq<nat>): set<nat> {
    set i | i in sel
  }

  /** A layout rises along a chain, so it needs a number for every link. */
  lemma {:induction false} ChainUsesDistinct(files: seq<Placed>, a: seq<nat>, c: seq<nat>) returns (u: set<nat>)
    requires Layout(files, a) && Chain(files, c)
    ensures |u| == |c| && u <= Elements(a)
    ensures forall v :: v in u ==> v <= a[c[|c| - 1]]
  {
    var last := c[|c| - 1];
    u := {a[last]};
    if |c| > 1 {
      var d := c[..|c| - 1];
      var w := ChainUsesDistinct(files, a, d);
      assert a[d[|d| - 1]] < a[last];
      u := w + {a[last]};
    }
  }

  /** The number of sublevels is the longest chain, and no layout of the files uses fewer. */
  lemma {:induction false} NoLayoutUsesFewer(files: seq<Placed>, a: seq<nat>)
    requires Layout(files, a)
    ensures Height(Assignment(files), |files|) <= |Elements(a)|
    ensures files != [] ==> exists c :: Chain(files, c) && |c| == Height(Assignment(files), |files|)
    ensures forall c :: Chain(files, c) ==> |c| <= Height(Assignment(files), |files|)
  {
    var least, n := Assignment(files), |files|;
    HeightBounds(least, n);
    forall c | Chain(files, c) ensures |c| <= Height(least, n) {
      ChainAtMostSublevel(files, c);
      assert least[c[|c| - 1]] < Height(least, n);
    }
    if n > 0 {
      var i :| 0 <= i < n && least[i] + 1 == Height(least, n);
      var c := ChainOfSublevel(files, i);
      var u := ChainUsesDistinct(files, a, c);
      SubsetSize(u, Elements(a));
    }
  }

  lemma {:induction false} SubsetSize<T>(s: set<T>, t: set<T>)
    requires s <= t
    ensures |s| <= |t|
    ensures |s| == |t| ==> s == t
  {
    assert t == s + (t - s);
    assert |t| == |s| + |t - s|;
  }

  // --- Overlap depth against sublevels.

  ghost predicate Selection(files: seq<Placed>, sel: seq<nat>) {
    && (forall k :: 0 <= k < |sel| ==> sel[k] < |files|)
    && (forall k, l :: 0 <= k < l < |sel| ==> sel[k] != sel[l])
  }

  ghost function Lows(files: seq<Placed>, sel: seq<nat>): seq<Key>
    requires Selection(files, sel)
  {
    seq(|sel|, k requires 0 <= k < |sel| => files[sel[k]].lo)
  }

  ghost function Highs(files: seq<Placed>, sel: seq<nat>): seq<Key>
    requires Selection(files, sel)
  {
    seq(|sel|, k requires 0 <= k < |sel| => files[sel[k]].hi)
  }

  predicate Contains(p: Placed, x: Key) {
    Le(p.lo, x) && Le(x, p.hi)
  }

  ghost function Covering(files: seq<Placed>, sel: seq<nat>, x: Key): set<nat>
    requires Selection(files, sel)
  {
    set i | i in sel && Contains(files[i], x)
  }

  lemma CoveringStep(files: seq<Placed>, sel: seq<nat>, x: Key)
    requires Selection(files, sel) && sel != []
    ensures |Covering(files, sel, x)| ==
            (if Contains(files[sel[0]], x) then 1 else 0) + |Covering(files, sel[1..], x)|
  {
    var rest := sel[1..];
    assert sel == [sel[0]] + rest;
    assert sel[0] !in rest;
    var here := if Contains(files[sel[0]], x) then {sel[0]} else {};
    assert Covering(files, sel, x) == here + Covering(files, rest, x);
  }

  lemma {:induction false} CoverIsSize(files: seq<Placed>, sel: seq<nat>, x: Key)
    requires Selection(files, sel)
    ensures Cover(Lows(files, sel), Highs(files, sel), x) == |Covering(files, sel, x)|
  {
    if sel != [] {
      CoverIsSize(files, sel[1..], x);
      CoveringStep(files, sel, x);
      assert Lows(files, sel)[1..] == Lows(files, sel[1..]);
      assert Highs(files, sel)[1..] == Highs(files, sel[1..]);
    }
  }

  lemma {:induction false} DistinctlyUsed(a: seq<nat>, t: set<nat>)
    requires forall i :: i in t ==> i < |a|
    requires forall i, j :: i in t && j in t && i != j ==> a[i] != a[j]
    ensures |Used(a, t)| == |t|
  {
    if t != {} {
      var i :| i in t;
      DistinctlyUsed(a, t - {i});
      assert Used(a, t) == Used(a, t - {i}) + {a[i]};
    }
  }

  /** Files covering one key overlap pairwise, so a layout gives them all different numbers. */
  lemma CoveringUsesDistinct(files: seq<Placed>, a: seq<nat>, sel: seq<nat>, x: Key)
    requires Layout(files, a) && Selection(files, sel)
    ensures |Used(a, Covering(files, sel, x))| == Cover(Lows(files, sel), Highs(files, sel), x)
    ensures Used(a, Covering(files, sel, x)) <= Used(a, Elements(sel))
  {
    var t := Covering(files, sel, x);
    forall i, j | i in t && j in t && i != j ensures a[i] != a[j] {
      LeTransitive(files[i].lo, x, files[j].hi);
      LeTransitive(files[j].lo, x, files[i].hi);
      assert Overlap(files[i], files[j]) && Overlap(files[j], files[i]);
    }
    DistinctlyUsed(a, t);
    CoverIsSize(files, sel, x);
  }

  /** A compaction's overlap depth never exceeds the number of sublevels its L0 input occupies. */
  lemma DepthAtMostSublevels(files: seq<Placed>, a: seq<nat>, sel: seq<nat>, depth: int)
    requires Layout(files, a) && Selection(files, sel)
    requires IsDepth(Lows(files, sel), Highs(files, sel), depth)
    ensures depth <= |Used(a, Elements(sel))|
  {
    var x :| Cover(Lows(files, sel), Highs(files, sel), x) == depth;
    CoveringUsesDistinct(files, a, sel, x);
    SubsetSize(Used(a, Covering(files, sel, x)), Used(a, Elements(sel)));
  }

  /** One selected file per occupied sublevel, every two of them overlapping. */
  ghost predicate Column(files: seq<Placed>, a: seq<nat>, sel: seq<nat>, t: set<nat>)
    requires Selection(files, sel) && |a| == |files|
  {
    && t <= Elements(sel)
    && Used(a, t) == Used(a, Elements(sel))
    && forall i, j :: i in t && j in t ==> Overlap(files[i], files[j])
  }

  /** In one dimension, ranges that overlap pairwise share a key: their greatest lower bound. */
  lemma {:induction false} PairwiseOverlapShares(files: seq<Placed>, t: set<nat>) returns (x: Key)
    requires forall i :: i in t ==> i < |files|
    requires forall i, j :: i in t && j in t ==> Overlap(files[i], files[j])
    ensures forall i :: i in t ==> Contains(files[i], x)
    ensures t != {} ==> exists i :: i in t && files[i].lo == x
  {
    hide Compare;
    x := [];
    if t != {} {
      TotalOrder();
      var i :| i in t;
      var y := PairwiseOverlapShares(files, t - {i});
      x := if t == {i} || Le(y, files[i].lo) then files[i].lo else y;
      assert Overlap(files[i], files[i]);
    }
  }

  /**
   * Depth is the sublevel count, as the comments on overlapDepth assume of every compaction,
   * exactly when the input contains a column through all the sublevels it occupies.
   */
  lemma DepthIsSublevelsIffColumn(files: seq<Placed>, a: seq<nat>, sel: seq<nat>, depth: int)
    requires Layout(files, a) && Selection(files, sel)
    requires IsDepth(Lows(files, sel), Highs(files, sel), depth)
    ensures depth == |Used(a, Elements(sel))| <==> exists t :: Column(files, a, sel, t)
  {
    DepthAtMostSublevels(files, a, sel, depth);
    if depth == |Used(a, Elements(sel))| {
      var x :| Cover(Lows(files, sel), Highs(files, sel), x) == depth;
      var t := Covering(files, sel, x);
      CoveringUsesDistinct(files, a, sel, x);
      SubsetSize(Used(a, t), Used(a, Elements(sel)));
      forall i, j | i in t && j in t ensures Overlap(files[i], files[j]) {
        LeTransitive(files[i].lo, x, files[j].hi);
        LeTransitive(files[j].lo, x, files[i].hi);
      }
      assert Column(files, a, sel, t);
    }
    if t :| Column(files, a, sel, t) {
      var x := PairwiseOverlapShares(files, t);
      CoveringUsesDistinct(files, a, sel, x);
      assert t <= Covering(files, sel, x);
      SubsetSize(Used(a, t), Used(a, Covering(files, sel, x)));
      assert Cover(Lows(files, sel), Highs(files, sel), x) <= depth;
    }
  }

  ghost const TOUCHING: seq<Placed> := [Placed([0], [2]), Placed([2], [4]), Placed([4], [6])]

  lemma TouchingSublevels()
    ensures Assignment(TOUCHING) == [0, 1, 2]
  {
    var f := TOUCHING;
    assert Overlap(f[0], f[1]) && Overlap(f[1], f[2]) && !Overlap(f[0], f[2]);
    SublevelIsOneAboveHighest(f, 0, 0);
    SublevelIsOneAboveHighest(f, 1, 1);
    SublevelIsOneAboveHighest(f, 2, 2);
  }

  lemma TouchingCover(x: Key)
    requires Selection(TOUCHING, [0, 1, 2])
    ensures |Covering(TOUCHING, [0, 1, 2], x)| <= 2
  {
    var t := Covering(TOUCHING, [0, 1, 2], x);
    if 0 in t && 2 in t {
      LeTransitive([4], x, [2]);
      assert false;
    }
    SubsetSize(t, if 0 in t then {0, 1} else {1, 2});
  }

  lemma TouchingShareTwo()
    requires Selection(TOUCHING, [0, 1, 2])
    ensures |Covering(TOUCHING, [0, 1, 2], [2])| == 2
  {
    assert Contains(TOUCHING[0], [2]) && Contains(TOUCHING[1], [2]) && !Contains(TOUCHING[2], [2]);
    assert Covering(TOUCHING, [0, 1, 2], [2]) == {0, 1};
  }

  /** Three files, each touching the next, occupy three sublevels at depth two. */
  lemma DepthCanBeLess()
    ensures Assignment(TOUCHING) == [0, 1, 2] && Selection(TOUCHING, [0, 1, 2])
    ensures IsDepth(Lows(TOUCHING, [0, 1, 2]), Highs(TOUCHING, [0, 1, 2]), 2)
  {
    TouchingSublevels();
    var sel: seq<nat> := [0, 1, 2];
    forall x ensures Cover(Lows(TOUCHING, sel), Highs(TOUCHING, sel), x) <= 2 {
      CoverIsSize(TOUCHING, sel, x);
      TouchingCover(x);
    }
    CoverIsSize(TOUCHING, sel, [2]);
    TouchingShareTwo();
  }
}
