// l0Shape of db/pebble_v2.go: how well the files of adjacent sublevels line up, and
// v2L0Sublevels, which measures the sublevels it has rebuilt.
module L0Shapes {
  import opened Keys
  import opened Numbers
  import opened Sequences
  import opened Sublevels
  import opened KeyFractions
  import opened Reconstruction

  // --- One file over the sublevel below it.

  /** The files of below that p overlaps, in order. */
  ghost function Touching(below: seq<Placed>, p: Placed): seq<Placed> {
    if below == [] then []
    else (if Overlap(below[0], p) then [below[0]] else []) + Touching(below[1..], p)
  }

  ghost function LeastLo(x: Key, qs: seq<Placed>): Key {
    if qs == [] then x
    else
      var m := LeastLo(x, qs[1..]);
      if Lt(qs[0].lo, m) then qs[0].lo else m
  }

  ghost function GreatestHi(x: Key, qs: seq<Placed>): Key {
    if qs == [] then x
    else
      var m := GreatestHi(x, qs[1..]);
      if Lt(m, qs[0].hi) then qs[0].hi else m
  }

  ghost predicate SharesStart(p: Placed, qs: seq<Placed>) {
    exists k :: 0 <= k < |qs| && qs[k].lo == p.lo
  }

  /** LeastLo and GreatestHi are the hull of p and the files qs. */
  lemma {:induction false} HullIsTight(p: Placed, qs: seq<Placed>)
    ensures Le(LeastLo(p.lo, qs), p.lo) && Le(p.hi, GreatestHi(p.hi, qs))
    ensures forall k :: 0 <= k < |qs| ==> Le(LeastLo(p.lo, qs), qs[k].lo) && Le(qs[k].hi, GreatestHi(p.hi, qs))
    ensures LeastLo(p.lo, qs) == p.lo || exists k :: 0 <= k < |qs| && qs[k].lo == LeastLo(p.lo, qs)
    ensures GreatestHi(p.hi, qs) == p.hi || exists k :: 0 <= k < |qs| && qs[k].hi == GreatestHi(p.hi, qs)
  {
    TotalOrder();
    if qs != [] {
      HullIsTight(p, qs[1..]);
      assert qs == [qs[0]] + qs[1..];
    }
  }

  lemma {:induction false} TouchingIsSlice(below: seq<Placed>, p: Placed, l: nat, r: nat)
    requires l <= r <= |below|
    requires forall k :: l <= k < r ==> Overlap(below[k], p)
    requires forall k :: 0 <= k < |below| && !(l <= k < r) ==> !Overlap(below[k], p)
    ensures Touching(below, p) == below[l..r]
  {
    if below != [] {
      var l', r' := if l == 0 then 0 else l - 1, if r == 0 then 0 else r - 1;
      TouchingIsSlice(below[1..], p, l', r');
      assert below[1..][l'..r'] == below[if l == 0 then 1 else l..if r == 0 then 1 else r];
    }
  }

  lemma BeyondEnd(below: seq<Placed>, p: Placed, r: nat)
    requires Tiled(below) && r <= |below|
    requires r < |below| ==> Lt(p.hi, below[r].lo)
    ensures forall k :: r <= k < |below| ==> !Overlap(below[k], p)
  {
    TotalOrder();
    forall k | r < k < |below| ensures Lt(below[r].hi, below[k].lo) {}
  }

  lemma BeforeStart(below: seq<Placed>, p: Placed, l: nat)
    requires Tiled(below) && l <= |below|
    requires l > 0 ==> Lt(below[l - 1].hi, p.lo)
    ensures forall k :: 0 <= k < l ==> !Overlap(below[k], p)
  {
    TotalOrder();
    forall k | 0 <= k < l - 1 ensures Lt(below[k].hi, below[l - 1].lo) {}
  }

  /** The last file starting at or before p.hi is the last that can overlap p. */
  method LastCandidate(below: seq<Placed>, p: Placed) returns (r: nat)
    requires Tiled(below)
    ensures r <= |below|
    ensures r < |below| ==> Lt(p.hi, below[r].lo)
    ensures forall k :: 0 <= k < r ==> Le(below[k].lo, p.hi)
  {
    var j: int := FirstAtOrAfter(below, p.hi);
    TotalOrder();
    if j == |below| || Lt(p.hi, below[j].lo) {
      j := j - 1;
    }
    forall k | 0 <= k < j ensures Lt(below[k].lo, p.hi) {}
    if j + 1 < |below| {
      assert j >= 0 && below[j].lo == p.hi ==> Lt(below[j].hi, below[j + 1].lo);
    }
    r := j + 1;
  }

  /**
   * The backward scan sees exactly the files overlapping p: their number, whether one of them
   * shares p's start, and the hull of p and all of them.
   */
  method Descend(below: seq<Placed>, p: Placed) returns (n: nat, onEdge: bool, ulo: Key, uhi: Key)
    requires Tiled(below) && Le(p.lo, p.hi)
    ensures n == |Touching(below, p)|
    ensures onEdge <==> SharesStart(p, Touching(below, p))
    ensures ulo == LeastLo(p.lo, Touching(below, p)) && uhi == GreatestHi(p.hi, Touching(below, p))
  {
    hide Compare, Touching;
    var r := LastCandidate(below, p);
    BeyondEnd(below, p, r);
    n, onEdge, ulo, uhi := 0, false, p.lo, p.hi;
    var j := r;
    while j > 0 && Le(p.lo, below[j - 1].hi)
      invariant 0 <= j <= r && n == r - j
      invariant forall k :: j <= k < r ==> Overlap(below[k], p)
      invariant onEdge <==> SharesStart(p, below[j..r])
      invariant ulo == LeastLo(p.lo, below[j..r]) && uhi == GreatestHi(p.hi, below[j..r])
    {
      j := j - 1;
      n := n + 1;
      assert below[j..r] == [below[j]] + below[j + 1..r];
      if below[j].lo == p.lo {
        onEdge := true;
        assert below[j..r][0].lo == p.lo;
      }
      if Lt(below[j].lo, ulo) {
        ulo := below[j].lo;
      }
      if Lt(uhi, below[j].hi) {
        uhi := below[j].hi;
      }
    }
    BeforeStart(below, p, j);
    TouchingIsSlice(below, p, j, r);
  }

  // --- All files over the sublevels below them.

  datatype L0Shape = L0Shape(files: nat, measured: nat, stepFanout: real, stepFanoutMax: nat,
                             alignedStarts: real, stepWidening: real, stepWideningMax: real)

  const NO_SHAPE := L0Shape(0, 0, 0.0, 0, 0.0, 0.0, 0.0)

  /** The running totals of l0Shape. */
  datatype Tally = Tally(files: nat, measured: nat, fanoutSum: nat, fanoutMax: nat, aligned: nat,
                         widened: nat, widenSum: real, widenMax: real)

  const EMPTY := Tally(0, 0, 0, 0, 0, 0, 0.0, 0.0)

  /** How much wider p becomes, as a factor, once the files it touches below are taken with it. */
  ghost function Widening(below: seq<Placed>, p: Placed, lo: Key, hi: Key): real {
    var qs := Touching(below, p);
    var own := Fraction(p.lo, p.hi, lo, hi);
    if own > 0.0 then Fraction(LeastLo(p.lo, qs), GreatestHi(p.hi, qs), lo, hi) / own else 0.0
  }

  /** One file with n > 0 files below it; w is its widening, measured only when it is wide. */
  function Add(t: Tally, n: nat, shares: bool, wide: bool, w: real): Tally {
    t.(measured := t.measured + 1, fanoutSum := t.fanoutSum + n, fanoutMax := Max(t.fanoutMax, n),
       aligned := t.aligned + (if shares then 1 else 0),
       widened := t.widened + (if wide then 1 else 0),
       widenSum := t.widenSum + (if wide then w else 0.0),
       widenMax := if wide && w > t.widenMax then w else t.widenMax)
  }

  ghost function Measure(t: Tally, below: seq<Placed>, p: Placed, lo: Key, hi: Key): Tally {
    var qs := Touching(below, p);
    if |qs| == 0 then t
    else Add(t, |qs|, SharesStart(p, qs), Fraction(p.lo, p.hi, lo, hi) > 0.0, Widening(below, p, lo, hi))
  }

  /** The first k files of ps measured over below. */
  ghost function MeasureFiles(t: Tally, below: seq<Placed>, ps: seq<Placed>, k: nat, lo: Key, hi: Key): Tally
    requires k <= |ps|
  {
    if k == 0 then t else Measure(MeasureFiles(t, below, ps, k - 1, lo, hi), below, ps[k - 1], lo, hi)
  }

  /** Sublevel s counted, and above sublevel 0 measured over the one below it. */
  ghost function MeasureNext(t: Tally, levels: seq<seq<Placed>>, s: nat, lo: Key, hi: Key): Tally
    requires s < |levels|
  {
    var u := t.(files := t.files + |levels[s]|);
    if s == 0 then u else MeasureFiles(u, levels[s - 1], levels[s], |levels[s]|, lo, hi)
  }

  ghost function MeasureLevels(levels: seq<seq<Placed>>, n: nat, lo: Key, hi: Key): Tally
    requires n <= |levels|
  {
    if n == 0 then EMPTY else MeasureNext(MeasureLevels(levels, n - 1, lo, hi), levels, n - 1, lo, hi)
  }

  function Report(t: Tally): L0Shape {
    L0Shape(t.files, t.measured,
            if t.measured > 0 then t.fanoutSum as real / t.measured as real else 0.0, t.fanoutMax,
            if t.measured > 0 then t.aligned as real / t.measured as real else 0.0,
            if t.widened > 0 then t.widenSum / t.widened as real else 0.0, t.widenMax)
  }

  method MeasureOne(t: Tally, below: seq<Placed>, p: Placed, lo: Key, hi: Key) returns (u: Tally)
    requires Tiled(below) && Le(p.lo, p.hi)
    ensures u == Measure(t, below, p, lo, hi)
  {
    hide Touching, LeastLo, GreatestHi, SharesStart, Tiled, Compare;
    var n, onEdge, ulo, uhi := Descend(below, p);
    if n == 0 {
      return t;
    }
    u := t.(measured := t.measured + 1, fanoutSum := t.fanoutSum + n);
    if n > u.fanoutMax {
      u := u.(fanoutMax := n);
    }
    if onEdge {
      u := u.(aligned := u.aligned + 1);
    }
    var own := KeyFraction(p.lo, p.hi, lo, hi);
    if own > 0.0 {
      var grown := KeyFraction(ulo, uhi, lo, hi);
      var w := grown / own;
      u := u.(widenSum := u.widenSum + w, widened := u.widened + 1);
      if w > u.widenMax {
        u := u.(widenMax := w);
      }
    }
  }

  method MeasureLevel(t: Tally, levels: seq<seq<Placed>>, s: nat, lo: Key, hi: Key) returns (u: Tally)
    requires s < |levels| && Tiled(levels[s]) && (s > 0 ==> Tiled(levels[s - 1]))
    ensures u == MeasureNext(t, levels, s, lo, hi)
  {
    hide Measure, Compare;
    var ps := levels[s];
    u := t.(files := t.files + |ps|);
    if s == 0 {
      return;
    }
    var below := levels[s - 1];
    ghost var v := u;
    for k := 0 to |ps|
      invariant u == MeasureFiles(v, below, ps, k, lo, hi)
    {
      u := MeasureOne(u, below, ps[k], lo, hi);
    }
  }

  method MeasureShape(levels: seq<seq<Placed>>, lo: Key, hi: Key) returns (shape: L0Shape)
    requires forall s :: 0 <= s < |levels| ==> Tiled(levels[s])
    ensures shape == Report(MeasureLevels(levels, |levels|, lo, hi))
    ensures Figures(levels, lo, hi, shape)
  {
    hide Figures;
    MeasuredFigures(levels, lo, hi);
    var t := EMPTY;
    for s := 0 to |levels|
      invariant t == MeasureLevels(levels, s, lo, hi)
    {
      t := MeasureLevel(t, levels, s, lo, hi);
    }
    shape := Report(t);
  }

  // --- What the figures are bounded by.

  ghost predicate Balanced(t: Tally) {
    && t.measured <= t.fanoutSum <= t.measured * t.fanoutMax
    && t.aligned <= t.measured
    && t.widened as real <= t.widenSum <= t.widened as real * t.widenMax
    && t.widenMax >= 0.0
  }

  lemma WideningAtLeastOne(below: seq<Placed>, p: Placed, lo: Key, hi: Key)
    requires Fraction(p.lo, p.hi, lo, hi) > 0.0
    ensures Widening(below, p, lo, hi) >= 1.0
  {
    hide Compare, Touching, LeastLo, GreatestHi, Position;
    var qs := Touching(below, p);
    HullIsTight(p, qs);
    FractionGrows(p.lo, p.hi, LeastLo(p.lo, qs), GreatestHi(p.hi, qs), lo, hi);
    var own := Fraction(p.lo, p.hi, lo, hi);
    assert own / own == 1.0;
    DivideMonotone(own, Fraction(LeastLo(p.lo, qs), GreatestHi(p.hi, qs), lo, hi), own);
  }

  lemma ProductGrows(count: nat, sum: nat, max: nat, n: nat)
    requires sum <= count * max
    ensures sum + n <= (count + 1) * Max(max, n)
  {
    var m := Max(max, n);
    assert count * max <= count * m;
    assert (count + 1) * m == count * m + m;
  }

  lemma RealProductGrows(count: nat, sum: real, max: real, w: real)
    requires sum <= count as real * max
    ensures sum + w <= (count + 1) as real * (if w > max then w else max)
  {
    var m := if w > max then w else max;
    assert count as real * max <= count as real * m;
    assert (count + 1) as real * m == count as real * m + m;
  }

  lemma AddKeepsBalance(t: Tally, n: nat, shares: bool, wide: bool, w: real)
    requires Balanced(t) && n > 0 && (wide ==> w >= 1.0)
    ensures Balanced(Add(t, n, shares, wide, w))
  {
    ProductGrows(t.measured, t.fanoutSum, t.fanoutMax, n);
    if wide {
      RealProductGrows(t.widened, t.widenSum, t.widenMax, w);
    }
  }

  lemma MeasureKeepsBalance(t: Tally, below: seq<Placed>, p: Placed, lo: Key, hi: Key)
    requires Balanced(t)
    ensures Balanced(Measure(t, below, p, lo, hi))
    ensures Measure(t, below, p, lo, hi).files == t.files
    ensures Measure(t, below, p, lo, hi).measured == t.measured + if Touching(below, p) == [] then 0 else 1
  {
    var qs := Touching(below, p);
    if qs != [] {
      if Fraction(p.lo, p.hi, lo, hi) > 0.0 {
        WideningAtLeastOne(below, p, lo, hi);
      }
      AddKeepsBalance(t, |qs|, SharesStart(p, qs), Fraction(p.lo, p.hi, lo, hi) > 0.0, Widening(below, p, lo, hi));
    }
  }

  lemma {:induction false} TouchesWhenOverlapping(below: seq<Placed>, p: Placed)
    requires OverlapsAny(below, p)
    ensures Touching(below, p) != []
  {
    if !Overlap(below[0], p) {
      var k :| 0 <= k < |below| && Overlap(below[k], p);
      assert below[1..][k - 1] == below[k];
      TouchesWhenOverlapping(below[1..], p);
    }
  }

  lemma {:induction false} FilesKeepBalance(t: Tally, below: seq<Placed>, ps: seq<Placed>, k: nat, lo: Key, hi: Key)
    requires k <= |ps| && Balanced(t)
    ensures Balanced(MeasureFiles(t, below, ps, k, lo, hi))
    ensures MeasureFiles(t, below, ps, k, lo, hi).files == t.files
  {
    if k > 0 {
      FilesKeepBalance(t, below, ps, k - 1, lo, hi);
      MeasureKeepsBalance(MeasureFiles(t, below, ps, k - 1, lo, hi), below, ps[k - 1], lo, hi);
    }
  }

  lemma OverlappingIsMeasured(t: Tally, below: seq<Placed>, p: Placed, lo: Key, hi: Key)
    requires OverlapsAny(below, p)
    ensures Measure(t, below, p, lo, hi).measured == t.measured + 1
  {
    TouchesWhenOverlapping(below, p);
  }

  /** The skip of files touching nothing below is never taken on files that rest on that sublevel. */
  lemma {:induction false} RestingFilesMeasured(t: Tally, below: seq<Placed>, ps: seq<Placed>, k: nat, lo: Key, hi: Key)
    requires k <= |ps| && RestsOn(ps, below)
    ensures MeasureFiles(t, below, ps, k, lo, hi).measured == t.measured + k
  {
    hide Measure;
    if k > 0 {
      RestingFilesMeasured(t, below, ps, k - 1, lo, hi);
      OverlappingIsMeasured(MeasureFiles(t, below, ps, k - 1, lo, hi), below, ps[k - 1], lo, hi);
    }
  }

  lemma NextKeepsBalance(t: Tally, levels: seq<seq<Placed>>, s: nat, lo: Key, hi: Key)
    requires s < |levels| && Balanced(t)
    ensures Balanced(MeasureNext(t, levels, s, lo, hi))
    ensures MeasureNext(t, levels, s, lo, hi).files == t.files + |levels[s]|
  {
    if s > 0 {
      FilesKeepBalance(t.(files := t.files + |levels[s]|), levels[s - 1], levels[s], |levels[s]|, lo, hi);
    }
  }

  lemma {:induction false} LevelsKeepBalance(levels: seq<seq<Placed>>, n: nat, lo: Key, hi: Key)
    requires n <= |levels|
    ensures Balanced(MeasureLevels(levels, n, lo, hi))
  {
    if n > 0 {
      LevelsKeepBalance(levels, n - 1, lo, hi);
      NextKeepsBalance(MeasureLevels(levels, n - 1, lo, hi), levels, n - 1, lo, hi);
    }
  }

  lemma {:induction false} StackedAllMeasured(levels: seq<seq<Placed>>, n: nat, lo: Key, hi: Key)
    requires 0 < n <= |levels| && Stacked(levels)
    ensures MeasureLevels(levels, n, lo, hi).files == MeasureLevels(levels, n, lo, hi).measured + |levels[0]|
  {
    hide MeasureFiles;
    var t := MeasureLevels(levels, n - 1, lo, hi);
    LevelsKeepBalance(levels, n - 1, lo, hi);
    NextKeepsBalance(t, levels, n - 1, lo, hi);
    if n == 1 {
      assert t == EMPTY;
    } else {
      StackedAllMeasured(levels, n - 1, lo, hi);
      assert RestsOn(levels[n - 1], levels[n - 2]);
      var u := t.(files := t.files + |levels[n - 1]|);
      RestingFilesMeasured(u, levels[n - 2], levels[n - 1], |levels[n - 1]|, lo, hi);
    }
  }

  ghost predicate FiguresInRange(shape: L0Shape) {
    && (shape.measured > 0 ==> 1.0 <= shape.stepFanout <= shape.stepFanoutMax as real)
    && 0.0 <= shape.alignedStarts <= 1.0
    && (shape.stepWidening == 0.0 || 1.0 <= shape.stepWidening <= shape.stepWideningMax)
  }

  lemma BalancedInRange(t: Tally)
    requires Balanced(t)
    ensures FiguresInRange(Report(t))
    ensures t.widened > 0 ==> Report(t).stepWidening >= 1.0
  {
    if t.measured > 0 {
      assert (t.measured * t.fanoutMax) as real == t.measured as real * t.fanoutMax as real;
      MeanBetween(t.fanoutSum as real, t.measured, 1.0, t.fanoutMax as real);
      MeanBetween(t.aligned as real, t.measured, 0.0, 1.0);
    }
    if t.widened > 0 {
      MeanBetween(t.widenSum, t.widened, 1.0, t.widenMax);
    }
  }

  /** The figures' ranges, and on stacked levels everything above sublevel 0 is measured. */
  lemma ShapeInRange(levels: seq<seq<Placed>>, lo: Key, hi: Key)
    ensures var t := MeasureLevels(levels, |levels|, lo, hi);
            && FiguresInRange(Report(t))
            && (t.widened > 0 ==> Report(t).stepWidening >= 1.0)
            && (levels != [] && Stacked(levels) ==> Report(t).measured == Report(t).files - |levels[0]|)
  {
    LevelsKeepBalance(levels, |levels|, lo, hi);
    BalancedInRange(MeasureLevels(levels, |levels|, lo, hi));
    if levels != [] && Stacked(levels) {
      StackedAllMeasured(levels, |levels|, lo, hi);
    }
  }

  // --- What the figures mean, over files named by sublevel and place.

  /** A file above sublevel 0. */
  ghost predicate IsUpper(levels: seq<seq<Placed>>, f: (nat, nat)) {
    0 < f.0 < |levels| && f.1 < |levels[f.0]|
  }

  ghost function Uppers(levels: seq<seq<Placed>>): set<(nat, nat)> {
    set s: nat, i: nat | 0 < s < |levels| && i < |levels[s]| :: (s, i)
  }

  /** The places, one sublevel down, of the files that overlap f. */
  ghost function Met(levels: seq<seq<Placed>>, f: (nat, nat)): set<nat>
    requires IsUpper(levels, f)
  {
    var p, below := levels[f.0][f.1], levels[f.0 - 1];
    set j: nat | j < |below| && Le(below[j].lo, p.hi) && Le(p.lo, below[j].hi)
  }

  ghost predicate AlignedBelow(levels: seq<seq<Placed>>, f: (nat, nat))
    requires IsUpper(levels, f)
  {
    SharesStart(levels[f.0][f.1], levels[f.0 - 1])
  }

  /** How far the leading bytes of f's ends lie apart. */
  ghost function Width(p: Placed): real {
    Position(p.hi, WIDTH) - Position(p.lo, WIDTH)
  }

  /** f together with the files it overlaps one sublevel down. */
  ghost function Grown(levels: seq<seq<Placed>>, f: (nat, nat)): Placed
    requires IsUpper(levels, f)
  {
    var p := levels[f.0][f.1];
    var qs := Touching(levels[f.0 - 1], p);
    Placed(LeastLo(p.lo, qs), GreatestHi(p.hi, qs))
  }

  ghost function Factor(levels: seq<seq<Placed>>): ((nat, nat)) -> real {
    f => if IsUpper(levels, f) && Width(levels[f.0][f.1]) > 0.0
      then Width(Grown(levels, f)) / Width(levels[f.0][f.1]) else 0.0
  }

  ghost function MeasuredOf(levels: seq<seq<Placed>>, fs: set<(nat, nat)>): set<(nat, nat)> {
    set f | f in fs && IsUpper(levels, f) && Met(levels, f) != {}
  }

  ghost function MeetingsOf(levels: seq<seq<Placed>>, fs: set<(nat, nat)>): set<(nat, nat, nat)> {
    set f, j | f in fs && IsUpper(levels, f) && j in Met(levels, f) :: (f.0, f.1, j)
  }

  ghost function AlignedOf(levels: seq<seq<Placed>>, fs: set<(nat, nat)>): set<(nat, nat)> {
    set f | f in fs && IsUpper(levels, f) && AlignedBelow(levels, f)
  }

  /** Of the files measured, those that leading bytes give a width, in a range that has one too. */
  ghost function WideOf(levels: seq<seq<Placed>>, fs: set<(nat, nat)>, lo: Key, hi: Key): set<(nat, nat)> {
    set f | f in MeasuredOf(levels, fs) && Width(Placed(lo, hi)) > 0.0 && Width(levels[f.0][f.1]) > 0.0
  }

  /** A greatest value over the set: a bound that one element attains, zero when there is none. */
  ghost predicate IsGreatest(fs: set<(nat, nat)>, value: ((nat, nat)) -> real, max: real) {
    && (forall f :: f in fs ==> value(f) <= max)
    && (if fs == {} then max == 0.0 else exists f :: f in fs && value(f) == max)
  }

  ghost function Fanout(levels: seq<seq<Placed>>): ((nat, nat)) -> real {
    f => if IsUpper(levels, f) then |Met(levels, f)| as real else 0.0
  }

  /**
   * The figures of levels: fanout is the mean number of files overlapped one sublevel down, over
   * the files overlapping any; aligned starts the share of those that start where one below does;
   * widening the mean of their factors.
   */
  ghost predicate Figures(levels: seq<seq<Placed>>, lo: Key, hi: Key, shape: L0Shape) {
    var fs := Uppers(levels);
    var measured, wide := MeasuredOf(levels, fs), WideOf(levels, fs, lo, hi);
    && shape.measured == |measured|
    && shape.stepFanout * shape.measured as real == |MeetingsOf(levels, fs)| as real
    && IsGreatest(measured, Fanout(levels), shape.stepFanoutMax as real)
    && shape.alignedStarts * shape.measured as real == |AlignedOf(levels, fs)| as real
    && shape.stepWidening * |wide| as real == Total(wide, Factor(levels))
    && IsGreatest(wide, Factor(levels), shape.stepWideningMax)
    && (measured == {} ==> shape.stepFanout == shape.alignedStarts == 0.0)
    && (wide == {} ==> shape.stepWidening == 0.0)
  }

  /** What the running totals count: files measured, meetings of theirs, files aligned, files given a factor. */
  ghost predicate Counts(t: Tally, measured: set<(nat, nat)>, meetings: nat, aligned: set<(nat, nat)>,
                         wide: set<(nat, nat)>, fanout: ((nat, nat)) -> real, factor: ((nat, nat)) -> real)
  {
    && t.measured == |measured|
    && t.fanoutSum == meetings
    && IsGreatest(measured, fanout, t.fanoutMax as real)
    && t.aligned == |aligned|
    && t.widened == |wide|
    && t.widenSum == Total(wide, factor)
    && IsGreatest(wide, factor, t.widenMax) && t.widenMax >= 0.0
  }

  ghost predicate Tallied(t: Tally, levels: seq<seq<Placed>>, fs: set<(nat, nat)>, lo: Key, hi: Key) {
    Counts(t, MeasuredOf(levels, fs), |MeetingsOf(levels, fs)|, AlignedOf(levels, fs), WideOf(levels, fs, lo, hi),
           Fanout(levels), Factor(levels))
  }

  lemma ReportIsFigures(t: Tally, levels: seq<seq<Placed>>, lo: Key, hi: Key)
    requires Tallied(t, levels, Uppers(levels), lo, hi) && forall s :: 0 <= s < |levels| ==> Tiled(levels[s])
    ensures Figures(levels, lo, hi, Report(t))
  {
    hide MeasuredOf, MeetingsOf, AlignedOf, WideOf, IsGreatest, Total, Factor, Fanout, Uppers, Report, Tiled;
    NothingMeasured(levels, Uppers(levels), lo, hi);
    ReportQuotients(t);
  }

  lemma ReportQuotients(t: Tally)
    ensures var r := Report(t);
            && r.measured == t.measured && r.stepFanoutMax == t.fanoutMax && r.stepWideningMax == t.widenMax
            && (if t.measured == 0 then r.stepFanout == r.alignedStarts == 0.0
                else r.stepFanout * t.measured as real == t.fanoutSum as real
                     && r.alignedStarts * t.measured as real == t.aligned as real)
            && (if t.widened == 0 then r.stepWidening == 0.0 else r.stepWidening * t.widened as real == t.widenSum)
  {
    QuotientTimes(t.fanoutSum as real, t.measured);
    QuotientTimes(t.aligned as real, t.measured);
    QuotientTimes(t.widenSum, t.widened);
  }

  lemma QuotientTimes(x: real, n: nat)
    ensures n > 0 ==> x / n as real * n as real == x
  {}

  lemma NothingMeasured(levels: seq<seq<Placed>>, fs: set<(nat, nat)>, lo: Key, hi: Key)
    requires forall s :: 0 <= s < |levels| ==> Tiled(levels[s])
    ensures MeasuredOf(levels, fs) == {} ==> MeetingsOf(levels, fs) == {} && AlignedOf(levels, fs) == {}
    ensures |MeasuredOf(levels, fs)| == 0 <==> MeasuredOf(levels, fs) == {}
    ensures |WideOf(levels, fs, lo, hi)| == 0 <==> WideOf(levels, fs, lo, hi) == {}
    ensures Total({}, Factor(levels)) == 0.0
  {
    forall m | m in MeetingsOf(levels, fs) ensures (m.0, m.1) in MeasuredOf(levels, fs) {
      hide Met;
    }
    forall f | f in AlignedOf(levels, fs) ensures f in MeasuredOf(levels, fs) {
      TouchingIsMet(levels, f);
      hide Met, AlignedBelow;
    }
    hide Met, AlignedBelow;
  }

  /** The places from k on of the files that p overlaps. */
  ghost function PlacesFrom(below: seq<Placed>, p: Placed, k: nat): set<nat> {
    set j: nat | k <= j < |below| && Overlap(below[j], p)
  }

  lemma PlacesStep(below: seq<Placed>, p: Placed, k: nat)
    ensures k < |below| ==>
              PlacesFrom(below, p, k) == PlacesFrom(below, p, k + 1) + if Overlap(below[k], p) then {k} else {}
    ensures k !in PlacesFrom(below, p, k + 1) && PlacesFrom(below, p, |below|) == {}
  {
    hide Overlap;
  }

  lemma {:induction false} TouchingFrom(below: seq<Placed>, p: Placed, k: nat)
    requires k <= |below|
    ensures |Touching(below[k..], p)| == |PlacesFrom(below, p, k)|
    decreases |below| - k
  {
    hide Overlap, PlacesFrom;
    PlacesStep(below, p, k);
    if k < |below| {
      TouchingFrom(below, p, k + 1);
      assert below[k..][1..] == below[k + 1..];
    }
  }

  lemma {:induction false} InTouching(below: seq<Placed>, p: Placed, q: Placed)
    ensures q in Touching(below, p) <==> q in below && Overlap(q, p)
  {
    hide Overlap;
    if below != [] {
      InTouching(below[1..], p, q);
      assert below == [below[0]] + below[1..];
    }
  }

  /** Scanning what overlaps f is visiting the places it meets. */
  lemma TouchingIsMet(levels: seq<seq<Placed>>, f: (nat, nat))
    requires IsUpper(levels, f) && Tiled(levels[f.0 - 1]) && Tiled(levels[f.0])
    ensures var p, qs := levels[f.0][f.1], Touching(levels[f.0 - 1], levels[f.0][f.1]);
            && |qs| == |Met(levels, f)|
            && (SharesStart(p, qs) <==> AlignedBelow(levels, f))
            && (AlignedBelow(levels, f) ==> Met(levels, f) != {})
  {
    var p, below := levels[f.0][f.1], levels[f.0 - 1];
    TouchingFrom(below, p, 0);
    assert below[0..] == below;
    assert Met(levels, f) == PlacesFrom(below, p, 0);
    var qs := Touching(below, p);
    hide Touching, Compare;
    TotalOrder();
    if AlignedBelow(levels, f) {
      var j :| 0 <= j < |below| && below[j].lo == p.lo;
      InTouching(below, p, below[j]);
      assert j in Met(levels, f) && below[j] in qs;
    }
    if SharesStart(p, qs) {
      var k :| 0 <= k < |qs| && qs[k].lo == p.lo;
      InTouching(below, p, qs[k]);
      assert qs[k] in qs;
    }
  }

  ghost function NamedAfter(f: (nat, nat), js: set<nat>): set<(nat, nat, nat)> {
    set j | j in js :: (f.0, f.1, j)
  }

  lemma {:induction false} NamedCount(f: (nat, nat), js: set<nat>)
    ensures |NamedAfter(f, js)| == |js|
  {
    if js != {} {
      var j :| j in js;
      NamedCount(f, js - {j});
      assert NamedAfter(f, js) == NamedAfter(f, js - {j}) + {(f.0, f.1, j)};
    }
  }

  lemma MeetingsAdd(levels: seq<seq<Placed>>, fs: set<(nat, nat)>, f: (nat, nat))
    requires IsUpper(levels, f) && f !in fs
    ensures |MeetingsOf(levels, fs + {f})| == |MeetingsOf(levels, fs)| + |Met(levels, f)|
  {
    hide Met;
    var mine := NamedAfter(f, Met(levels, f));
    NamedCount(f, Met(levels, f));
    assert MeetingsOf(levels, fs + {f}) == MeetingsOf(levels, fs) + mine;
    assert MeetingsOf(levels, fs) !! mine;
  }

  lemma GreatestAdd(fs: set<(nat, nat)>, f: (nat, nat), value: ((nat, nat)) -> real, max: real)
    requires IsGreatest(fs, value, max) && value(f) >= 0.0 && (fs != {} ==> max >= 0.0)
    ensures IsGreatest(fs + {f}, value, if value(f) > max then value(f) else max)
  {
    var gs := fs + {f};
    assert f in gs;
    if fs == {} {
      assert gs == {f};
    }
  }

  /** The quotient of two shares of one range is the quotient of their widths. */
  lemma WideningIsFactor(levels: seq<seq<Placed>>, f: (nat, nat), lo: Key, hi: Key)
    requires IsUpper(levels, f)
    ensures var p := levels[f.0][f.1];
            && (Fraction(p.lo, p.hi, lo, hi) > 0.0 <==> Width(Placed(lo, hi)) > 0.0 && Width(p) > 0.0)
            && (Fraction(p.lo, p.hi, lo, hi) > 0.0 ==>
                  Widening(levels[f.0 - 1], p, lo, hi) == Factor(levels)(f) && Factor(levels)(f) >= 1.0)
  {
    hide Position, Touching, LeastLo, GreatestHi;
    var p := levels[f.0][f.1];
    var own, span, grown := Width(p), Width(Placed(lo, hi)), Width(Grown(levels, f));
    if span > 0.0 {
      QuotientSign(own, span);
      if own > 0.0 {
        QuotientOfShares(grown, own, span);
        WideningAtLeastOne(levels[f.0 - 1], p, lo, hi);
      }
    }
  }

  lemma QuotientSign(x: real, span: real)
    requires span > 0.0
    ensures x / span > 0.0 <==> x > 0.0
  {
    assert x == x / span * span;
  }

  lemma QuotientOfShares(x: real, y: real, span: real)
    requires span > 0.0 && y > 0.0 && y / span > 0.0
    ensures (x / span) / (y / span) == x / y
  {
    var q := x / y;
    assert x == q * y;
    assert x / span == q * (y / span);
  }

  lemma SkippedSets(levels: seq<seq<Placed>>, fs: set<(nat, nat)>, f: (nat, nat), lo: Key, hi: Key)
    requires IsUpper(levels, f) && Met(levels, f) == {} && !AlignedBelow(levels, f)
    ensures var gs := fs + {f};
            && MeasuredOf(levels, gs) == MeasuredOf(levels, fs)
            && AlignedOf(levels, gs) == AlignedOf(levels, fs)
            && WideOf(levels, gs, lo, hi) == WideOf(levels, fs, lo, hi)
  {
    hide Met, AlignedBelow, Width;
  }

  lemma AddedSets(levels: seq<seq<Placed>>, fs: set<(nat, nat)>, f: (nat, nat), lo: Key, hi: Key)
    requires IsUpper(levels, f) && Met(levels, f) != {}
    ensures var gs := fs + {f};
            var wide := Width(Placed(lo, hi)) > 0.0 && Width(levels[f.0][f.1]) > 0.0;
            && MeasuredOf(levels, gs) == MeasuredOf(levels, fs) + {f}
            && AlignedOf(levels, gs) == AlignedOf(levels, fs) + (if AlignedBelow(levels, f) then {f} else {})
            && WideOf(levels, gs, lo, hi) == WideOf(levels, fs, lo, hi) + (if wide then {f} else {})
    ensures f !in fs ==> f !in MeasuredOf(levels, fs) && f !in AlignedOf(levels, fs) && f !in WideOf(levels, fs, lo, hi)
  {
    hide Met, AlignedBelow, Width;
  }

  lemma AddCounts(t: Tally, measured: set<(nat, nat)>, meetings: nat, aligned: set<(nat, nat)>, wide: set<(nat, nat)>,
                  fanout: ((nat, nat)) -> real, factor: ((nat, nat)) -> real,
                  f: (nat, nat), n: nat, shares: bool, isWide: bool, w: real)
    requires Counts(t, measured, meetings, aligned, wide, fanout, factor)
    requires f !in measured && f !in aligned && f !in wide
    requires fanout(f) == n as real && (isWide ==> factor(f) == w >= 1.0)
    ensures Counts(Add(t, n, shares, isWide, w), measured + {f}, meetings + n,
                   aligned + (if shares then {f} else {}), wide + (if isWide then {f} else {}), fanout, factor)
  {
    hide IsGreatest, Total;
    GreatestAdd(measured, f, fanout, t.fanoutMax as real);
    if isWide {
      TotalAdd(wide, f, factor);
      GreatestAdd(wide, f, factor, t.widenMax);
    } else {
      assert wide + {} == wide;
    }
    assert aligned + {} == aligned;
  }

  /** Measuring one more file counts it in every figure it belongs in. */
  lemma MeasureIsTallied(t: Tally, levels: seq<seq<Placed>>, fs: set<(nat, nat)>, f: (nat, nat), lo: Key, hi: Key)
    requires Tallied(t, levels, fs, lo, hi) && IsUpper(levels, f) && f !in fs
    requires Tiled(levels[f.0 - 1]) && Tiled(levels[f.0])
    ensures Tallied(Measure(t, levels[f.0 - 1], levels[f.0][f.1], lo, hi), levels, fs + {f}, lo, hi)
  {
    hide Met, MeetingsOf, Touching, MeasuredOf, AlignedOf, WideOf, Fraction, Widening, Factor, Fanout, SharesStart,
         AlignedBelow, Width, Counts, Add, Tiled;
    var p, below := levels[f.0][f.1], levels[f.0 - 1];
    TouchingIsMet(levels, f);
    MeetingsAdd(levels, fs, f);
    FanoutIsMet(levels, f);
    if Met(levels, f) == {} {
      SkippedSets(levels, fs, f, lo, hi);
    } else {
      AddedSets(levels, fs, f, lo, hi);
      WideningIsFactor(levels, f, lo, hi);
      AddCounts(t, MeasuredOf(levels, fs), |MeetingsOf(levels, fs)|, AlignedOf(levels, fs), WideOf(levels, fs, lo, hi),
                Fanout(levels), Factor(levels), f, |Met(levels, f)|, AlignedBelow(levels, f),
                Fraction(p.lo, p.hi, lo, hi) > 0.0, Widening(below, p, lo, hi));
    }
  }

  lemma FanoutIsMet(levels: seq<seq<Placed>>, f: (nat, nat))
    requires IsUpper(levels, f)
    ensures Fanout(levels)(f) == |Met(levels, f)| as real
  {}

  // --- All the files of all the sublevels.

  /** The files above sublevel 0 that come before file k of sublevel s. */
  ghost function Before(levels: seq<seq<Placed>>, s: nat, k: nat): set<(nat, nat)>
    requires s < |levels| && k <= |levels[s]|
  {
    set f | f in Uppers(levels) && (f.0 < s || (f.0 == s && f.1 < k))
  }

  lemma BeforeGrows(levels: seq<seq<Placed>>, s: nat, k: nat)
    requires 0 < s < |levels|
    ensures k < |levels[s]| ==> Before(levels, s, k + 1) == Before(levels, s, k) + {(s, k)}
    ensures s + 1 < |levels| ==> Before(levels, s, |levels[s]|) == Before(levels, s + 1, 0)
    ensures s + 1 == |levels| ==> Before(levels, s, |levels[s]|) == Uppers(levels)
  {}

  lemma {:induction false} FilesTallied(t: Tally, levels: seq<seq<Placed>>, s: nat, k: nat, lo: Key, hi: Key)
    requires 0 < s < |levels| && k <= |levels[s]|
    requires Tallied(t, levels, Before(levels, s, 0), lo, hi) && Tiled(levels[s - 1]) && Tiled(levels[s])
    ensures Tallied(MeasureFiles(t, levels[s - 1], levels[s], k, lo, hi), levels, Before(levels, s, k), lo, hi)
  {
    hide Tallied, Measure, Tiled, Uppers;
    if k > 0 {
      FilesTallied(t, levels, s, k - 1, lo, hi);
      BeforeGrows(levels, s, k - 1);
      MeasureIsTallied(MeasureFiles(t, levels[s - 1], levels[s], k - 1, lo, hi), levels, Before(levels, s, k - 1),
                       (s, k - 1), lo, hi);
    }
  }

  lemma NothingTallied(levels: seq<seq<Placed>>, t: Tally, lo: Key, hi: Key)
    requires t == EMPTY.(files := t.files)
    ensures Tallied(t, levels, {}, lo, hi)
  {
    assert MeetingsOf(levels, {}) == {};
  }

  lemma NextTallied(t: Tally, levels: seq<seq<Placed>>, n: nat, lo: Key, hi: Key)
    requires 0 < n < |levels| && Tiled(levels[n - 1]) && Tiled(levels[n])
    requires Tallied(t, levels, Before(levels, n, 0), lo, hi)
    ensures Tallied(MeasureNext(t, levels, n, lo, hi), levels, Before(levels, n, |levels[n]|), lo, hi)
  {
    hide Tallied, Before, Tiled, MeasureFiles;
    var u := t.(files := t.files + |levels[n]|);
    SameTallied(t, u, levels, Before(levels, n, 0), lo, hi);
    FilesTallied(u, levels, n, |levels[n]|, lo, hi);
  }

  lemma FirstTallied(levels: seq<seq<Placed>>, lo: Key, hi: Key)
    requires levels != []
    ensures Tallied(MeasureLevels(levels, 1, lo, hi), levels, Before(levels, 0, |levels[0]|), lo, hi)
  {
    hide Tallied, Before;
    assert MeasureLevels(levels, 0, lo, hi) == EMPTY;
    NoneBefore(levels);
    NothingTallied(levels, MeasureLevels(levels, 1, lo, hi), lo, hi);
  }

  /** Once sublevels up to n are done, every file up to there is counted. */
  lemma {:induction false} LevelsTallied(levels: seq<seq<Placed>>, n: nat, lo: Key, hi: Key)
    requires n < |levels| && forall s :: 0 <= s < |levels| ==> Tiled(levels[s])
    ensures Tallied(MeasureLevels(levels, n + 1, lo, hi), levels, Before(levels, n, |levels[n]|), lo, hi)
  {
    hide Tallied, Before, Tiled, MeasureNext;
    if n == 0 {
      FirstTallied(levels, lo, hi);
    } else {
      LevelsTallied(levels, n - 1, lo, hi);
      NoneBefore(levels);
      if n > 1 {
        BeforeGrows(levels, n - 1, 0);
      }
      NextTallied(MeasureLevels(levels, n, lo, hi), levels, n, lo, hi);
    }
  }

  lemma NoneBefore(levels: seq<seq<Placed>>)
    requires levels != []
    ensures Before(levels, 0, |levels[0]|) == {}
    ensures |levels| > 1 ==> Before(levels, 1, 0) == {}
    ensures |levels| == 1 ==> Uppers(levels) == {}
  {}

  lemma SameTallied(t: Tally, u: Tally, levels: seq<seq<Placed>>, fs: set<(nat, nat)>, lo: Key, hi: Key)
    requires Tallied(t, levels, fs, lo, hi) && u == t.(files := u.files)
    ensures Tallied(u, levels, fs, lo, hi)
  {}

  /** The figures reported are those of the levels. */
  lemma MeasuredFigures(levels: seq<seq<Placed>>, lo: Key, hi: Key)
    requires forall s :: 0 <= s < |levels| ==> Tiled(levels[s])
    ensures Figures(levels, lo, hi, Report(MeasureLevels(levels, |levels|, lo, hi)))
  {
    var t := MeasureLevels(levels, |levels|, lo, hi);
    hide Tallied, Tiled, Figures, Report, MeasureNext, Before;
    if levels == [] {
      assert t == EMPTY && Uppers(levels) == {};
      NothingTallied(levels, t, lo, hi);
    } else {
      var n := |levels| - 1;
      LevelsTallied(levels, n, lo, hi);
      if n == 0 {
        NoneBefore(levels);
      } else {
        BeforeGrows(levels, n, 0);
      }
    }
    ReportIsFigures(t, levels, lo, hi);
  }
}
