// What the compaction tracker's buckets hold, told over the calls of Record themselves: the bucket of
// kind k has figures of the calls i with history[i].kind == k, and of no others.
module CompactionFigures {
  import opened Numbers
  import opened Sequences
  import opened Compactions

  /** The calls among the first n that satisfy p. */
  ghost function Calls(h: seq<Event>, n: nat, p: Event -> bool): set<nat>
    requires n <= |h|
  {
    set i: nat | i < n && p(h[i])
  }

  /** A figure of call i. */
  ghost function At(h: seq<Event>, v: Event -> real): nat -> real {
    (i: nat) => if i < |h| then v(h[i]) else 0.0
  }

  // --- Which calls count in which figure. Kinds are 0 (L0 to Lbase), 1 (Lbase+), 2 (intra-L0), 3 (move).

  function IsKind(k: int): Event -> bool {
    (e: Event) => e.kind == k
  }

  /** A fan-in ratio needs bytes from the level the compaction started in: L0, or the start level. */
  function HasRatio(k: int): Event -> bool {
    (e: Event) => e.kind == k && ((k == 0 && e.l0Bytes > 0) || (k == 1 && e.startBytes > 0))
  }

  /** A share needs an Lbase-bound or Lbase+ compaction into a level whose size was known. */
  function HasShare(k: int): Event -> bool {
    (e: Event) => e.kind == k && (k == 0 || k == 1) && e.dstBytes > 0
  }

  function HasDepth(k: int): Event -> bool {
    (e: Event) => e.kind == k && e.sublevels > 0
  }

  function FanInRatio(): Event -> real {
    (e: Event) => var source := if e.kind == 0 then e.l0Bytes else e.startBytes;
      if source > 0 then e.fanInBytes as real / source as real else 0.0
  }

  function ShareOfOutput(): Event -> real {
    (e: Event) => if e.dstBytes > 0 then e.fanInBytes as real / e.dstBytes as real else 0.0
  }

  function Depth(): Event -> real {
    (e: Event) => e.sublevels as real
  }

  function L0Read(): Event -> real { (e: Event) => e.l0Bytes as real }
  function StartRead(): Event -> real { (e: Event) => e.startBytes as real }
  function FanInRead(): Event -> real { (e: Event) => e.fanInBytes as real }
  function Output(): Event -> real { (e: Event) => e.outputBytes as real }
  function Time(): Event -> real { (e: Event) => e.duration as real }

  /** The sum, least and greatest of v over the calls that satisfy p; no least when there are none. */
  ghost predicate SpreadOf(s: Spread, h: seq<Event>, p: Event -> bool, v: Event -> real) {
    var calls := Calls(h, |h|, p);
    && s.sum == Total(calls, At(h, v))
    && (forall i :: i in calls ==> v(h[i]) <= s.max)
    && (s.max == 0.0 || exists i :: i in calls && v(h[i]) == s.max)
    && s.max >= 0.0
    && (if s.min.Infinite? then calls == {}
        else (forall i :: i in calls ==> s.min.value <= v(h[i])) && exists i :: i in calls && v(h[i]) == s.min.value)
  }

  ghost predicate SumsTo(x: int, h: seq<Event>, k: int, v: Event -> real) {
    x as real == Total(Calls(h, |h|, IsKind(k)), At(h, v))
  }

  ghost predicate DepthsOf(b: Bucket, h: seq<Event>, k: int) {
    var calls := Calls(h, |h|, HasDepth(k));
    && b.sublevelCount == |calls|
    && b.sumSublevels as real == Total(calls, At(h, Depth()))
    && (forall i :: i in calls ==> h[i].sublevels <= b.maxSublevels)
    && (if calls == {} then b.maxSublevels == 0 else exists i :: i in calls && h[i].sublevels == b.maxSublevels)
  }

  /** Everything the bucket of kind k holds. */
  ghost predicate KindFigures(b: Bucket, h: seq<Event>, k: int) {
    && b.count == |Calls(h, |h|, IsKind(k))|
    && SumsTo(b.l0Bytes, h, k, L0Read()) && SumsTo(b.startBytes, h, k, StartRead())
    && SumsTo(b.fanInBytes, h, k, FanInRead()) && SumsTo(b.outputBytes, h, k, Output())
    && SumsTo(b.duration, h, k, Time())
    && SpreadOf(b.fanIn, h, HasRatio(k), FanInRatio())
    && SpreadOf(b.pct, h, HasShare(k), ShareOfOutput())
    && b.pctCount == |Calls(h, |h|, HasShare(k))|
    && DepthsOf(b, h, k)
  }

  // --- The values of v at the calls that satisfy p, in order.

  ghost function Picked(h: seq<Event>, p: Event -> bool, v: Event -> real): seq<real> {
    if h == [] then []
    else
      var e := h[|h| - 1];
      Picked(h[..|h| - 1], p, v) + if p(e) then [v(e)] else []
  }

  lemma CallsGrow(h: seq<Event>, n: nat, p: Event -> bool)
    requires n <= |h|
    ensures n < |h| ==> Calls(h, n + 1, p) == Calls(h, n, p) + if p(h[n]) then {n} else {}
    ensures n !in Calls(h, n, p) && Calls(h, 0, p) == {}
    ensures Calls(h[..n], n, p) == Calls(h, n, p)
  {}

  lemma {:induction false} PickedIsTotal(h: seq<Event>, n: nat, p: Event -> bool, v: Event -> real)
    requires n <= |h|
    ensures SumReal(Picked(h[..n], p, v)) == Total(Calls(h, n, p), At(h, v))
    ensures |Picked(h[..n], p, v)| == |Calls(h, n, p)|
    ensures forall x :: x in Picked(h[..n], p, v) <==> exists i :: i in Calls(h, n, p) && v(h[i]) == x
  {
    hide Total, Calls;
    if n == 0 {
      CallsGrow(h, 0, p);
      TotalAdd<nat>({}, 0, At(h, v));
    } else {
      var last: nat := n - 1;
      var was, now := Calls(h, last, p), Calls(h, n, p);
      PickedIsTotal(h, last, p, v);
      CallsGrow(h, last, p);
      TotalAdd<nat>(was, last, At(h, v));
      assert h[..n][..last] == h[..last];
      var xs := Picked(h[..last], p, v);
      if p(h[last]) {
        SumRealAppend(xs, v(h[last]));
        assert Picked(h[..n], p, v) == xs + [v(h[last])];
        assert forall i :: i in now <==> i in was || i == last;
      } else {
        assert Picked(h[..n], p, v) == xs && now == was;
      }
    }
  }

  lemma {:induction false} InPicked(h: seq<Event>, p: Event -> bool, v: Event -> real, i: nat)
    requires i < |h| && p(h[i])
    ensures v(h[i]) in Picked(h, p, v)
  {
    if i < |h| - 1 {
      InPicked(h[..|h| - 1], p, v, i);
    }
  }

  lemma SumRealAppend(xs: seq<real>, x: real)
    ensures SumReal(xs + [x]) == SumReal(xs) + x
  {
    assert (xs + [x])[..|xs|] == xs;
  }

  lemma SpansAreSpread(s: Spread, h: seq<Event>, p: Event -> bool, v: Event -> real)
    requires Spans(s, Picked(h, p, v))
    ensures SpreadOf(s, h, p, v)
  {
    PickedIsTotal(h, |h|, p, v);
    assert h[..|h|] == h;
    hide Picked, Total;
    var xs, calls := Picked(h, p, v), Calls(h, |h|, p);
    forall i | i in calls ensures v(h[i]) in xs {
      InPicked(h, p, v, i);
    }
    assert |xs| == 0 <==> calls == {};
  }

  // --- The bucket's own lists are those values.

  /** What one more call adds to each. */
  lemma ListsGrow(h: seq<Event>, k: int)
    requires h != []
    ensures var n := |h| - 1;
            var e, was := h[n], OfKind(h[..n], k);
            if e.kind != k then OfKind(h, k) == was
            else
              && OfKind(h, k) == was + [e]
              && (forall f: Event -> int :: SumBy(OfKind(h, k), f) == SumBy(was, f) + f(e))
              && Ratios(OfKind(h, k)) == (if Source(e) > 0 then Ratios(was) + [Ratio(e)] else Ratios(was))
              && Pcts(OfKind(h, k)) ==
                 (if HasPct(e) then Pcts(was) + [e.fanInBytes as real / e.dstBytes as real] else Pcts(was))
              && Depths(OfKind(h, k)) == if e.sublevels > 0 then Depths(was) + [e.sublevels] else Depths(was)
  {
    hide SumBy, Ratios, Pcts, Depths;
    var n := |h| - 1;
    AppendFacts(OfKind(h[..n], k), h[n]);
  }

  lemma {:induction false} RatiosArePicked(h: seq<Event>, k: int)
    ensures Ratios(OfKind(h, k)) == Picked(h, HasRatio(k), FanInRatio())
  {
    if h != [] {
      hide OfKind, SumBy, Pcts, Depths;
      RatiosArePicked(h[..|h| - 1], k);
      ListsGrow(h, k);
    }
  }

  lemma {:induction false} PctsArePicked(h: seq<Event>, k: int)
    ensures Pcts(OfKind(h, k)) == Picked(h, HasShare(k), ShareOfOutput())
  {
    if h != [] {
      hide OfKind, SumBy, Ratios, Depths;
      PctsArePicked(h[..|h| - 1], k);
      ListsGrow(h, k);
    }
  }

  lemma {:induction false} DepthsArePicked(h: seq<Event>, k: int)
    ensures |Depths(OfKind(h, k))| == |Picked(h, HasDepth(k), Depth())|
    ensures forall i :: 0 <= i < |Depths(OfKind(h, k))| ==>
              Depths(OfKind(h, k))[i] as real == Picked(h, HasDepth(k), Depth())[i]
  {
    if h != [] {
      hide OfKind, SumBy, Ratios, Pcts;
      DepthsArePicked(h[..|h| - 1], k);
      ListsGrow(h, k);
    }
  }

  lemma {:induction false} SameSums(ds: seq<int>, xs: seq<real>)
    requires |ds| == |xs| && forall i :: 0 <= i < |ds| ==> ds[i] as real == xs[i]
    ensures Sum(ds) as real == SumReal(xs)
  {
    if ds != [] {
      var n := |ds| - 1;
      SameSums(ds[..n], xs[..n]);
      SumAppend(ds[..n], ds[n]);
      assert ds == ds[..n] + [ds[n]];
    }
  }

  lemma {:induction false} SumByIsPicked(h: seq<Event>, k: int, f: Event -> int, v: Event -> real)
    requires forall e :: f(e) as real == v(e)
    ensures SumBy(OfKind(h, k), f) as real == SumReal(Picked(h, IsKind(k), v))
    ensures |OfKind(h, k)| == |Picked(h, IsKind(k), v)|
  {
    if h != [] {
      hide OfKind, Ratios, Pcts, Depths, SumReal, SumBy;
      var n := |h| - 1;
      SumByIsPicked(h[..n], k, f, v);
      ListsGrow(h, k);
      SumRealAppend(Picked(h[..n], IsKind(k), v), v(h[n]));
      if h[n].kind != k {
        assert Picked(h, IsKind(k), v) == Picked(h[..n], IsKind(k), v);
      }
    } else {
      assert Picked(h, IsKind(k), v) == [];
    }
  }

  lemma SumIsTotal(h: seq<Event>, k: int, f: Event -> int, v: Event -> real)
    requires forall e :: f(e) as real == v(e)
    ensures SumsTo(SumBy(OfKind(h, k), f), h, k, v)
  {
    hide SumBy, OfKind, Picked, Total, Calls;
    SumByIsPicked(h, k, f, v);
    PickedIsTotal(h, |h|, IsKind(k), v);
    assert h[..|h|] == h;
  }

  lemma DepthsHold(b: Bucket, h: seq<Event>, k: int)
    requires DepthsSummarized(b, Depths(OfKind(h, k)))
    ensures DepthsOf(b, h, k)
  {
    hide OfKind, Depths, Picked, Total, Sum, SumReal;
    DepthsArePicked(h, k);
    PickedIsTotal(h, |h|, HasDepth(k), Depth());
    assert h[..|h|] == h;
    var ds, xs, calls := Depths(OfKind(h, k)), Picked(h, HasDepth(k), Depth()), Calls(h, |h|, HasDepth(k));
    SameSums(ds, xs);
    forall i | i in calls ensures h[i].sublevels in ds {
      InPicked(h, HasDepth(k), Depth(), i);
      var j :| 0 <= j < |xs| && xs[j] == Depth()(h[i]);
      assert ds[j] == h[i].sublevels;
    }
    forall d | d in ds ensures exists i :: i in calls && h[i].sublevels == d {
      var j :| 0 <= j < |ds| && ds[j] == d;
      assert xs[j] in xs;
      var i :| i in calls && Depth()(h[i]) == xs[j];
    }
    if calls != {} {
      var i :| i in calls;
      assert h[i].sublevels > 0;
    }
  }

  /** A bucket that summarizes the calls of its kind has their figures. */
  lemma SummaryIsFigures(b: Bucket, h: seq<Event>, k: int)
    requires Summarizes(b, OfKind(h, k))
    ensures KindFigures(b, h, k)
  {
    hide OfKind, Picked, Total, Calls, Sum, SumBy, Ratios, Pcts, Depths, Spans, SpreadOf, DepthsOf, DepthsSummarized;
    RatiosArePicked(h, k);
    PctsArePicked(h, k);
    SumByIsPicked(h, k, L0Of, L0Read());
    SumIsTotal(h, k, L0Of, L0Read());
    SumIsTotal(h, k, StartOf, StartRead());
    SumIsTotal(h, k, FanInOf, FanInRead());
    SumIsTotal(h, k, OutputOf, Output());
    SumIsTotal(h, k, DurationOf, Time());
    SpansAreSpread(b.fanIn, h, HasRatio(k), FanInRatio());
    SpansAreSpread(b.pct, h, HasShare(k), ShareOfOutput());
    PickedIsTotal(h, |h|, IsKind(k), L0Read());
    PickedIsTotal(h, |h|, HasShare(k), ShareOfOutput());
    assert h[..|h|] == h;
    DepthsHold(b, h, k);
  }

  /** At any time in any run, every bucket has the figures of the calls of its kind. */
  lemma TrackerFigures(t: CompactionTracker)
    requires t.Valid()
    ensures forall k :: 0 <= k < 4 ==> KindFigures(t.buckets[k], t.history, k)
  {
    hide Summarizes, OfKind, KindFigures;
    forall k | 0 <= k < 4 ensures KindFigures(t.buckets[k], t.history, k) {
      SummaryIsFigures(t.buckets[k], t.history, k);
    }
  }

  /**
   * The ratios reported: fan-in bytes over source bytes of all the calls, and the sum of the calls'
   * own ratios over the number of calls.
   */
  lemma RatiosReported(b: Bucket, h: seq<Event>, k: int)
    requires KindFigures(b, h, k)
    ensures var calls := Calls(h, |h|, IsKind(k));
            var source := Total(calls, At(h, L0Read())) + Total(calls, At(h, StartRead()));
            && (if source > 0.0 then WeightedFanInRatio(b) * source == Total(calls, At(h, FanInRead()))
                else WeightedFanInRatio(b) == 0.0)
            && (if calls != {}
                then AvgFanInRatio(b) * |calls| as real == Total(Calls(h, |h|, HasRatio(k)), At(h, FanInRatio()))
                else AvgFanInRatio(b) == 0.0)
  {
    hide Total, Calls, SpreadOf, DepthsOf;
    SpreadSum(b.fanIn, h, k);
    if SourceBytes(b) > 0 {
      QuotientTimes(b.fanInBytes as real, SourceBytes(b));
    }
    if b.count > 0 {
      QuotientTimes(b.fanIn.sum, b.count);
    }
  }

  lemma SpreadSum(s: Spread, h: seq<Event>, k: int)
    requires SpreadOf(s, h, HasRatio(k), FanInRatio())
    ensures s.sum == Total(Calls(h, |h|, HasRatio(k)), At(h, FanInRatio()))
  {}

  lemma QuotientTimes(x: real, n: nat)
    requires n > 0
    ensures x / n as real * n as real == x
  {}
}
