// metrics/compaction.go: per-kind compaction accounting over a whole run, and the ratios
// metrics/reporter.go derives from it. Byte counts are unbounded and ratios are reals.
module Compactions {
  import opened Numbers
  import opened Sequences

  const L0_LBASE: int := 0
  const LBASE_PLUS: int := 1
  const INTRA_L0: int := 2
  const MOVE: int := 3
  const NUM_KINDS: nat := 4
  const NUM_LEVELS: nat := 7

  /** A minimum that starts out at plus infinity. */
  datatype Bound = Infinite | Finite(value: real)

  /** A running sum with its extremes. */
  datatype Spread = Spread(sum: real, min: Bound, max: real)

  const NO_SPREAD := Spread(0.0, Infinite, 0.0)

  datatype Bucket = Bucket(
    count: nat, l0Bytes: nat, startBytes: nat, fanInBytes: nat, outputBytes: nat, duration: int,
    fanIn: Spread, pctCount: nat, pct: Spread,
    sublevelCount: nat, sumSublevels: int, maxSublevels: int)

  const NO_BUCKET := Bucket(0, 0, 0, 0, 0, 0, NO_SPREAD, 0, NO_SPREAD, 0, 0, 0)

  /** One call of Record, with the destination level's size as the tracker knew it then. */
  datatype Event = Event(kind: int, outputLevel: int, l0Bytes: nat, startBytes: nat, fanInBytes: nat,
                         outputBytes: nat, sublevels: int, duration: int, dstBytes: nat)

  // --- What a bucket should hold, given its events.

  function L0Of(e: Event): int { e.l0Bytes }
  function StartOf(e: Event): int { e.startBytes }
  function FanInOf(e: Event): int { e.fanInBytes }
  function OutputOf(e: Event): int { e.outputBytes }
  function DurationOf(e: Event): int { e.duration }

  function SumBy(es: seq<Event>, f: Event -> int): int {
    if es == [] then 0 else SumBy(es[..|es| - 1], f) + f(es[|es| - 1])
  }

  /** The bytes read from the level the compaction started in; none for kinds without a fan-in. */
  function Source(e: Event): nat {
    if e.kind == L0_LBASE then e.l0Bytes else if e.kind == LBASE_PLUS then e.startBytes else 0
  }

  function SourceOf(e: Event): int { Source(e) }

  function Ratio(e: Event): real
    requires Source(e) > 0
  {
    e.fanInBytes as real / Source(e) as real
  }

  function Ratios(es: seq<Event>): seq<real> {
    if es == [] then []
    else
      var e := es[|es| - 1];
      Ratios(es[..|es| - 1]) + if Source(e) > 0 then [Ratio(e)] else []
  }

  predicate HasPct(e: Event) {
    (e.kind == L0_LBASE || e.kind == LBASE_PLUS) && e.dstBytes > 0
  }

  function Pcts(es: seq<Event>): seq<real> {
    if es == [] then []
    else
      var e := es[|es| - 1];
      Pcts(es[..|es| - 1]) + if HasPct(e) then [e.fanInBytes as real / e.dstBytes as real] else []
  }

  /** The overlap depths observed: compactions that consumed L0. */
  function Depths(es: seq<Event>): seq<int> {
    if es == [] then []
    else
      var e := es[|es| - 1];
      Depths(es[..|es| - 1]) + if e.sublevels > 0 then [e.sublevels] else []
  }

  function SumReal(rs: seq<real>): real {
    if rs == [] then 0.0 else SumReal(rs[..|rs| - 1]) + rs[|rs| - 1]
  }

  /** The sum, the least (infinite when there is none) and the greatest (from zero) of rs. */
  ghost predicate Spans(s: Spread, rs: seq<real>) {
    && s.sum == SumReal(rs)
    && (rs == [] <==> s.min.Infinite?)
    && (s.min.Finite? ==> s.min.value in rs && forall r :: r in rs ==> s.min.value <= r)
    && (s.max == 0.0 || s.max in rs)
    && s.max >= 0.0 && forall r :: r in rs ==> r <= s.max
  }

  ghost predicate Summarizes(b: Bucket, es: seq<Event>) {
    && b.count == |es|
    && b.l0Bytes == SumBy(es, L0Of) && b.startBytes == SumBy(es, StartOf)
    && b.fanInBytes == SumBy(es, FanInOf) && b.outputBytes == SumBy(es, OutputOf)
    && b.duration == SumBy(es, DurationOf)
    && Spans(b.fanIn, Ratios(es))
    && Spans(b.pct, Pcts(es)) && b.pctCount == |Pcts(es)|
    && DepthsSummarized(b, Depths(es))
  }

  ghost predicate DepthsSummarized(b: Bucket, ds: seq<int>) {
    && b.sublevelCount == |ds| && b.sumSublevels == Sum(ds)
    && b.maxSublevels >= 0 && (b.maxSublevels == 0 || b.maxSublevels in ds)
    && forall d :: d in ds ==> d <= b.maxSublevels
  }

  /** The events of one kind, in order. */
  function OfKind(es: seq<Event>, kind: int): seq<Event> {
    if es == [] then []
    else
      var e := es[|es| - 1];
      OfKind(es[..|es| - 1], kind) + if e.kind == kind then [e] else []
  }

  // --- The tracker.

  /** One more observation in a spread. */
  function Observe(s: Spread, r: real): Spread {
    Spread(s.sum + r, if s.min.Infinite? || r < s.min.value then Finite(r) else s.min,
           if r > s.max then r else s.max)
  }

  function Shown(s: Spread): Spread {
    if s.min.Infinite? then s.(min := Finite(0.0)) else s
  }

  lemma ObserveSpans(s: Spread, rs: seq<real>, r: real)
    requires Spans(s, rs)
    ensures Spans(Observe(s, r), rs + [r])
  {
    assert (rs + [r])[..|rs|] == rs;
    assert forall x :: x in rs + [r] <==> x in rs || x == r;
  }

  class CompactionTracker {
    var buckets: seq<Bucket>
    var levelBytes: seq<nat>
    ghost var history: seq<Event>

    /** Every bucket summarizes exactly the events of its kind since the run began. */
    ghost predicate Valid()
      reads this
    {
      && |buckets| == NUM_KINDS && |levelBytes| == NUM_LEVELS
      && (forall e :: e in history ==> 0 <= e.kind < NUM_KINDS)
      && forall k :: 0 <= k < NUM_KINDS ==> Summarizes(buckets[k], OfKind(history, k))
    }

    constructor ()
      ensures Valid() && history == []
    {
      buckets := [NO_BUCKET, NO_BUCKET, NO_BUCKET, NO_BUCKET];
      levelBytes := [0, 0, 0, 0, 0, 0, 0];
      history := [];
    }

    /** The most recent per-level sizes; a negative size counts as zero. */
    method SetLevelBytes(sizes: seq<int>)
      requires Valid() && |sizes| == NUM_LEVELS
      modifies this`levelBytes
      ensures Valid()
      ensures forall i :: 0 <= i < NUM_LEVELS ==> levelBytes[i] == Max(sizes[i], 0)
    {
      for i := 0 to NUM_LEVELS
        invariant Valid()
        invariant forall j :: 0 <= j < i ==> levelBytes[j] == Max(sizes[j], 0)
      {
        levelBytes := levelBytes[i := if sizes[i] < 0 then 0 else sizes[i]];
      }
    }

    /** The event a call of Record stands for. */
    function EventOf(kind: int, outputLevel: int, l0Bytes: nat, startBytes: nat, fanInBytes: nat,
                     outputBytes: nat, sublevels: int, duration: int): Event
      reads this
      requires |levelBytes| == NUM_LEVELS
    {
      Event(kind, outputLevel, l0Bytes, startBytes, fanInBytes, outputBytes, sublevels, duration,
            if 0 <= outputLevel < NUM_LEVELS then levelBytes[outputLevel] else 0)
    }

    method Record(kind: int, outputLevel: int, l0Bytes: nat, startBytes: nat, fanInBytes: nat,
                  outputBytes: nat, sublevels: int, duration: int)
      requires Valid()
      modifies this`buckets, this`history
      ensures Valid()
      ensures history == old(history) +
              (if 0 <= kind < NUM_KINDS
               then [EventOf(kind, outputLevel, l0Bytes, startBytes, fanInBytes, outputBytes, sublevels, duration)]
               else [])
    {
      hide Summarizes, OfKind, Observe;
      if kind < 0 || kind >= NUM_KINDS {
        return;
      }
      ghost var e := EventOf(kind, outputLevel, l0Bytes, startBytes, fanInBytes, outputBytes, sublevels, duration);
      var b := buckets[kind];
      b := b.(count := b.count + 1, l0Bytes := b.l0Bytes + l0Bytes, startBytes := b.startBytes + startBytes,
              fanInBytes := b.fanInBytes + fanInBytes, outputBytes := b.outputBytes + outputBytes,
              duration := b.duration + duration);
      if sublevels > 0 {
        b := b.(sublevelCount := b.sublevelCount + 1, sumSublevels := b.sumSublevels + sublevels);
        if sublevels > b.maxSublevels {
          b := b.(maxSublevels := sublevels);
        }
      }
      if kind != INTRA_L0 && kind != MOVE {
        var source := if kind == L0_LBASE then l0Bytes else startBytes;
        if source > 0 {
          b := b.(fanIn := Observe(b.fanIn, fanInBytes as real / source as real));
        }
        if 0 <= outputLevel < NUM_LEVELS {
          var dst := levelBytes[outputLevel];
          if dst > 0 {
            b := b.(pctCount := b.pctCount + 1, pct := Observe(b.pct, fanInBytes as real / dst as real));
          }
        }
      }
      EventAdded(buckets[kind], b, OfKind(history, kind), e);
      HistoryGrows(history, e);
      history := history + [e];
      buckets := buckets[kind := b];
    }

    /** A copy of the buckets for reporting, a minimum nothing was observed for showing as zero. */
    method Stats() returns (out: seq<Bucket>)
      requires Valid()
      ensures |out| == NUM_KINDS
      ensures forall k :: 0 <= k < NUM_KINDS ==>
                out[k] == buckets[k].(fanIn := Shown(buckets[k].fanIn), pct := Shown(buckets[k].pct))
    {
      hide Summarizes, OfKind;
      out := buckets;
      for k := 0 to NUM_KINDS
        invariant |out| == NUM_KINDS
        invariant forall j :: k <= j < NUM_KINDS ==> out[j] == buckets[j]
        invariant forall j :: 0 <= j < k ==>
                    out[j] == buckets[j].(fanIn := Shown(buckets[j].fanIn), pct := Shown(buckets[j].pct))
      {
        if out[k].fanIn.min.Infinite? {
          out := out[k := out[k].(fanIn := out[k].fanIn.(min := Finite(0.0)))];
        }
        if out[k].pct.min.Infinite? {
          out := out[k := out[k].(pct := out[k].pct.(min := Finite(0.0)))];
        }
      }
    }
  }

  /** What one event adds to its bucket. */
  ghost predicate Adds(b: Bucket, b': Bucket, e: Event) {
    && b'.count == b.count + 1
    && b'.l0Bytes == b.l0Bytes + e.l0Bytes && b'.startBytes == b.startBytes + e.startBytes
    && b'.fanInBytes == b.fanInBytes + e.fanInBytes && b'.outputBytes == b.outputBytes + e.outputBytes
    && b'.duration == b.duration + e.duration
    && b'.fanIn == (if Source(e) > 0 then Observe(b.fanIn, Ratio(e)) else b.fanIn)
    && b'.pct == (if HasPct(e) then Observe(b.pct, e.fanInBytes as real / e.dstBytes as real) else b.pct)
    && b'.pctCount == b.pctCount + (if HasPct(e) then 1 else 0)
    && b'.sublevelCount == b.sublevelCount + (if e.sublevels > 0 then 1 else 0)
    && b'.sumSublevels == b.sumSublevels + (if e.sublevels > 0 then e.sublevels else 0)
    && b'.maxSublevels == (if e.sublevels > 0 then Max(b.maxSublevels, e.sublevels) else b.maxSublevels)
  }

  lemma AppendFacts(es: seq<Event>, e: Event)
    ensures forall f: Event -> int {:trigger SumBy(es + [e], f)} :: SumBy(es + [e], f) == SumBy(es, f) + f(e)
    ensures Ratios(es + [e]) == if Source(e) > 0 then Ratios(es) + [Ratio(e)] else Ratios(es)
    ensures Pcts(es + [e]) ==
            if HasPct(e) then Pcts(es) + [e.fanInBytes as real / e.dstBytes as real] else Pcts(es)
    ensures Depths(es + [e]) == if e.sublevels > 0 then Depths(es) + [e.sublevels] else Depths(es)
  {
    assert (es + [e])[..|es|] == es;
  }

  lemma DepthAdded(b: Bucket, b': Bucket, ds: seq<int>, d: int)
    requires DepthsSummarized(b, ds) && d > 0
    requires b'.sublevelCount == b.sublevelCount + 1 && b'.sumSublevels == b.sumSublevels + d
    requires b'.maxSublevels == Max(b.maxSublevels, d)
    ensures DepthsSummarized(b', ds + [d])
  {
    SumAppend(ds, d);
    assert forall x :: x in ds + [d] <==> x in ds || x == d;
  }

  lemma EventAdded(b: Bucket, b': Bucket, es: seq<Event>, e: Event)
    requires Summarizes(b, es) && Adds(b, b', e)
    ensures Summarizes(b', es + [e])
  {
    AppendFacts(es, e);
    hide Spans, SumBy, Ratios, Pcts, Depths;
    if Source(e) > 0 {
      ObserveSpans(b.fanIn, Ratios(es), Ratio(e));
    }
    if HasPct(e) {
      ObserveSpans(b.pct, Pcts(es), e.fanInBytes as real / e.dstBytes as real);
    }
    if e.sublevels > 0 {
      DepthAdded(b, b', Depths(es), e.sublevels);
    }
  }

  lemma HistoryGrows(es: seq<Event>, e: Event)
    ensures forall k :: OfKind(es + [e], k) == if e.kind == k then OfKind(es, k) + [e] else OfKind(es, k)
  {
    assert (es + [e])[..|es|] == es;
  }

  // --- Conservation: every event is in exactly one bucket.

  ghost function AcrossKinds(es: seq<Event>, f: Event -> int, kinds: nat): int {
    if kinds == 0 then 0 else AcrossKinds(es, f, kinds - 1) + SumBy(OfKind(es, kinds - 1), f)
  }

  lemma {:induction false} AcrossKindsAppend(es: seq<Event>, e: Event, f: Event -> int, kinds: nat)
    ensures AcrossKinds(es + [e], f, kinds) == AcrossKinds(es, f, kinds) + if 0 <= e.kind < kinds then f(e) else 0
  {
    hide SumBy, OfKind;
    if kinds > 0 {
      AcrossKindsAppend(es, e, f, kinds - 1);
      HistoryGrows(es, e);
      AppendFacts(OfKind(es, kinds - 1), e);
    }
  }

  lemma {:induction false} AcrossKindsIsAll(es: seq<Event>, f: Event -> int)
    requires forall e :: e in es ==> 0 <= e.kind < NUM_KINDS
    ensures AcrossKinds(es, f, NUM_KINDS) == SumBy(es, f)
  {
    if es == [] {
      NothingAcross(f, NUM_KINDS);
    } else {
      var n := |es| - 1;
      assert es == es[..n] + [es[n]];
      AcrossKindsIsAll(es[..n], f);
      AcrossKindsAppend(es[..n], es[n], f, NUM_KINDS);
    }
  }

  lemma {:induction false} NothingAcross(f: Event -> int, kinds: nat)
    ensures AcrossKinds([], f, kinds) == 0
  {
    if kinds > 0 {
      NothingAcross(f, kinds - 1);
    }
  }

  function One(e: Event): int { 1 }

  lemma {:induction false} CountIsLength(es: seq<Event>)
    ensures SumBy(es, One) == |es|
  {
    if es != [] {
      CountIsLength(es[..|es| - 1]);
    }
  }

  /**
   * Across the buckets, counts, input bytes of each sort and output bytes add up to those of
   * every compaction recorded.
   */
  lemma {:induction false} BucketsConserve(bs: seq<Bucket>, es: seq<Event>)
    requires |bs| == NUM_KINDS && forall e :: e in es ==> 0 <= e.kind < NUM_KINDS
    requires forall k :: 0 <= k < NUM_KINDS ==> Summarizes(bs[k], OfKind(es, k))
    ensures bs[0].count + bs[1].count + bs[2].count + bs[3].count == |es|
    ensures bs[0].l0Bytes + bs[1].l0Bytes + bs[2].l0Bytes + bs[3].l0Bytes == SumBy(es, L0Of)
    ensures bs[0].startBytes + bs[1].startBytes + bs[2].startBytes + bs[3].startBytes == SumBy(es, StartOf)
    ensures bs[0].fanInBytes + bs[1].fanInBytes + bs[2].fanInBytes + bs[3].fanInBytes == SumBy(es, FanInOf)
    ensures bs[0].outputBytes + bs[1].outputBytes + bs[2].outputBytes + bs[3].outputBytes == SumBy(es, OutputOf)
  {
    hide SumBy, OfKind, AcrossKinds, Spans, DepthsSummarized, Ratios, Pcts, Depths;
    Split(es, One);
    Split(es, L0Of);
    Split(es, StartOf);
    Split(es, FanInOf);
    Split(es, OutputOf);
    CountIsLength(es);
    CountIsLength(OfKind(es, 0));
    CountIsLength(OfKind(es, 1));
    CountIsLength(OfKind(es, 2));
    CountIsLength(OfKind(es, 3));
  }

  lemma Split(es: seq<Event>, f: Event -> int)
    requires forall e :: e in es ==> 0 <= e.kind < NUM_KINDS
    ensures SumBy(es, f) ==
            SumBy(OfKind(es, 0), f) + SumBy(OfKind(es, 1), f) + SumBy(OfKind(es, 2), f) + SumBy(OfKind(es, 3), f)
  {
    AcrossKindsIsAll(es, f);
    assert AcrossKinds(es, f, 1) == SumBy(OfKind(es, 0), f);
    assert AcrossKinds(es, f, 2) == AcrossKinds(es, f, 1) + SumBy(OfKind(es, 1), f);
    assert AcrossKinds(es, f, 3) == AcrossKinds(es, f, 2) + SumBy(OfKind(es, 2), f);
  }

  // --- Ratios.

  function SourceBytes(b: Bucket): nat {
    b.l0Bytes + b.startBytes
  }

  function WeightedFanInRatio(b: Bucket): real {
    if SourceBytes(b) == 0 then 0.0 else b.fanInBytes as real / SourceBytes(b) as real
  }

  function AvgFanInRatio(b: Bucket): real {
    if b.count == 0 then 0.0 else b.fanIn.sum / b.count as real
  }

  /** The compaction read something from its starting level, and from L0 or the start level only. */
  ghost predicate OneSource(e: Event) {
    (e.kind == L0_LBASE || e.kind == LBASE_PLUS) && Source(e) > 0 && e.l0Bytes + e.startBytes == Source(e)
  }

  ghost predicate AtLeast(low: real, weight: int, sum: int) {
    low * weight as real <= sum as real
  }

  ghost predicate AtMost(high: real, weight: int, sum: int) {
    sum as real <= high * weight as real
  }

  lemma RatioBrackets(e: Event, low: real, high: real)
    requires Source(e) > 0 && low <= Ratio(e) <= high
    ensures AtLeast(low, Source(e), e.fanInBytes) && AtMost(high, Source(e), e.fanInBytes)
  {
    var s := Source(e) as real;
    assert e.fanInBytes as real == Ratio(e) * s;
    assert low * s <= Ratio(e) * s <= high * s;
  }

  lemma {:induction false} RatioListed(es: seq<Event>, e: Event)
    requires e in es && Source(e) > 0
    ensures Ratio(e) in Ratios(es)
  {
    if es[|es| - 1] != e {
      RatioListed(es[..|es| - 1], e);
    }
  }

  lemma AddAtLeast(low: real, weight: int, sum: int, w: int, f: int)
    requires AtLeast(low, weight, sum) && AtLeast(low, w, f)
    ensures AtLeast(low, weight + w, sum + f)
  {
    var x, y := weight as real, w as real;
    assert (weight + w) as real == x + y;
    assert low * (x + y) == low * x + low * y;
  }

  lemma AddAtMost(high: real, weight: int, sum: int, w: int, f: int)
    requires AtMost(high, weight, sum) && AtMost(high, w, f)
    ensures AtMost(high, weight + w, sum + f)
  {
    var x, y := weight as real, w as real;
    assert (weight + w) as real == x + y;
    assert high * (x + y) == high * x + high * y;
  }

  /** The mediant inequality over a whole bucket, from below; an event without a source weighs nothing. */
  lemma {:induction false} FanInAtLeast(es: seq<Event>, low: real)
    requires forall e :: e in es ==> AtLeast(low, Source(e), e.fanInBytes)
    ensures AtLeast(low, SumBy(es, SourceOf), SumBy(es, FanInOf))
  {
    if es != [] {
      hide AtLeast;
      var n := |es| - 1;
      assert es[n] in es;
      FanInAtLeast(es[..n], low);
      AddAtLeast(low, SumBy(es[..n], SourceOf), SumBy(es[..n], FanInOf), Source(es[n]), es[n].fanInBytes);
    }
  }

  /** The mediant inequality over a whole bucket, from above. */
  lemma {:induction false} FanInAtMost(es: seq<Event>, high: real)
    requires forall e :: e in es ==> AtMost(high, Source(e), e.fanInBytes)
    ensures AtMost(high, SumBy(es, SourceOf), SumBy(es, FanInOf))
  {
    if es != [] {
      hide AtMost;
      var n := |es| - 1;
      assert es[n] in es;
      FanInAtMost(es[..n], high);
      AddAtMost(high, SumBy(es[..n], SourceOf), SumBy(es[..n], FanInOf), Source(es[n]), es[n].fanInBytes);
    }
  }

  lemma FanInBrackets(es: seq<Event>, low: real, high: real)
    requires forall e :: e in es ==> Source(e) > 0 && low <= Ratio(e) <= high
    ensures AtLeast(low, SumBy(es, SourceOf), SumBy(es, FanInOf))
    ensures AtMost(high, SumBy(es, SourceOf), SumBy(es, FanInOf))
  {
    hide AtLeast, AtMost, Ratio, SumBy;
    forall e | e in es
      ensures AtLeast(low, Source(e), e.fanInBytes) && AtMost(high, Source(e), e.fanInBytes)
    {
      RatioBrackets(e, low, high);
    }
    FanInAtLeast(es, low);
    FanInAtMost(es, high);
  }

  lemma {:induction false} SourcesAdd(es: seq<Event>)
    requires forall e :: e in es ==> OneSource(e)
    ensures SumBy(es, SourceOf) == SumBy(es, L0Of) + SumBy(es, StartOf) && SumBy(es, SourceOf) >= |es|
    ensures |Ratios(es)| == |es|
  {
    if es != [] {
      SourcesAdd(es[..|es| - 1]);
      assert OneSource(es[|es| - 1]);
    }
  }

  lemma {:induction false} SumBrackets(rs: seq<real>, low: real, high: real)
    requires forall r :: r in rs ==> low <= r <= high
    ensures low * |rs| as real <= SumReal(rs) <= high * |rs| as real
  {
    if rs != [] {
      var n := |rs| - 1;
      forall r | r in rs[..n] ensures r in rs {}
      SumBrackets(rs[..n], low, high);
      assert rs[n] in rs;
      assert low * |rs| as real == low * n as real + low && high * |rs| as real == high * n as real + high;
    }
  }

  lemma EachWithin(s: Spread, es: seq<Event>)
    requires Spans(s, Ratios(es)) && es != [] && forall e :: e in es ==> Source(e) > 0
    ensures s.min.Finite? && forall e :: e in es ==> s.min.value <= Ratio(e) <= s.max
  {
    hide Ratio;
    RatioListed(es, es[0]);
    forall e | e in es ensures s.min.value <= Ratio(e) <= s.max {
      RatioListed(es, e);
    }
  }

  lemma WeightedInRange(b: Bucket, es: seq<Event>, low: real, high: real)
    requires es != [] && forall e :: e in es ==> OneSource(e)
    requires b.l0Bytes == SumBy(es, L0Of) && b.startBytes == SumBy(es, StartOf) && b.fanInBytes == SumBy(es, FanInOf)
    requires forall e :: e in es ==> Source(e) > 0 && low <= Ratio(e) <= high
    ensures low <= WeightedFanInRatio(b) <= high
  {
    hide Ratio, SumBy;
    SourcesAdd(es);
    FanInBrackets(es, low, high);
    MeanBetween(b.fanInBytes as real, SumBy(es, SourceOf), low, high);
  }

  /**
   * In a bucket whose compactions each had one non-empty source, both the bytes-weighted and the
   * per-compaction mean fan-in ratio lie between the smallest and the largest observed.
   */
  lemma RatiosInRange(b: Bucket, es: seq<Event>)
    requires Summarizes(b, es) && es != []
    requires forall e :: e in es ==> OneSource(e)
    ensures b.fanIn.min.Finite?
    ensures b.fanIn.min.value <= WeightedFanInRatio(b) <= b.fanIn.max
    ensures b.fanIn.min.value <= AvgFanInRatio(b) <= b.fanIn.max
  {
    hide SumBy, Ratios, Pcts, Depths, DepthsSummarized, SumReal, Ratio;
    forall e | e in es ensures Source(e) > 0 {
      assert OneSource(e);
    }
    EachWithin(b.fanIn, es);
    var low, high := b.fanIn.min.value, b.fanIn.max;
    WeightedInRange(b, es, low, high);
    SourcesAdd(es);
    SumBrackets(Ratios(es), low, high);
    MeanBetween(b.fanIn.sum, |es|, low, high);
  }

  /** With a second source the weighted ratio of L0 drains can only fall: the maximum still holds. */
  lemma DrainsAtMostMax(b: Bucket, es: seq<Event>)
    requires Summarizes(b, es) && es != []
    requires forall e :: e in es ==> e.kind == L0_LBASE && e.l0Bytes > 0
    ensures WeightedFanInRatio(b) <= b.fanIn.max
  {
    hide SumBy, Ratios, Pcts, Depths, DepthsSummarized, SumReal, Ratio;
    DrainSources(es);
    EachWithin(b.fanIn, es);
    var high := b.fanIn.max;
    forall e | e in es ensures Source(e) > 0 && 0.0 <= Ratio(e) <= high {
      RatioNonNegative(e);
    }
    FanInBrackets(es, 0.0, high);
    ScaleUp(high, SumBy(es, SourceOf), SourceBytes(b));
    MeanBetween(b.fanInBytes as real, SourceBytes(b), 0.0, high);
  }

  lemma ScaleUp(a: real, x: int, y: int)
    requires a >= 0.0 && x <= y
    ensures a * x as real <= a * y as real
  {}

  lemma RatioNonNegative(e: Event)
    requires Source(e) > 0
    ensures Ratio(e) >= 0.0
  {}

  lemma {:induction false} DrainSources(es: seq<Event>)
    requires forall e :: e in es ==> e.kind == L0_LBASE && e.l0Bytes > 0
    ensures SumBy(es, SourceOf) == SumBy(es, L0Of) && SumBy(es, SourceOf) >= |es| && SumBy(es, StartOf) >= 0
  {
    if es != [] {
      DrainSources(es[..|es| - 1]);
      assert es[|es| - 1] in es;
    }
  }

  const TWO_SOURCES := Event(L0_LBASE, 4, 1, 1, 2, 4, 0, 0, 0)

  lemma TwoSourcesRatio()
    ensures Ratios([TWO_SOURCES]) == [2.0] && Spans(Spread(2.0, Finite(2.0), 2.0), [2.0])
  {
    assert [TWO_SOURCES][..0] == [];
    assert [2.0][..0] == [];
  }

  lemma TwoSourcesSums()
    ensures SumBy([TWO_SOURCES], L0Of) == 1 && SumBy([TWO_SOURCES], StartOf) == 1
    ensures SumBy([TWO_SOURCES], FanInOf) == 2 && SumBy([TWO_SOURCES], OutputOf) == 4
    ensures SumBy([TWO_SOURCES], DurationOf) == 0
    ensures Pcts([TWO_SOURCES]) == [] && Depths([TWO_SOURCES]) == []
  {
    assert [TWO_SOURCES][..0] == [];
  }

  /** The minimum does not: a drain that also read an intermediate level falls below it. */
  lemma SecondSourceBreaksMinimum()
    ensures var b := Bucket(1, 1, 1, 2, 4, 0, Spread(2.0, Finite(2.0), 2.0), 0, NO_SPREAD, 0, 0, 0);
            Summarizes(b, [TWO_SOURCES]) && WeightedFanInRatio(b) < b.fanIn.min.value
  {
    TwoSourcesRatio();
    TwoSourcesSums();
  }

  lemma OneRatio(e: Event)
    requires Source(e) > 0
    ensures Ratios([e]) == [Ratio(e)]
    ensures SumBy([e], L0Of) == e.l0Bytes && SumBy([e], StartOf) == e.startBytes && SumBy([e], FanInOf) == e.fanInBytes
  {
    assert [e][..0] == [];
  }

  lemma QuotientsCompare(f: nat, a: nat, b: nat)
    requires a > 0
    ensures f as real / a as real <= f as real / (a + b) as real <==> b == 0 || f == 0
  {
    var x, y, z := f as real, a as real, (a + b) as real;
    var p, q := x / y, x / z;
    assert p * y == x && q * z == x;
    if f == 0 {
      assert p == 0.0 && q == 0.0;
    } else if b > 0 {
      assert q > 0.0 && z > y;
      assert q * z > q * y;
    }
  }

  /**
   * For a drain on its own the minimum holds exactly when it read no other level than L0 and the
   * output, or nothing from the output.
   */
  lemma SingleDrainMinimum(b: Bucket, e: Event)
    requires Summarizes(b, [e]) && e.kind == L0_LBASE && e.l0Bytes > 0
    ensures b.fanIn.min.Finite?
    ensures b.fanIn.min.value <= WeightedFanInRatio(b) <==> e.startBytes == 0 || e.fanInBytes == 0
  {
    OneRatio(e);
    hide SumBy, Ratios, Pcts, Depths, DepthsSummarized, SumReal;
    QuotientsCompare(e.fanInBytes, e.l0Bytes, e.startBytes);
  }

  // --- Exactly when the weighted ratio stays within the extremes, for buckets of any size.

  lemma EmptyBucket()
    ensures Summarizes(NO_BUCKET, [])
  {}

  /** Any sequence of events has a bucket that summarizes it, one more event at a time. */
  lemma BucketWith(b: Bucket, es: seq<Event>, e: Event) returns (b': Bucket)
    requires Summarizes(b, es)
    ensures Summarizes(b', es + [e])
  {
    hide Summarizes, Observe;
    var deeper := e.sublevels > 0;
    b' := Bucket(b.count + 1, b.l0Bytes + e.l0Bytes, b.startBytes + e.startBytes, b.fanInBytes + e.fanInBytes,
                 b.outputBytes + e.outputBytes, b.duration + e.duration,
                 if Source(e) > 0 then Observe(b.fanIn, Ratio(e)) else b.fanIn,
                 b.pctCount + (if HasPct(e) then 1 else 0),
                 if HasPct(e) then Observe(b.pct, e.fanInBytes as real / e.dstBytes as real) else b.pct,
                 b.sublevelCount + (if deeper then 1 else 0), b.sumSublevels + (if deeper then e.sublevels else 0),
                 if deeper then Max(b.maxSublevels, e.sublevels) else b.maxSublevels);
    EventAdded(b, b', es, e);
  }

  /** fs is a non-empty choice of events of es, in any number and order. */
  ghost predicate DrawnFrom(fs: seq<Event>, es: seq<Event>) {
    fs != [] && forall e :: e in fs ==> e in es
  }

  /** What the adapter guarantees of every L0 drain. */
  ghost predicate Drains(es: seq<Event>) {
    forall e :: e in es ==> e.kind == L0_LBASE && e.l0Bytes > 0
  }

  ghost predicate MinimumHolds(b: Bucket) {
    b.fanIn.min.Finite? && b.fanIn.min.value <= WeightedFanInRatio(b)
  }

  /** The drain read no level besides L0 and the output, or nothing from the output. */
  predicate KeepsMinimum(e: Event) {
    e.startBytes == 0 || e.fanInBytes == 0
  }

  lemma ZeroRatio(e: Event)
    requires Source(e) > 0 && e.fanInBytes == 0
    ensures Ratio(e) == 0.0
  {}

  lemma {:induction false} RatiosNonNegative(es: seq<Event>)
    ensures forall r :: r in Ratios(es) ==> r >= 0.0
  {
    if es != [] {
      RatiosNonNegative(es[..|es| - 1]);
      if Source(es[|es| - 1]) > 0 {
        RatioNonNegative(es[|es| - 1]);
      }
    }
  }

  lemma DrainsKeepMinimum(b: Bucket, es: seq<Event>)
    requires Summarizes(b, es) && es != [] && Drains(es)
    requires forall e :: e in es ==> KeepsMinimum(e)
    ensures MinimumHolds(b)
  {
    hide SumBy, Ratios, Pcts, Depths, DepthsSummarized, SumReal, Ratio;
    if exists e :: e in es && e.startBytes > 0 {
      var e :| e in es && e.startBytes > 0;
      assert KeepsMinimum(e);
      ZeroRatio(e);
      EachWithin(b.fanIn, es);
      assert b.fanIn.min.value <= 0.0;
      QuotientNonNegative(b.fanInBytes, SourceBytes(b));
    } else {
      forall e | e in es ensures OneSource(e) {}
      RatiosInRange(b, es);
    }
  }

  lemma QuotientNonNegative(f: nat, w: nat)
    ensures w > 0 ==> f as real / w as real >= 0.0
  {}

  /**
   * Every bucket of drains drawn from es, of whatever size, has a weighted ratio no smaller than
   * the smallest observed if and only if each drain in es keeps to one source or has no fan-in.
   */
  lemma DrainMinimumIff(es: seq<Event>)
    requires Drains(es)
    ensures (forall e :: e in es ==> KeepsMinimum(e)) <==>
            (forall b, fs :: DrawnFrom(fs, es) && Summarizes(b, fs) ==> MinimumHolds(b))
  {
    hide Summarizes, MinimumHolds;
    if forall e :: e in es ==> KeepsMinimum(e) {
      forall b, fs | DrawnFrom(fs, es) && Summarizes(b, fs) ensures MinimumHolds(b) {
        DrainsKeepMinimum(b, fs);
      }
    } else {
      var e :| e in es && !KeepsMinimum(e);
      EmptyBucket();
      var b := BucketWith(NO_BUCKET, [], e);
      assert [] + [e] == [e];
      BrokenMinimum(b, e);
      assert DrawnFrom([e], es);
    }
  }

  lemma BrokenMinimum(b: Bucket, e: Event)
    requires Summarizes(b, [e]) && e.kind == L0_LBASE && e.l0Bytes > 0 && !KeepsMinimum(e)
    ensures !MinimumHolds(b)
  {
    SingleDrainMinimum(b, e);
  }

  /** What the adapter guarantees of every compaction below L0. */
  ghost predicate BelowL0(es: seq<Event>) {
    forall e :: e in es ==> e.kind == LBASE_PLUS && e.l0Bytes == 0
  }

  lemma {:induction false} BelowL0Sources(es: seq<Event>)
    requires BelowL0(es)
    ensures SumBy(es, L0Of) == 0 && SumBy(es, SourceOf) == SumBy(es, StartOf) >= 0
    ensures SumBy(es, StartOf) > 0 <==> Ratios(es) != []
    ensures SumBy(es, StartOf) > 0 <==> exists e :: e in es && e.startBytes > 0
  {
    if es != [] {
      var n := |es| - 1;
      assert es[n] in es;
      BelowL0Sources(es[..n]);
      assert forall e :: e in es <==> e in es[..n] || e == es[n];
    }
  }

  /** Below L0 a missing source can only raise the weighted ratio: the minimum always holds. */
  lemma BelowL0AtLeastMin(b: Bucket, es: seq<Event>)
    requires Summarizes(b, es) && BelowL0(es) && b.fanIn.min.Finite?
    ensures b.fanIn.min.value <= WeightedFanInRatio(b)
  {
    BelowL0Sources(es);
    hide SumBy, Ratios, Pcts, Depths, DepthsSummarized, SumReal, Ratio;
    var low := b.fanIn.min.value;
    forall e | e in es ensures AtLeast(low, Source(e), e.fanInBytes) {
      if Source(e) > 0 {
        RatioListed(es, e);
        RatioBrackets(e, low, Ratio(e));
      }
    }
    FanInAtLeast(es, low);
    DivideAtLeast(low, b.fanInBytes, SourceBytes(b));
  }

  lemma DivideAtLeast(low: real, f: nat, w: nat)
    requires w > 0 && AtLeast(low, w, f)
    ensures low <= f as real / w as real
  {
    assert low * w as real / w as real == low;
    DivideMonotone(low * w as real, f as real, w as real);
  }

  lemma DivideAtMost(high: real, f: nat, w: nat)
    requires w > 0 && AtMost(high, w, f)
    ensures f as real / w as real <= high
  {
    assert high * w as real / w as real == high;
    DivideMonotone(f as real, high * w as real, w as real);
  }

  /** The compaction read something from its start level, or nothing from the output. */
  predicate KeepsMaximum(e: Event) {
    e.startBytes > 0 || e.fanInBytes == 0
  }

  ghost predicate MaximumHolds(b: Bucket) {
    WeightedFanInRatio(b) <= b.fanIn.max
  }

  lemma BelowL0KeepMaximum(b: Bucket, es: seq<Event>)
    requires Summarizes(b, es) && BelowL0(es) && forall e :: e in es ==> KeepsMaximum(e)
    ensures MaximumHolds(b)
  {
    BelowL0Sources(es);
    hide SumBy, Ratios, Pcts, Depths, DepthsSummarized, SumReal, Ratio;
    var high := b.fanIn.max;
    forall e | e in es ensures AtMost(high, Source(e), e.fanInBytes) {
      assert KeepsMaximum(e);
      if Source(e) > 0 {
        RatioListed(es, e);
        RatioBrackets(e, Ratio(e), high);
      }
    }
    FanInAtMost(es, high);
    if SourceBytes(b) > 0 {
      DivideAtMost(high, b.fanInBytes, SourceBytes(b));
    }
  }

  /** One compaction without a source beside one with: its fan-in counts, its ratio does not. */
  lemma UnsourcedBreaksMaximum(b: Bucket, e: Event, v: Event)
    requires Summarizes(b, [e, v]) && BelowL0([e, v])
    requires e.startBytes > 0 && !KeepsMaximum(v)
    ensures !MaximumHolds(b)
  {
    PairSums(e, v);
    hide SumBy, Ratios, Pcts, Depths, DepthsSummarized, SumReal;
    assert e in [e, v] && v in [e, v];
    RatioNonNegative(e);
    assert b.fanIn.max == Ratio(e);
    var s := e.startBytes as real;
    assert (e.fanInBytes + v.fanInBytes) as real / s == e.fanInBytes as real / s + v.fanInBytes as real / s;
    assert v.fanInBytes as real / s > 0.0;
  }

  lemma PairSums(e: Event, v: Event)
    requires Source(e) > 0 && Source(v) == 0
    ensures Ratios([e, v]) == [Ratio(e)]
    ensures SumBy([e, v], L0Of) == e.l0Bytes + v.l0Bytes
    ensures SumBy([e, v], StartOf) == e.startBytes + v.startBytes
    ensures SumBy([e, v], FanInOf) == e.fanInBytes + v.fanInBytes
  {
    OneRatio(e);
    AppendFacts([e], v);
    assert [e] + [v] == [e, v];
  }

  /**
   * Every bucket below L0 drawn from es has a weighted ratio no larger than the largest observed if
   * and only if each compaction in es has a source or no fan-in, or none of them has a source.
   */
  lemma BelowL0MaximumIff(es: seq<Event>)
    requires BelowL0(es)
    ensures ((forall e :: e in es ==> KeepsMaximum(e)) || (forall e :: e in es ==> e.startBytes == 0)) <==>
            (forall b, fs :: DrawnFrom(fs, es) && Summarizes(b, fs) ==> MaximumHolds(b))
  {
    hide Summarizes, MaximumHolds;
    if forall e :: e in es ==> KeepsMaximum(e) {
      forall b, fs | DrawnFrom(fs, es) && Summarizes(b, fs) ensures MaximumHolds(b) {
        BelowL0KeepMaximum(b, fs);
      }
    } else if forall e :: e in es ==> e.startBytes == 0 {
      forall b, fs | DrawnFrom(fs, es) && Summarizes(b, fs) ensures MaximumHolds(b) {
        NoSourceKeepsMaximum(b, fs);
      }
    } else {
      var v :| v in es && !KeepsMaximum(v);
      var e :| e in es && e.startBytes != 0;
      EmptyBucket();
      var b := BucketWith(NO_BUCKET, [], e);
      b := BucketWith(b, [] + [e], v);
      assert [] + [e] + [v] == [e, v];
      UnsourcedBreaksMaximum(b, e, v);
      assert DrawnFrom([e, v], es);
    }
  }

  lemma NoSourceKeepsMaximum(b: Bucket, es: seq<Event>)
    requires Summarizes(b, es) && BelowL0(es) && forall e :: e in es ==> e.startBytes == 0
    ensures MaximumHolds(b)
  {
    BelowL0Sources(es);
  }

  const SOURCED := Event(LBASE_PLUS, 5, 0, 1, 1, 2, 0, 0, 0)
  const UNSOURCED := Event(LBASE_PLUS, 5, 0, 0, 5, 5, 0, 0, 0)

  /** A rewrite of the output level alone puts the weighted ratio at six, the largest observed being one. */
  lemma MissingSourceBreaksMaximum()
    ensures exists b :: Summarizes(b, [SOURCED, UNSOURCED]) && WeightedFanInRatio(b) == 6.0 && b.fanIn.max == 1.0
  {
    EmptyBucket();
    var b := BucketWith(NO_BUCKET, [], SOURCED);
    b := BucketWith(b, [] + [SOURCED], UNSOURCED);
    assert [] + [SOURCED] + [UNSOURCED] == [SOURCED, UNSOURCED];
    SixToOne(b);
  }

  lemma SixToOne(b: Bucket)
    requires Summarizes(b, [SOURCED, UNSOURCED])
    ensures WeightedFanInRatio(b) == 6.0 && b.fanIn.max == 1.0
  {
    PairSums(SOURCED, UNSOURCED);
    assert Ratio(SOURCED) == 1.0;
  }
}
