// metrics/histogram.go: interval and cumulative latency histograms, one per operation, and their
// merged totals. A histogram is the multiset of samples it accepted. Each has its own lock, so workers
// record between the ticks of one registry tick.
module Histograms {
  import opened Sequences

  datatype HistogramTick = HistogramTick(name: string, elapsed: int, interval: int,
                                         cumulative: multiset<int>, hist: multiset<int>)

  ghost function Union(parts: seq<multiset<int>>): multiset<int> {
    if parts == [] then multiset{} else Union(parts[..|parts| - 1]) + parts[|parts| - 1]
  }

  class NamedHistogram {
    const name: string
    const accepts: int -> bool  // which values the histogram's range admits
    const startTime: int
    var hist: multiset<int>
    var cumulative: multiset<int>
    var lastTick: int
    ghost var accepted: multiset<int>         // every sample accepted so far
    ghost var intervals: seq<multiset<int>>   // every interval returned so far

    /** Nothing accepted is ever lost or counted twice between the open interval and the past ones. */
    ghost predicate Valid()
      reads this
    {
      && cumulative + hist == accepted
      && Union(intervals) == cumulative
    }

    constructor (name: string, start: int, accepts: int -> bool)
      ensures Valid() && this.name == name && startTime == lastTick == start && this.accepts == accepts
      ensures accepted == multiset{} && intervals == []
    {
      this.name, this.startTime, this.accepts := name, start, accepts;
      lastTick := start;
      hist, cumulative, accepted, intervals := multiset{}, multiset{}, multiset{}, [];
    }

    ghost function Entry(): Book
      reads this
    {
      Book(name, hist, cumulative, lastTick, accepted, intervals)
    }

    /** A value outside the histogram's range is dropped without error. */
    method Record(nanos: int)
      requires Valid()
      modifies this`hist, this`accepted
      ensures Valid()
      ensures accepted == old(accepted) + if accepts(nanos) then multiset{nanos} else multiset{}
      ensures hist == old(hist) + if accepts(nanos) then multiset{nanos} else multiset{}
    {
      if accepts(nanos) {
        hist := hist + multiset{nanos};
        accepted := accepted + multiset{nanos};
      }
    }

    /** Closes the interval: the tick carries it, and all samples so far. */
    method Tick(now: int) returns (tick: HistogramTick)
      requires Valid()
      modifies this
      ensures Valid()
      ensures tick == HistogramTick(name, now - startTime, now - old(lastTick), accepted, old(hist))
      ensures hist == multiset{} && cumulative == accepted == old(accepted) && lastTick == now
      ensures cumulative == old(cumulative) + old(hist) && intervals == old(intervals) + [old(hist)]
    {
      var snap := hist;
      hist := multiset{};
      cumulative := cumulative + snap;
      ghost var past := intervals;
      intervals := intervals + [snap];
      assert intervals[..|past|] == past;
      var interval := now - lastTick;
      lastTick := now;
      tick := HistogramTick(name, now - startTime, interval, cumulative, snap);
    }
  }

  function TotalCount(h: multiset<int>): nat {
    |h|
  }

  /** One aggregate tick; its times are those of the first tick. */
  method MergeTicks(ticks: seq<HistogramTick>, name: string) returns (merged: HistogramTick)
    ensures merged == HistogramTick(name, if ticks == [] then 0 else ticks[0].elapsed,
                                    if ticks == [] then 0 else ticks[0].interval,
                                    Union(Cumulatives(ticks)), Union(Intervals(ticks)))
  {
    merged := HistogramTick(name, 0, 0, multiset{}, multiset{});
    for i := 0 to |ticks|
      invariant merged.name == name
      invariant merged.elapsed == (if i == 0 then 0 else ticks[0].elapsed)
      invariant merged.interval == (if i == 0 then 0 else ticks[0].interval)
      invariant merged.cumulative == Union(Cumulatives(ticks[..i])) && merged.hist == Union(Intervals(ticks[..i]))
    {
      var t := ticks[i];
      if i == 0 {
        merged := merged.(elapsed := t.elapsed, interval := t.interval);
      }
      merged := merged.(hist := merged.hist + t.hist, cumulative := merged.cumulative + t.cumulative);
      assert Cumulatives(ticks[..i + 1])[..i] == Cumulatives(ticks[..i]);
      assert Intervals(ticks[..i + 1])[..i] == Intervals(ticks[..i]);
    }
    assert ticks[..|ticks|] == ticks;
  }

  ghost function Cumulatives(ticks: seq<HistogramTick>): seq<multiset<int>> {
    seq(|ticks|, i requires 0 <= i < |ticks| => ticks[i].cumulative)
  }

  ghost function Intervals(ticks: seq<HistogramTick>): seq<multiset<int>> {
    seq(|ticks|, i requires 0 <= i < |ticks| => ticks[i].hist)
  }

  /** One call of Record by a worker, on the histogram of that operation. */
  datatype Arrival = Arrival(op: string, nanos: int)

  /** The samples among the arrivals that the operation's histogram admits. */
  ghost function Admitted(accepts: int -> bool, op: string, came: seq<Arrival>): multiset<int> {
    if came == [] then multiset{} else
      var a := came[|came| - 1];
      Admitted(accepts, op, came[..|came| - 1])
      + if a.op == op && accepts(a.nanos) then multiset{a.nanos} else multiset{}
  }

  lemma AdmittedOne(accepts: int -> bool, op: string, a: Arrival)
    ensures Admitted(accepts, op, [a]) == if a.op == op && accepts(a.nanos) then multiset{a.nanos} else multiset{}
  {
    assert [a][..0] == [];
  }

  /** What the operation admits between one point of a registry tick and another. */
  ghost function Window(accepts: int -> bool, op: string, came: nat -> seq<Arrival>, from: nat, to: nat): multiset<int>
  {
    if to <= from then multiset{}
    else Window(accepts, op, came, from, to - 1) + Admitted(accepts, op, came(to - 1))
  }

  lemma {:induction false} WindowSplits(accepts: int -> bool, op: string, came: nat -> seq<Arrival>,
                                        from: nat, mid: nat, to: nat)
    requires from <= mid <= to
    ensures Window(accepts, op, came, from, to)
         == Window(accepts, op, came, from, mid) + Window(accepts, op, came, mid, to)
  {
    if mid < to {
      WindowSplits(accepts, op, came, from, mid, to - 1);
    }
  }

  /** The state of one histogram, with its history. */
  datatype Book = Book(name: string, hist: multiset<int>, cumulative: multiset<int>, lastTick: int,
                       accepted: multiset<int>, intervals: seq<multiset<int>>)

  /** Nothing accepted is lost or counted twice between the open interval and the past ones. */
  ghost predicate Balanced(b: Book) {
    && b.cumulative + b.hist == b.accepted
    && Union(b.intervals) == b.cumulative
  }

  ghost function Heard(b: Book, accepts: int -> bool, came: seq<Arrival>): Book {
    var more := Admitted(accepts, b.name, came);
    b.(hist := b.hist + more, accepted := b.accepted + more)
  }

  lemma HeardOne(b: Book, accepts: int -> bool, a: Arrival)
    ensures Heard(b, accepts, [a])
         == if b.name == a.op && accepts(a.nanos)
            then b.(hist := b.hist + multiset{a.nanos}, accepted := b.accepted + multiset{a.nanos}) else b
  {
    AdmittedOne(accepts, b.name, a);
  }

  lemma HeardNothing(b: Book, accepts: int -> bool, came: seq<Arrival>)
    ensures Heard(b, accepts, came[..0]) == b
  {}

  lemma HeardMore(b: Book, accepts: int -> bool, came: seq<Arrival>, i: nat)
    requires i < |came|
    ensures Heard(Heard(b, accepts, came[..i]), accepts, [came[i]]) == Heard(b, accepts, came[..i + 1])
  {
    AdmittedOne(accepts, b.name, came[i]);
    assert came[..i + 1][..i] == came[..i];
    var met, more := Admitted(accepts, b.name, came[..i]), Admitted(accepts, b.name, [came[i]]);
    hide Admitted;
    assert b.hist + met + more == b.hist + (met + more);
    assert b.accepted + met + more == b.accepted + (met + more);
  }

  ghost function Closed(b: Book, now: int): Book {
    b.(hist := multiset{}, cumulative := b.cumulative + b.hist, lastTick := now, intervals := b.intervals + [b.hist])
  }

  ghost function TickOf(b: Book, start: int, now: int): HistogramTick {
    HistogramTick(b.name, now - start, now - b.lastTick, b.cumulative + b.hist, b.hist)
  }

  /** Histogram j as a registry tick is about to reach histogram k. */
  ghost function During(b: Book, accepts: int -> bool, clock: nat -> int, came: nat -> seq<Arrival>,
                        j: nat, k: nat): Book
  {
    if k == 0 then b else
      var next := Heard(During(b, accepts, clock, came, j, k - 1), accepts, came(k - 1));
      if j == k - 1 then Closed(next, clock(j)) else next
  }

  /** The tick histogram j then gives. */
  ghost function TickGiven(b: Book, accepts: int -> bool, clock: nat -> int, came: nat -> seq<Arrival>,
                           j: nat, start: int): HistogramTick
  {
    TickOf(Heard(During(b, accepts, clock, came, j, j), accepts, came(j)), start, clock(j))
  }

  lemma DuringStart(accepts: int -> bool, clock: nat -> int, came: nat -> seq<Arrival>)
    ensures forall b, j: nat :: During(b, accepts, clock, came, j, 0) == b
  {}

  lemma DuringStep(b: Book, accepts: int -> bool, clock: nat -> int, came: nat -> seq<Arrival>, j: nat, k: nat)
    ensures During(b, accepts, clock, came, j, k + 1) ==
            var next := Heard(During(b, accepts, clock, came, j, k), accepts, came(k));
            if j == k then Closed(next, clock(j)) else next
  {}

  lemma GivenIs(b: Book, accepts: int -> bool, clock: nat -> int, came: nat -> seq<Arrival>, k: nat, start: int)
    ensures TickGiven(b, accepts, clock, came, k, start)
         == TickOf(Heard(During(b, accepts, clock, came, k, k), accepts, came(k)), start, clock(k))
  {}

  /** The tick closes the interval with what arrived before it; what arrives later opens the next. */
  ghost predicate Ticked(was: Book, b: Book, t: HistogramTick, start: int, now: int,
                         before: multiset<int>, after: multiset<int>) {
    && t == HistogramTick(was.name, now - start, now - was.lastTick,
                          was.cumulative + was.hist + before, was.hist + before)
    && b == Book(was.name, after, t.cumulative, now, was.accepted + before + after, was.intervals + [t.hist])
  }

  lemma {:induction false} BeforeTicking(b: Book, accepts: int -> bool, clock: nat -> int, came: nat -> seq<Arrival>,
                                         j: nat, k: nat)
    requires k <= j
    ensures During(b, accepts, clock, came, j, k)
         == var met := Window(accepts, b.name, came, 0, k); b.(hist := b.hist + met, accepted := b.accepted + met)
  {
    if k > 0 {
      hide Admitted;
      BeforeTicking(b, accepts, clock, came, j, k - 1);
      var met, more := Window(accepts, b.name, came, 0, k - 1), Admitted(accepts, b.name, came(k - 1));
      assert b.hist + met + more == b.hist + (met + more);
      assert b.accepted + met + more == b.accepted + (met + more);
    }
  }

  lemma WindowStep(accepts: int -> bool, op: string, came: nat -> seq<Arrival>, from: nat, to: nat)
    requires from <= to
    ensures Window(accepts, op, came, from, to + 1)
         == Window(accepts, op, came, from, to) + Admitted(accepts, op, came(to))
    ensures Window(accepts, op, came, to, to) == multiset{}
  {}

  lemma TickedNow(b: Book, met: multiset<int>, more: multiset<int>, start: int, now: int)
    ensures var c := b.(hist := b.hist + met + more, accepted := b.accepted + met + more);
            Ticked(b, Closed(c, now), TickOf(c, start, now), start, now, met + more, multiset{})
  {
    assert b.hist + met + more == b.hist + (met + more);
    assert b.accepted + met + more == b.accepted + (met + more);
    assert b.cumulative + (b.hist + met + more) == b.cumulative + b.hist + (met + more);
  }

  lemma TickedThen(was: Book, b: Book, t: HistogramTick, start: int, now: int,
                   before: multiset<int>, after: multiset<int>, more: multiset<int>)
    requires Ticked(was, b, t, start, now, before, after)
    ensures Ticked(was, b.(hist := b.hist + more, accepted := b.accepted + more), t, start, now, before, after + more)
  {
    assert was.accepted + before + after + more == was.accepted + before + (after + more);
  }

  lemma {:induction false} AfterTicking(b: Book, accepts: int -> bool, clock: nat -> int, came: nat -> seq<Arrival>,
                                        j: nat, k: nat, start: int)
    requires j < k
    ensures Ticked(b, During(b, accepts, clock, came, j, k),
                   TickGiven(b, accepts, clock, came, j, start),
                   start, clock(j), Window(accepts, b.name, came, 0, j + 1), Window(accepts, b.name, came, j + 1, k))
  {
    hide Admitted, Window, Ticked;
    var more := Admitted(accepts, b.name, came(k - 1));
    var at := During(b, accepts, clock, came, j, j);
    BeforeTicking(b, accepts, clock, came, j, j);
    if k == j + 1 {
      WindowStep(accepts, b.name, came, 0, j);
      WindowStep(accepts, b.name, came, k, k);
      TickedNow(b, Window(accepts, b.name, came, 0, j), more, start, clock(j));
    } else {
      AfterTicking(b, accepts, clock, came, j, k - 1, start);
      WindowStep(accepts, b.name, came, j + 1, k - 1);
      TickedThen(b, During(b, accepts, clock, came, j, k - 1), TickOf(Heard(at, accepts, came(j)), start, clock(j)),
                 start, clock(j), Window(accepts, b.name, came, 0, j + 1),
                 Window(accepts, b.name, came, j + 1, k - 1), more);
    }
  }

  ghost function CumulativeIn(books: seq<Book>): seq<multiset<int>> {
    seq(|books|, k requires 0 <= k < |books| => books[k].cumulative)
  }

  ghost function OpenIn(books: seq<Book>): seq<multiset<int>> {
    seq(|books|, k requires 0 <= k < |books| => books[k].hist)
  }

  ghost function AcceptedBy(books: seq<Book>): seq<multiset<int>> {
    seq(|books|, k requires 0 <= k < |books| => books[k].accepted)
  }

  lemma {:induction false} UnionAdds(a: seq<multiset<int>>, b: seq<multiset<int>>, both: seq<multiset<int>>)
    requires |a| == |b| == |both| && forall k :: 0 <= k < |a| ==> both[k] == a[k] + b[k]
    ensures Union(both) == Union(a) + Union(b)
  {
    if a != [] {
      var n := |a| - 1;
      UnionAdds(a[..n], b[..n], both[..n]);
    }
  }

  lemma BooksBalance(books: seq<Book>)
    requires forall k :: 0 <= k < |books| ==> Balanced(books[k])
    ensures Union(CumulativeIn(books)) + Union(OpenIn(books)) == Union(AcceptedBy(books))
  {
    UnionAdds(CumulativeIn(books), OpenIn(books), AcceptedBy(books));
  }

  class HistogramRegistry {
    const start: int
    const accepts: int -> bool
    var names: seq<string>
    var byName: map<string, NamedHistogram>

    /** Names are registered once each, for exactly the histograms in the map, which share one start. */
    ghost predicate Valid()
      reads this, byName.Values
    {
      && (forall i, j :: 0 <= i < j < |names| ==> names[i] != names[j])
      && (forall n :: n in names <==> n in byName)
      && forall n :: n in byName ==>
           && byName[n].name == n && byName[n].startTime == start && byName[n].accepts == accepts
           && byName[n].Valid()
    }

    constructor (start: int, accepts: int -> bool)
      ensures Valid() && names == [] && this.start == start && this.accepts == accepts
    {
      this.start, this.accepts := start, accepts;
      names, byName := [], map[];
    }

    /** The state of the k-th histogram registered. */
    ghost function At(k: nat): (b: Book)
      requires Valid() && k < |names|
      reads this, byName.Values
      ensures b.name == names[k] && Balanced(b)
    {
      byName[names[k]].Entry()
    }

    /** The first n histograms registered. */
    ghost function First(n: nat): (books: seq<Book>)
      requires Valid() && n <= |names|
      reads this, byName.Values
      ensures |books| == n && forall k :: 0 <= k < n ==> books[k] == At(k)
    {
      if n == 0 then [] else First(n - 1) + [At(n - 1)]
    }

    ghost function Books(): (books: seq<Book>)
      requires Valid()
      reads this, byName.Values
      ensures |books| == |names| && forall k :: 0 <= k < |names| ==> books[k] == At(k)
    {
      First(|names|)
    }

    /** What the operation has accepted, nothing if it is not registered. */
    ghost function Accepted(op: string): multiset<int>
      reads this, byName.Values
    {
      if op in byName then byName[op].accepted else multiset{}
    }

    lemma AcceptedIs()
      requires Valid()
      ensures forall k :: 0 <= k < |names| ==> Accepted(names[k]) == At(k).accepted
      ensures forall n :: n !in names ==> Accepted(n) == multiset{}
    {}

    /** What past ticks closed, over all operations. */
    ghost function ClosedSoFar(): multiset<int>
      requires Valid()
      reads this, byName.Values
    {
      Union(CumulativeIn(Books()))
    }

    lemma ClosedIs()
      requires Valid()
      ensures ClosedSoFar() == Union(CumulativeIn(Books()))
    {}

    lemma NothingYet()
      requires Valid() && names == []
      ensures ClosedSoFar() == multiset{} && forall n :: Accepted(n) == multiset{}
    {}

    /** Between the past intervals and the open ones, nothing accepted is lost or counted twice. */
    lemma ClosedAndOpen()
      requires Valid()
      ensures ClosedSoFar() + Union(OpenIn(Books())) == Union(AcceptedBy(Books()))
    {
      BooksBalance(Books());
    }

    /** The histogram of that name, created with the registry's start time on first use. */
    method Get(name: string) returns (h: NamedHistogram)
      requires Valid()
      modifies this
      ensures Valid() && name in byName && h == byName[name]
      ensures if name in old(byName) then names == old(names) && byName == old(byName)
              else fresh(h) && names == old(names) + [name] && byName == old(byName)[name := h]
                   && At(|old(names)|) == Book(name, multiset{}, multiset{}, start, multiset{}, [])
      ensures forall k :: 0 <= k < |old(names)| ==> At(k) == old(At(k))
    {
      if name in byName {
        return byName[name];
      }
      h := new NamedHistogram(name, start, accepts);
      byName := byName[name := h];
      names := names + [name];
    }

    /** A worker records on the histogram of that name; without one there is nothing to record on. */
    method Take(a: Arrival)
      requires Valid()
      modifies byName.Values
      ensures Valid()
      ensures forall k :: 0 <= k < |names| ==> At(k) == Heard(old(At(k)), accepts, [a])
    {
      hide Heard, NamedHistogram.Valid, Balanced;
      if a.op in byName {
        ghost var h := byName[a.op];
        assert forall k :: 0 <= k < |names| && names[k] != a.op ==>
                 byName[names[k]].name == names[k] && byName[names[k]] != h;
        byName[a.op].Record(a.nanos);
      } else {
        assert forall k :: 0 <= k < |names| ==> names[k] != a.op;
      }
      forall k | 0 <= k < |names|
        ensures At(k) == Heard(old(At(k)), accepts, [a])
      {
        HeardOne(old(At(k)), accepts, a);
      }
    }

    /** Calls of several workers, in the order they happen. */
    method Arrive(came: seq<Arrival>)
      requires Valid()
      modifies byName.Values
      ensures Valid()
      ensures forall k :: 0 <= k < |names| ==> At(k) == Heard(old(At(k)), accepts, came)
    {
      hide Valid, At, Balanced, Heard;
      forall k | 0 <= k < |names|
        ensures Heard(At(k), accepts, came[..0]) == At(k)
      {
        HeardNothing(At(k), accepts, came);
      }
      for i := 0 to |came|
        invariant Valid()
        invariant forall k :: 0 <= k < |names| ==> At(k) == Heard(old(At(k)), accepts, came[..i])
      {
        forall k | 0 <= k < |names|
          ensures Heard(At(k), accepts, [came[i]]) == Heard(old(At(k)), accepts, came[..i + 1])
        {
          HeardMore(old(At(k)), accepts, came, i);
        }
        Take(came[i]);
      }
      assert came[..|came|] == came;
    }

    /** One histogram is ticked. */
    method Close(k: nat, now: int) returns (tick: HistogramTick)
      requires Valid() && k < |names|
      modifies byName.Values
      ensures Valid() && At(k) == Closed(old(At(k)), now)
      ensures forall j :: 0 <= j < |names| && j != k ==> At(j) == old(At(j))
      ensures tick == TickOf(old(At(k)), start, now)
    {
      hide NamedHistogram.Valid, Balanced;
      ghost var was := byName[names[k]];
      assert was.Valid() && was.name == names[k];
      assert forall j :: 0 <= j < |names| && j != k ==> byName[names[j]].name == names[j] && byName[names[j]] != was;
      tick := byName[names[k]].Tick(now);
    }

    /** The loop over the names: before histogram k is ticked, came(k) has been recorded. */
    method TickEach(clock: nat -> int, came: nat -> seq<Arrival>) returns (ticks: seq<HistogramTick>)
      requires Valid()
      modifies byName.Values
      ensures Valid() && |ticks| == |names|
      ensures forall j :: 0 <= j < |names| ==>
                && At(j) == During(old(At(j)), accepts, clock, came, j, |names|)
                && ticks[j] == TickGiven(old(At(j)), accepts, clock, came, j, start)
    {
      hide Valid, At, Balanced, Closed, Heard, TickOf, During, TickGiven;
      DuringStart(accepts, clock, came);
      ticks := [];
      for k := 0 to |names|
        invariant Valid() && |ticks| == k
        invariant forall j :: 0 <= j < |names| ==> At(j) == During(old(At(j)), accepts, clock, came, j, k)
        invariant forall j :: 0 <= j < k ==> ticks[j] == TickGiven(old(At(j)), accepts, clock, came, j, start)
      {
        forall j | 0 <= j < |names|
          ensures During(old(At(j)), accepts, clock, came, j, k + 1)
               == if j == k then Closed(Heard(At(j), accepts, came(k)), clock(k)) else Heard(At(j), accepts, came(k))
        {
          DuringStep(old(At(j)), accepts, clock, came, j, k);
        }
        GivenIs(old(At(k)), accepts, clock, came, k, start);
        Arrive(came(k));
        var t := Close(k, clock(k));
        ticks := ticks + [t];
      }
    }

    /**
     * Ticks every histogram in registration order, at the times the clock gives. The registry's lock
     * keeps new names out, not samples: those recorded before each tick are came.
     */
    method Tick(clock: nat -> int, came: nat -> seq<Arrival>) returns (ticks: seq<HistogramTick>)
      requires Valid()
      modifies byName.Values
      ensures Valid() && |ticks| == |names|
      ensures forall k :: 0 <= k < |names| ==>
                Ticked(old(At(k)), At(k), ticks[k], start, clock(k),
                       Window(accepts, names[k], came, 0, k + 1), Window(accepts, names[k], came, k + 1, |names|))
    {
      hide Valid, At, Balanced, During, Ticked, Window, TickGiven;
      ticks := TickEach(clock, came);
      forall j | 0 <= j < |names|
        ensures Ticked(old(At(j)), At(j), ticks[j], start, clock(j),
                       Window(accepts, names[j], came, 0, j + 1), Window(accepts, names[j], came, j + 1, |names|))
      {
        AfterTicking(old(At(j)), accepts, clock, came, j, |names|, start);
      }
    }
  }

  /** The merged tick of all operations counts what each of them accepted. */
  lemma {:induction false} MergedCounts(parts: seq<multiset<int>>, counts: seq<int>)
    requires |counts| == |parts| && forall i :: 0 <= i < |parts| ==> counts[i] == TotalCount(parts[i])
    ensures TotalCount(Union(parts)) == Sum(counts)
  {
    if parts != [] {
      var n := |parts| - 1;
      MergedCounts(parts[..n], counts[..n]);
      SumAppend(counts[..n], counts[n]);
      assert counts == counts[..n] + [counts[n]];
    }
  }

  /** The ticks of one registry tick, each with what arrived before and after it. */
  ghost predicate AllTicked(was: seq<Book>, books: seq<Book>, ticks: seq<HistogramTick>, start: int,
                            accepts: int -> bool, clock: nat -> int, came: nat -> seq<Arrival>)
  {
    && |was| == |books| == |ticks|
    && forall k :: 0 <= k < |ticks| ==>
         Ticked(was[k], books[k], ticks[k], start, clock(k),
                Window(accepts, was[k].name, came, 0, k + 1), Window(accepts, was[k].name, came, k + 1, |ticks|))
  }

  /** Between the tick and the interval then open, nothing accepted is missing. */
  lemma TickConserves(was: Book, b: Book, t: HistogramTick, start: int, now: int,
                      before: multiset<int>, after: multiset<int>)
    requires Ticked(was, b, t, start, now, before, after)
    ensures t.cumulative == was.cumulative + t.hist == b.cumulative
    ensures b.accepted == was.accepted + (before + after)
    ensures Balanced(was) ==> Balanced(b) && t.cumulative + b.hist == b.accepted
  {
    assert b.intervals[..|was.intervals|] == was.intervals;
    if Balanced(was) {
      assert t.cumulative + after == was.cumulative + was.hist + before + after;
    }
    assert was.cumulative + was.hist + before == was.cumulative + (was.hist + before);
    assert was.accepted + before + after == was.accepted + (before + after);
  }

  /** Whatever arrives between its ticks, a registry tick carries all it closes and all closed before. */
  lemma TicksConserve(was: seq<Book>, books: seq<Book>, ticks: seq<HistogramTick>, start: int, accepts: int -> bool,
                      clock: nat -> int, came: nat -> seq<Arrival>)
    requires AllTicked(was, books, ticks, start, accepts, clock, came)
    ensures CumulativeIn(books) == Cumulatives(ticks)
    ensures Union(Cumulatives(ticks)) == Union(CumulativeIn(was)) + Union(Intervals(ticks))
    ensures forall k :: 0 <= k < |books| ==>
              books[k].accepted == was[k].accepted + Window(accepts, was[k].name, came, 0, |books|)
  {
    hide Window, Ticked, Union;
    forall k | 0 <= k < |ticks|
      ensures ticks[k].cumulative == was[k].cumulative + ticks[k].hist == books[k].cumulative
      ensures books[k].accepted == was[k].accepted + Window(accepts, was[k].name, came, 0, |books|)
    {
      WindowSplits(accepts, was[k].name, came, 0, k + 1, |ticks|);
      TickConserves(was[k], books[k], ticks[k], start, clock(k),
                    Window(accepts, was[k].name, came, 0, k + 1), Window(accepts, was[k].name, came, k + 1, |ticks|));
    }
    UnionAdds(CumulativeIn(was), Intervals(ticks), Cumulatives(ticks));
  }

  /**
   * Tick, then merge, while workers record: the totals line has all that was closed before and what it
   * closes itself, and misses exactly what is open when the registry tick ends.
   */
  method TickAndMerge(r: HistogramRegistry, clock: nat -> int, came: nat -> seq<Arrival>) returns (total: HistogramTick)
    requires r.Valid()
    modifies r.byName.Values
    ensures r.Valid()
    ensures total.cumulative == r.ClosedSoFar() == old(r.ClosedSoFar()) + total.hist
    ensures total.cumulative + Union(OpenIn(r.Books())) == Union(AcceptedBy(r.Books()))
    ensures forall n :: n in r.names ==>
              r.Accepted(n) == old(r.Accepted(n)) + Window(r.accepts, n, came, 0, |r.names|)
  {
    hide r.Valid, r.At, r.Books, r.Accepted, r.ClosedSoFar;
    hide Union, Window, Ticked, CumulativeIn, OpenIn, AcceptedBy, Cumulatives, Intervals;
    r.AcceptedIs();
    r.ClosedIs();
    ghost var was := r.Books();
    var ticks := r.Tick(clock, came);
    assert AllTicked(was, r.Books(), ticks, r.start, r.accepts, clock, came);
    TicksConserve(was, r.Books(), ticks, r.start, r.accepts, clock, came);
    r.AcceptedIs();
    r.ClosedIs();
    r.ClosedAndOpen();
    total := MergeTicks(ticks, "total");
  }

  lemma {:induction false} QuietWindow(accepts: int -> bool, op: string, came: nat -> seq<Arrival>, from: nat, to: nat)
    requires forall k :: from <= k < to ==> came(k) == []
    ensures Window(accepts, op, came, from, to) == multiset{}
  {
    if from < to {
      QuietWindow(accepts, op, came, from, to - 1);
    }
  }

  lemma QuietTicks(was: seq<Book>, books: seq<Book>, ticks: seq<HistogramTick>, start: int, accepts: int -> bool,
                   clock: nat -> int, none: nat -> seq<Arrival>)
    requires AllTicked(was, books, ticks, start, accepts, clock, none)
    requires forall k :: 0 <= k < |was| ==> none(k) == [] && Balanced(was[k])
    ensures Intervals(ticks) == OpenIn(was) && Cumulatives(ticks) == AcceptedBy(was) == AcceptedBy(books)
    ensures forall k :: 0 <= k < |books| ==> books[k].hist == multiset{}
  {
    hide Window, Union;
    forall k | 0 <= k < |ticks|
      ensures ticks[k].hist == was[k].hist && ticks[k].cumulative == was[k].accepted == books[k].accepted
      ensures books[k].hist == multiset{}
    {
      QuietWindow(accepts, was[k].name, none, 0, k + 1);
      QuietWindow(accepts, was[k].name, none, k + 1, |ticks|);
    }
  }

  /** Once the workers have returned, the totals line has every sample there ever was. */
  method QuietTickAndMerge(r: HistogramRegistry, clock: nat -> int) returns (total: HistogramTick)
    requires r.Valid()
    modifies r.byName.Values
    ensures r.Valid()
    ensures total.cumulative == old(Union(AcceptedBy(r.Books())))
    ensures total.hist == old(Union(OpenIn(r.Books())))
    ensures AcceptedBy(r.Books()) == old(AcceptedBy(r.Books()))
    ensures forall k :: 0 <= k < |r.names| ==> r.Books()[k].hist == multiset{}
  {
    hide r.Valid, r.At, r.Books, Union, Window, Ticked, OpenIn, AcceptedBy, Cumulatives, Intervals;
    ghost var was := r.Books();
    var none: nat -> seq<Arrival> := _ => [];
    var ticks := r.Tick(clock, none);
    QuietTicks(was, r.Books(), ticks, r.start, r.accepts, clock, none);
    total := MergeTicks(ticks, "total");
  }

  /** What the goroutines of a run do: fetch a histogram, record a sample, or print a totals line. */
  datatype Event =
    | Register(op: string)
    | Sample(arrival: Arrival)
    | Round(clock: nat -> int, came: nat -> seq<Arrival>)

  ghost function Named(names: seq<string>, e: Event): seq<string> {
    match e
    case Register(op) => if op in names then names else names + [op]
    case Sample(a) => if a.op in names then names else names + [a.op]
    case Round(_, _) => names
  }

  /** The operations registered after the events. */
  ghost function NamesAfter(names: seq<string>, es: seq<Event>): seq<string> {
    if es == [] then names else Named(NamesAfter(names, es[..|es| - 1]), es[|es| - 1])
  }

  /** The samples of one operation admitted during the event. */
  ghost function SentBy(accepts: int -> bool, op: string, names: seq<string>, e: Event): multiset<int> {
    match e
    case Register(_) => multiset{}
    case Sample(a) => Admitted(accepts, op, [a])
    case Round(_, came) => if op in names then Window(accepts, op, came, 0, |names|) else multiset{}
  }

  ghost function Sent(accepts: int -> bool, op: string, names: seq<string>, es: seq<Event>): multiset<int> {
    if es == [] then multiset{} else
      var before := es[..|es| - 1];
      Sent(accepts, op, names, before) + SentBy(accepts, op, NamesAfter(names, before), es[|es| - 1])
  }

  ghost function Rounds(es: seq<Event>): nat {
    if es == [] then 0 else Rounds(es[..|es| - 1]) + if es[|es| - 1].Round? then 1 else 0
  }

  lemma BookAdded(was: seq<Book>, books: seq<Book>, b: Book)
    requires books == was + [b] && b.cumulative == multiset{}
    ensures Union(CumulativeIn(books)) == Union(CumulativeIn(was))
  {
    assert CumulativeIn(books)[..|was|] == CumulativeIn(was);
  }

  lemma SameCumulatives(was: seq<Book>, books: seq<Book>)
    requires |books| == |was| && forall k :: 0 <= k < |was| ==> books[k].cumulative == was[k].cumulative
    ensures CumulativeIn(books) == CumulativeIn(was)
  {}

  /** A worker fetches its histogram. */
  method Fetch(r: HistogramRegistry, op: string)
    requires r.Valid()
    modifies r
    ensures r.Valid() && r.names == Named(old(r.names), Register(op))
    ensures forall n :: n in old(r.byName) ==> n in r.byName && r.byName[n] == old(r.byName)[n]
    ensures forall n :: n in r.byName && n !in old(r.byName) ==> fresh(r.byName[n])
    ensures r.ClosedSoFar() == old(r.ClosedSoFar()) && forall n :: r.Accepted(n) == old(r.Accepted(n))
  {
    hide r.Valid, r.At, r.Books, r.Accepted, r.ClosedSoFar, Union, Balanced, CumulativeIn;
    r.AcceptedIs();
    r.ClosedIs();
    ghost var was := r.Books();
    var h := r.Get(op);
    if |r.names| == |was| {
      assert r.Books() == was;
    } else {
      assert r.Books() == was + [r.At(|was|)];
      BookAdded(was, r.Books(), r.At(|was|));
    }
    r.AcceptedIs();
    r.ClosedIs();
  }

  /** A worker records on the histogram it fetched. */
  method Hear(r: HistogramRegistry, a: Arrival)
    requires r.Valid() && a.op in r.names
    modifies r.byName.Values
    ensures r.Valid() && r.ClosedSoFar() == old(r.ClosedSoFar())
    ensures forall n :: r.Accepted(n) == old(r.Accepted(n)) + Admitted(r.accepts, n, [a])
  {
    hide r.Valid, r.At, r.Books, r.Accepted, r.ClosedSoFar, Union, Balanced, CumulativeIn, Admitted;
    r.AcceptedIs();
    r.ClosedIs();
    ghost var was := r.Books();
    r.Take(a);
    r.AcceptedIs();
    r.ClosedIs();
    SameCumulatives(was, r.Books());
    forall n | n !in r.names
      ensures Admitted(r.accepts, n, [a]) == multiset{}
    {
      AdmittedOne(r.accepts, n, a);
    }
  }

  /** One event of a run; a round shows a totals line. */
  method Perform(r: HistogramRegistry, e: Event) returns (shown: seq<HistogramTick>)
    requires r.Valid()
    modifies r, r.byName.Values
    ensures r.Valid() && r.names == Named(old(r.names), e)
    ensures forall n :: n in old(r.byName) ==> n in r.byName && r.byName[n] == old(r.byName)[n]
    ensures forall n :: n in r.byName && n !in old(r.byName) ==> fresh(r.byName[n])
    ensures forall n :: r.Accepted(n) == old(r.Accepted(n)) + SentBy(r.accepts, n, old(r.names), e)
    ensures |shown| == (if e.Round? then 1 else 0)
    ensures r.ClosedSoFar() == old(r.ClosedSoFar()) + Union(Intervals(shown))
    ensures shown != [] ==> shown[0].cumulative == r.ClosedSoFar()
  {
    hide r.Valid, r.At, r.Books, r.Accepted, r.ClosedSoFar;
    hide Balanced, CumulativeIn, OpenIn, AcceptedBy, Window, Admitted;
    r.AcceptedIs();
    shown := [];
    match e
    case Register(op) =>
      Fetch(r, op);
    case Sample(a) =>
      Fetch(r, a.op);
      Hear(r, a);
    case Round(clock, came) =>
      var total := TickAndMerge(r, clock, came);
      shown := [total];
      assert Intervals(shown)[..0] == [];
      r.AcceptedIs();
  }

  /** Each totals line shows what the lines so far, its own included, have closed. */
  ghost predicate RunningTotals(start: multiset<int>, totals: seq<HistogramTick>) {
    forall t :: 0 <= t < |totals| ==> totals[t].cumulative == start + Union(Intervals(totals[..t + 1]))
  }

  lemma TotalsGrow(start: multiset<int>, totals: seq<HistogramTick>, shown: seq<HistogramTick>)
    requires RunningTotals(start, totals) && |shown| <= 1
    requires shown != [] ==> shown[0].cumulative == start + (Union(Intervals(totals)) + Union(Intervals(shown)))
    ensures RunningTotals(start, totals + shown)
    ensures Union(Intervals(totals + shown)) == Union(Intervals(totals)) + Union(Intervals(shown))
  {
    var all := totals + shown;
    if shown == [] {
      assert all == totals;
      assert Intervals(shown) == [];
    } else {
      assert Intervals(all)[..|totals|] == Intervals(totals);
      assert Intervals(shown)[..0] == [];
      forall t | 0 <= t < |all|
        ensures all[t].cumulative == start + Union(Intervals(all[..t + 1]))
      {
        if t < |totals| {
          assert all[..t + 1] == totals[..t + 1];
        } else {
          assert all[..t + 1] == all;
        }
      }
    }
  }

  lemma NothingShown(closed: multiset<int>)
    ensures RunningTotals(closed, []) && closed + Union(Intervals([])) == closed
  {}

  /** Any run of events: the lines shown and the intervals still open account for every sample. */
  method Session(r: HistogramRegistry, es: seq<Event>) returns (totals: seq<HistogramTick>)
    requires r.Valid()
    modifies r, r.byName.Values
    ensures r.Valid() && r.names == NamesAfter(old(r.names), es)
    ensures forall n :: n in old(r.byName) ==> n in r.byName && r.byName[n] == old(r.byName)[n]
    ensures forall n :: n in r.byName && n !in old(r.byName) ==> fresh(r.byName[n])
    ensures |totals| == Rounds(es) && RunningTotals(old(r.ClosedSoFar()), totals)
    ensures r.ClosedSoFar() == old(r.ClosedSoFar()) + Union(Intervals(totals))
    ensures r.ClosedSoFar() + Union(OpenIn(r.Books())) == Union(AcceptedBy(r.Books()))
    ensures forall n :: r.Accepted(n) == old(r.Accepted(n)) + Sent(r.accepts, n, old(r.names), es)
  {
    hide r.Valid, r.At, r.Books, r.Accepted, r.ClosedSoFar, Union, Balanced, SentBy, Named, OpenIn, AcceptedBy,
         RunningTotals, Intervals;
    totals := [];
    ghost var names := r.names;
    NothingShown(r.ClosedSoFar());
    for i := 0 to |es|
      invariant r.Valid() && r.names == NamesAfter(names, es[..i])
      invariant forall n :: n in old(r.byName) ==> n in r.byName && r.byName[n] == old(r.byName)[n]
      invariant forall n :: n in r.byName && n !in old(r.byName) ==> fresh(r.byName[n])
      invariant |totals| == Rounds(es[..i]) && RunningTotals(old(r.ClosedSoFar()), totals)
      invariant r.ClosedSoFar() == old(r.ClosedSoFar()) + Union(Intervals(totals))
      invariant forall n :: r.Accepted(n) == old(r.Accepted(n)) + Sent(r.accepts, n, names, es[..i])
    {
      assert es[..i + 1][..i] == es[..i];
      var shown := Perform(r, es[i]);
      TotalsGrow(old(r.ClosedSoFar()), totals, shown);
      totals := totals + shown;
    }
    assert es[..|es|] == es;
    r.ClosedAndOpen();
  }

  /** What each operation was sent during a run, in the order they were registered. */
  ghost function SentToEach(accepts: int -> bool, names: seq<string>, es: seq<Event>): seq<multiset<int>> {
    seq(|names|, k requires 0 <= k < |names| => Sent(accepts, names[k], [], es))
  }

  /**
   * A whole run, whatever the interleaving: the final line holds every admitted sample exactly once, and
   * is the sum of all the intervals shown on the way and its own.
   */
  method RunBenchmark(start: int, accepts: int -> bool, es: seq<Event>, clock: nat -> int)
    returns (totals: seq<HistogramTick>, final: HistogramTick)
    ensures |totals| == Rounds(es) && RunningTotals(multiset{}, totals)
    ensures final.cumulative == Union(SentToEach(accepts, NamesAfter([], es), es))
    ensures final.cumulative == Union(Intervals(totals)) + final.hist
  {
    var r := new HistogramRegistry(start, accepts);
    hide r.Valid, r.At, r.Books, r.Accepted, r.ClosedSoFar;
    hide Union, Balanced, CumulativeIn, OpenIn, Sent, NamesAfter, RunningTotals, Intervals;
    r.NothingYet();
    totals := Session(r, es);
    r.AcceptedIs();
    forall k | 0 <= k < |r.names|
      ensures r.At(k).accepted == Sent(accepts, r.names[k], [], es)
    {
      assert r.Accepted(r.names[k]) == multiset{} + Sent(accepts, r.names[k], [], es);
    }
    assert AcceptedBy(r.Books()) == SentToEach(accepts, r.names, es);
    final := QuietTickAndMerge(r, clock);
  }
}
