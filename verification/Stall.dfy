// metrics/stall.go: write stalls, in total and by the reason pebble gave for them.
module Stalls {
  import opened Keys
  import opened Numbers
  import opened Sequences

  type Reason = Key

  datatype StallReasonStats = StallReasonStats(count: nat, totalTime: int)

  /** One stall that began and ended. */
  datatype Stall = Stall(reason: Reason, duration: int)

  /** The reason map, shared by reference as in the original. */
  class ReasonTable {
    var entries: map<Reason, StallReasonStats>

    constructor (entries: map<Reason, StallReasonStats>)
      ensures this.entries == entries
    {
      this.entries := entries;
    }
  }

  datatype WriteStallStats = WriteStallStats(count: nat, totalTime: int, maxTime: int, byReason: ReasonTable?)

  // --- What a history of stalls adds up to.

  ghost function TotalTime(h: seq<Stall>): int {
    if h == [] then 0 else TotalTime(h[..|h| - 1]) + h[|h| - 1].duration
  }

  ghost function Longest(h: seq<Stall>): int {
    if h == [] then 0 else Max(Longest(h[..|h| - 1]), h[|h| - 1].duration)
  }

  ghost function CountOf(h: seq<Stall>, r: Reason): nat {
    if h == [] then 0 else CountOf(h[..|h| - 1], r) + if h[|h| - 1].reason == r then 1 else 0
  }

  ghost function TimeOf(h: seq<Stall>, r: Reason): int {
    if h == [] then 0 else TimeOf(h[..|h| - 1], r) + if h[|h| - 1].reason == r then h[|h| - 1].duration else 0
  }

  ghost predicate Tabulates(m: map<Reason, StallReasonStats>, h: seq<Stall>) {
    forall r :: (r in m <==> CountOf(h, r) > 0) && (r in m ==> m[r] == StallReasonStats(CountOf(h, r), TimeOf(h, r)))
  }

  lemma Appended(h: seq<Stall>, s: Stall)
    ensures TotalTime(h + [s]) == TotalTime(h) + s.duration
    ensures Longest(h + [s]) == Max(Longest(h), s.duration)
    ensures forall r :: CountOf(h + [s], r) == CountOf(h, r) + if s.reason == r then 1 else 0
    ensures forall r :: TimeOf(h + [s], r) == TimeOf(h, r) + if s.reason == r then s.duration else 0
  {
    assert (h + [s])[..|h|] == h;
  }

  lemma {:induction false} LongestIsLongest(h: seq<Stall>)
    ensures forall s :: s in h ==> s.duration <= Longest(h)
    ensures Longest(h) >= 0 && (Longest(h) > 0 ==> exists s :: s in h && s.duration == Longest(h))
  {
    if h != [] {
      LongestIsLongest(h[..|h| - 1]);
      assert h[|h| - 1] in h;
    }
  }

  lemma {:induction false} NoTimeUncounted(h: seq<Stall>, r: Reason)
    requires CountOf(h, r) == 0
    ensures TimeOf(h, r) == 0
  {
    if h != [] {
      NoTimeUncounted(h[..|h| - 1], r);
    }
  }

  class WriteStallTracker {
    var count: nat
    var totalTime: int
    var maxTime: int
    var byReason: ReasonTable?
    var stallTime: Option<int>  // when the stall in progress began
    var reason: Reason
    ghost var history: seq<Stall>

    /** The figures are those of every stall recorded, in total and by reason. */
    ghost predicate Valid()
      reads this, byReason
    {
      && count == |history| && totalTime == TotalTime(history) && maxTime == Longest(history)
      && (byReason == null <==> history == [])
      && (byReason != null ==> Tabulates(byReason.entries, history))
    }

    constructor ()
      ensures Valid() && history == [] && stallTime == None
    {
      count, totalTime, maxTime, byReason := 0, 0, 0, null;
      stallTime, reason, history := None, [], [];
    }

    /** A second Begin replaces the first. */
    method Begin(now: int, reason: Reason)
      requires Valid()
      modifies this`stallTime, this`reason
      ensures Valid() && stallTime == Some(now) && this.reason == reason
    {
      stallTime := Some(now);
      this.reason := reason;
    }

    /** Records the stall in progress; without one there is nothing to end. */
    method End(now: int)
      requires Valid()
      modifies this, byReason
      ensures Valid() && stallTime == None && reason == old(reason)
      ensures history == old(history) +
              if old(stallTime) == None then [] else [Stall(old(reason), now - old(stallTime).value)]
      ensures byReason == old(byReason) || fresh(byReason)
    {
      hide Tabulates, CountOf, TimeOf, TotalTime, Longest;
      if stallTime == None {
        return;
      }
      var duration := now - stallTime.value;
      stallTime := None;
      count := count + 1;
      totalTime := totalTime + duration;
      if duration > maxTime {
        maxTime := duration;
      }
      if byReason == null {
        byReason := new ReasonTable(map[]);
        NothingTabulated();
      }
      var m := byReason.entries;
      var r := if reason in m then m[reason] else StallReasonStats(0, 0);
      byReason.entries := m[reason := StallReasonStats(r.count + 1, r.totalTime + duration)];
      TableGrows(m, history, Stall(reason, duration));
      Appended(history, Stall(reason, duration));
      history := history + [Stall(reason, duration)];
    }

    /** The figures now, with a reason map of the caller's own. */
    method Stats() returns (out: WriteStallStats)
      requires Valid()
      ensures out.count == count && out.totalTime == totalTime && out.maxTime == maxTime
      ensures out.byReason == null <==> byReason == null
      ensures out.byReason != null ==> fresh(out.byReason) && out.byReason.entries == byReason.entries
    {
      out := WriteStallStats(count, totalTime, maxTime, byReason);
      if byReason != null {
        var copy := new ReasonTable(map[]);
        var keys := byReason.entries.Keys;
        while keys != {}
          invariant keys <= byReason.entries.Keys
          invariant copy.entries == map k | k in byReason.entries.Keys - keys :: byReason.entries[k]
          decreases keys
        {
          var k :| k in keys;
          copy.entries := copy.entries[k := byReason.entries[k]];
          keys := keys - {k};
        }
        out := out.(byReason := copy);
      }
    }
  }

  lemma NothingTabulated()
    ensures Tabulates(map[], [])
  {}

  lemma TableGrows(m: map<Reason, StallReasonStats>, h: seq<Stall>, s: Stall)
    requires Tabulates(m, h)
    ensures var r := if s.reason in m then m[s.reason] else StallReasonStats(0, 0);
            Tabulates(m[s.reason := StallReasonStats(r.count + 1, r.totalTime + s.duration)], h + [s])
  {
    Appended(h, s);
    if s.reason !in m {
      NoTimeUncounted(h, s.reason);
    }
  }

  // --- The figures, told over the stalls of the history by number.

  ghost function Stalls(h: seq<Stall>, n: nat, r: Reason): set<nat>
    requires n <= |h|
  {
    set i: nat | i < n && h[i].reason == r
  }

  ghost function Durations(h: seq<Stall>): seq<int> {
    seq(|h|, i requires 0 <= i < |h| => h[i].duration)
  }

  ghost function Duration(h: seq<Stall>): nat -> real {
    (i: nat) => if i < |h| then h[i].duration as real else 0.0
  }

  lemma {:induction false} ReasonIsCounted(h: seq<Stall>, n: nat, r: Reason)
    requires n <= |h|
    ensures CountOf(h[..n], r) == |Stalls(h, n, r)|
    ensures TimeOf(h[..n], r) as real == Total(Stalls(h, n, r), Duration(h))
  {
    if n == 0 {
      assert Stalls(h, 0, r) == {};
      TotalAdd<nat>({}, 0, Duration(h));
    } else {
      var last: nat := n - 1;
      ReasonIsCounted(h, last, r);
      assert h[..n][..last] == h[..last];
      assert Stalls(h, n, r) == Stalls(h, last, r) + if h[last].reason == r then {last} else {};
      TotalAdd<nat>(Stalls(h, last, r), last, Duration(h));
    }
  }

  lemma {:induction false} TimeIsTotal(h: seq<Stall>)
    ensures TotalTime(h) == Sum(Durations(h))
  {
    if h != [] {
      var n := |h| - 1;
      TimeIsTotal(h[..n]);
      SumAppend(Durations(h[..n]), h[n].duration);
      assert Durations(h) == Durations(h[..n]) + [h[n].duration];
    }
  }

  /** At any time: the number of stalls, their total and longest time, and the same for each reason. */
  lemma TrackerFigures(t: WriteStallTracker)
    requires t.Valid()
    ensures var h := t.history;
            && t.count == |h| && t.totalTime == Sum(Durations(h))
            && t.maxTime >= 0 && (forall s :: s in h ==> s.duration <= t.maxTime)
            && (t.maxTime > 0 ==> exists s :: s in h && s.duration == t.maxTime)
            && (t.byReason == null <==> h == [])
            && (t.byReason != null ==> forall r ::
                  var mine, m := Stalls(h, |h|, r), t.byReason.entries;
                  && (r in m <==> mine != {})
                  && (r in m ==> m[r].count == |mine| && m[r].totalTime as real == Total(mine, Duration(h))))
  {
    hide CountOf, TimeOf, TotalTime, Longest, Total;
    var h := t.history;
    LongestIsLongest(h);
    assert h[..|h|] == h;
    TimeIsTotal(h);
    forall r
      ensures CountOf(h, r) == |Stalls(h, |h|, r)|
      ensures TimeOf(h, r) as real == Total(Stalls(h, |h|, r), Duration(h))
    {
      ReasonIsCounted(h, |h|, r);
    }
  }

  // --- Snapshots.

  datatype Call = Begin(now: int, reason: Reason) | End(now: int)

  /** Whatever is recorded later, figures already handed out stay as they were. */
  method StatsThenRecord(t: WriteStallTracker, calls: seq<Call>) returns (before: WriteStallStats)
    requires t.Valid()
    modifies t, t.byReason
    ensures t.Valid()
    ensures before.count == old(t.count) && before.totalTime == old(t.totalTime) && before.maxTime == old(t.maxTime)
    ensures before.byReason == null <==> old(t.byReason) == null
    ensures before.byReason != null ==> before.byReason.entries == old(t.byReason.entries)
  {
    before := t.Stats();
    for i := 0 to |calls|
      invariant t.Valid()
      invariant t.byReason == old(t.byReason) || fresh(t.byReason)
      invariant before.byReason != null ==> fresh(before.byReason) && before.byReason != t.byReason
      invariant before.byReason != null ==> before.byReason.entries == old(t.byReason.entries)
    {
      match calls[i]
      case Begin(now, reason) => t.Begin(now, reason);
      case End(now) => t.End(now);
    }
  }

  // --- The order of reasons.

  function TimeIn(m: map<Reason, StallReasonStats>, r: Reason): int {
    if r in m then m[r].totalTime else 0
  }

  /** Longer total time first, then by name. */
  predicate Before(m: map<Reason, StallReasonStats>, a: Reason, b: Reason) {
    if TimeIn(m, a) != TimeIn(m, b) then TimeIn(m, a) > TimeIn(m, b) else Le(a, b)
  }

  function BeforeIn(m: map<Reason, StallReasonStats>): (Reason, Reason) -> bool {
    (a, b) => Before(m, a, b)
  }

  /** Each reason once, in order. */
  ghost predicate Listed(m: map<Reason, StallReasonStats>, rs: seq<Reason>) {
    && multiset(rs) == multiset(m.Keys)
    && SortedBy(BeforeIn(m), rs)
  }

  lemma BeforeIsOrder(m: map<Reason, StallReasonStats>)
    ensures TotalOrdering(BeforeIn(m))
    ensures forall a, b :: Before(m, a, b) && Before(m, b, a) ==> a == b
  {
    TotalOrder();
  }

  /** The listing does not depend on the order in which the map is walked. */
  lemma ListingIsUnique(m: map<Reason, StallReasonStats>, a: seq<Reason>, b: seq<Reason>)
    requires Listed(m, a) && Listed(m, b)
    ensures a == b
  {
    BeforeIsOrder(m);
    SortedIsUnique(BeforeIn(m), a, b);
  }

  method Reasons(s: WriteStallStats) returns (rs: seq<Reason>)
    ensures s.byReason == null ==> rs == []
    ensures s.byReason != null ==>
              var m := s.byReason.entries;
              Listed(m, rs) && LongestFirst(m, rs)
  {
    if s.byReason == null {
      return [];
    }
    var m := s.byReason.entries;
    rs := [];
    var keys := m.Keys;
    while keys != {}
      invariant keys <= m.Keys && multiset(rs) == multiset(m.Keys - keys)
      decreases keys
    {
      var r :| r in keys;
      assert m.Keys - (keys - {r}) == m.Keys - keys + {r};
      rs := rs + [r];
      keys := keys - {r};
    }
    assert m.Keys - keys == m.Keys;
    BeforeIsOrder(m);
    SortByCorrect(BeforeIn(m), rs);
    rs := SortBy(BeforeIn(m), rs);
    hide LongestFirst;
    ListedIsLongestFirst(m, rs);
  }

  /** Exactly the map's keys, each once; of any two the one with the longer time first, then the lesser name. */
  ghost predicate LongestFirst(m: map<Reason, StallReasonStats>, rs: seq<Reason>) {
    && (forall r :: r in rs <==> r in m)
    && (forall i, j :: 0 <= i < j < |rs| ==>
          && rs[i] in m && rs[j] in m && rs[i] != rs[j]
          && m[rs[i]].totalTime >= m[rs[j]].totalTime
          && (m[rs[i]].totalTime == m[rs[j]].totalTime ==> Lt(rs[i], rs[j])))
  }

  lemma ListedIsLongestFirst(m: map<Reason, StallReasonStats>, rs: seq<Reason>)
    requires Listed(m, rs)
    ensures LongestFirst(m, rs)
  {
    hide Compare;
    forall r ensures r in rs <==> r in m {
      assert r in rs <==> r in multiset(rs);
      assert r in m <==> r in multiset(m.Keys);
    }
    forall i, j | 0 <= i < j < |rs|
      ensures rs[i] != rs[j]
      ensures BeforeIn(m)(rs[i], rs[j])
    {
      OnceEach(rs, i, j);
      assert multiset(m.Keys)[rs[i]] == 1;
    }
    TotalOrder();
  }

  lemma OnceEach(rs: seq<Reason>, i: nat, j: nat)
    requires i < j < |rs| && multiset(rs)[rs[i]] <= 1
    ensures rs[i] != rs[j]
  {
    assert rs == rs[..j] + rs[j..];
    assert rs[i] in rs[..j] && rs[j] in rs[j..];
  }

  // --- Per-reason figures against the totals.

  ghost function SumCounts(m: map<Reason, StallReasonStats>, rs: seq<Reason>): int {
    if rs == [] then 0 else (if rs[0] in m then m[rs[0]].count else 0) + SumCounts(m, rs[1..])
  }

  ghost function SumTimes(m: map<Reason, StallReasonStats>, rs: seq<Reason>): int {
    if rs == [] then 0 else TimeIn(m, rs[0]) + SumTimes(m, rs[1..])
  }

  ghost function CountsOf(h: seq<Stall>, rs: seq<Reason>): int {
    if rs == [] then 0 else CountOf(h, rs[0]) + CountsOf(h, rs[1..])
  }

  ghost function TimesOf(h: seq<Stall>, rs: seq<Reason>): int {
    if rs == [] then 0 else TimeOf(h, rs[0]) + TimesOf(h, rs[1..])
  }

  lemma {:induction false} TableSums(m: map<Reason, StallReasonStats>, h: seq<Stall>, rs: seq<Reason>)
    requires Tabulates(m, h)
    ensures SumCounts(m, rs) == CountsOf(h, rs) && SumTimes(m, rs) == TimesOf(h, rs)
  {
    if rs != [] {
      TableSums(m, h, rs[1..]);
      if rs[0] !in m {
        NoTimeUncounted(h, rs[0]);
      }
    }
  }

  lemma OneMore(n: int, d: int)
    ensures (n + 1) * d == n * d + d
  {}

  lemma {:induction false} OneMoreStall(h: seq<Stall>, s: Stall, rs: seq<Reason>)
    ensures CountsOf(h + [s], rs) == CountsOf(h, rs) + multiset(rs)[s.reason]
    ensures TimesOf(h + [s], rs) == TimesOf(h, rs) + multiset(rs)[s.reason] * s.duration
  {
    hide CountOf, TimeOf;
    if rs != [] {
      OneMoreStall(h, s, rs[1..]);
      Appended(h, s);
      assert rs == [rs[0]] + rs[1..];
      OneMore(multiset(rs[1..])[s.reason], s.duration);
    }
  }

  lemma {:induction false} NoStalls(rs: seq<Reason>)
    ensures CountsOf([], rs) == 0 && TimesOf([], rs) == 0
  {
    if rs != [] {
      NoStalls(rs[1..]);
    }
  }

  lemma {:induction false} EachStallOnce(h: seq<Stall>, rs: seq<Reason>)
    requires forall s :: s in h ==> multiset(rs)[s.reason] == 1
    ensures CountsOf(h, rs) == |h| && TimesOf(h, rs) == TotalTime(h)
  {
    if h == [] {
      NoStalls(rs);
    } else {
      var n := |h| - 1;
      assert h == h[..n] + [h[n]];
      EachStallOnce(h[..n], rs);
      OneMoreStall(h[..n], h[n], rs);
    }
  }

  lemma {:induction false} ReasonCounted(h: seq<Stall>, s: Stall)
    requires s in h
    ensures CountOf(h, s.reason) > 0
  {
    if h[|h| - 1] != s {
      ReasonCounted(h[..|h| - 1], s);
    }
  }

  /** Over the listed reasons, counts and times sum to the totals of the whole history. */
  lemma {:induction false} ReasonsSumToTotals(m: map<Reason, StallReasonStats>, h: seq<Stall>, rs: seq<Reason>)
    requires Tabulates(m, h) && Listed(m, rs)
    ensures SumCounts(m, rs) == |h| && SumTimes(m, rs) == TotalTime(h)
  {
    TableSums(m, h, rs);
    forall s | s in h ensures multiset(rs)[s.reason] == 1 {
      ReasonCounted(h, s);
      assert s.reason in m;
      assert multiset(m.Keys)[s.reason] == 1;
    }
    EachStallOnce(h, rs);
  }
}
