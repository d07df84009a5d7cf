// metrics/read.go: the lock-free count / total / min / max accumulator, as a state machine in
// which any number of record calls interleave one atomic operation at a time.
module ReadAccums {
  import opened Numbers
  import opened Sequences

  type Int64 = n: int | -MAX_INT64 - 1 <= n <= MAX_INT64

  /** Two's-complement wrap-around of 64-bit addition. */
  function Wrap(n: int): Int64 {
    (n + MAX_INT64 + 1) % TWO_64 - MAX_INT64 - 1
  }

  /** A value int64 can hold is left alone; any other is moved by a multiple of 2^64. */
  lemma WrapIsInt64(n: int)
    ensures -0x8000_0000_0000_0000 <= Wrap(n) < 0x8000_0000_0000_0000
    ensures (Wrap(n) - n) % 0x1_0000_0000_0000_0000 == 0
    ensures -0x8000_0000_0000_0000 <= n < 0x8000_0000_0000_0000 ==> Wrap(n) == n
  {
    var q := (n + MAX_INT64 + 1) / TWO_64;
    assert Wrap(n) == n - q * TWO_64;
  }

  lemma WrapAdd(a: int, b: int)
    ensures Wrap(Wrap(a) + b) == Wrap(a + b)
  {
    var m := a + MAX_INT64 + 1;
    assert (m % TWO_64 + b) % TWO_64 == (m + b) % TWO_64;
  }

  /** The atomic fields. */
  datatype Accum = Accum(count: int, totalNanos: int, minNanos: int, maxNanos: int)

  // Where a record call stands. A swap remembers the value loaded and, as history, how many
  // swaps had succeeded at that moment.
  datatype PC =
    | AddCount
    | AddTotal
    | MaxLoad
    | MaxSwap(cur: int, seen: nat)
    | MinLoad
    | MinSwap(cur: int, seen: nat)
    | Done

  /** One record call, with the number of swaps it has lost in each loop. */
  datatype Call = Call(pc: PC, maxLost: nat, minLost: nat)

  /** Shared memory, the calls in flight, and how many swaps have succeeded so far. */
  datatype State = State(mem: Accum, calls: seq<Call>, maxWins: nat, minWins: nat)

  /** NewReadTracker's initial values, with every call about to start. */
  function Start(ds: seq<Int64>): State {
    State(Accum(0, 0, MAX_INT64, 0), seq(|ds|, _ => Call(AddCount, 0, 0)), 0, 0)
  }

  /** Call i, recording duration n, performs its next atomic operation. */
  function Step(s: State, i: nat, n: Int64): State
    requires i < |s.calls|
  {
    var c := s.calls[i];
    var m := s.mem;
    match c.pc
    case AddCount => State(m.(count := m.count + 1), s.calls[i := c.(pc := AddTotal)], s.maxWins, s.minWins)
    case AddTotal =>
      State(m.(totalNanos := Wrap(m.totalNanos + n)), s.calls[i := c.(pc := MaxLoad)], s.maxWins, s.minWins)
    case MaxLoad =>
      var next := if n <= m.maxNanos then MinLoad else MaxSwap(m.maxNanos, s.maxWins);
      s.(calls := s.calls[i := c.(pc := next)])
    case MaxSwap(cur, _) =>
      if m.maxNanos == cur
      then State(m.(maxNanos := n), s.calls[i := c.(pc := MinLoad)], s.maxWins + 1, s.minWins)
      else s.(calls := s.calls[i := c.(pc := MaxLoad, maxLost := c.maxLost + 1)])
    case MinLoad =>
      var next := if n >= m.minNanos then Done else MinSwap(m.minNanos, s.minWins);
      s.(calls := s.calls[i := c.(pc := next)])
    case MinSwap(cur, _) =>
      if m.minNanos == cur
      then State(m.(minNanos := n), s.calls[i := c.(pc := Done)], s.maxWins, s.minWins + 1)
      else s.(calls := s.calls[i := c.(pc := MinLoad, minLost := c.minLost + 1)])
    case Done => s
  }

  /** A run: each scheduled call is unfinished when it steps. */
  ghost predicate Run(ds: seq<Int64>, schedule: seq<nat>, states: seq<State>) {
    && |states| == |schedule| + 1
    && states[0] == Start(ds)
    && forall k :: 0 <= k < |schedule| ==> Stepped(ds, schedule[k], states[k], states[k + 1])
  }

  ghost predicate Stepped(ds: seq<Int64>, i: nat, s: State, s': State) {
    && i < |ds| == |s.calls|
    && !s.calls[i].pc.Done?
    && s' == Step(s, i, ds[i])
  }

  // --- How far the calls have got.

  function Stage(pc: PC): nat {
    match pc
    case AddCount => 0
    case AddTotal => 1
    case MaxLoad => 2
    case MaxSwap(_, _) => 2
    case MinLoad => 3
    case MinSwap(_, _) => 3
    case Done => 4
  }

  /** One for each call at stage at least t. */
  function Reached(calls: seq<Call>, t: nat): seq<int> {
    seq(|calls|, i requires 0 <= i < |calls| => if Stage(calls[i].pc) >= t then 1 else 0)
  }

  /** The durations already added to the total. */
  function Added(ds: seq<Int64>, calls: seq<Call>): seq<int>
    requires |ds| == |calls|
  {
    seq(|calls|, i requires 0 <= i < |calls| => if Stage(calls[i].pc) >= 2 then ds[i] else 0)
  }

  // --- The invariant.

  ghost predicate CountsRight(ds: seq<Int64>, s: State) {
    && |s.calls| == |ds|
    && s.mem.count == Sum(Reached(s.calls, 1))
    && s.mem.totalNanos == Wrap(Sum(Added(ds, s.calls)))
  }

  /** A call is either where its last successful load left it, or someone has swapped since. */
  ghost predicate MaxCallRight(n: int, c: Call, m: Accum, wins: nat) {
    && (Stage(c.pc) >= 3 ==> n <= m.maxNanos)
    && (c.pc.MaxLoad? ==> c.maxLost <= wins)
    && (c.pc.MaxSwap? ==>
          && c.pc.cur < n && c.maxLost <= c.pc.seen <= wins
          && (c.pc.seen == wins ==> c.pc.cur == m.maxNanos)
          && (c.pc.seen < wins ==> c.pc.cur < m.maxNanos))
    && (Stage(c.pc) < 2 ==> c.maxLost == 0)
  }

  ghost predicate MaxRight(ds: seq<Int64>, s: State) {
    && |s.calls| == |ds|
    && s.maxWins <= Sum(Reached(s.calls, 3))
    && (s.mem.maxNanos == 0 || (s.mem.maxNanos > 0 && s.mem.maxNanos in ds))
    && (forall i :: 0 <= i < |ds| ==> MaxCallRight(ds[i], s.calls[i], s.mem, s.maxWins))
    && (forall i :: 0 <= i < |ds| ==> s.calls[i].maxLost < |ds|)
  }

  ghost predicate MinCallRight(n: int, c: Call, m: Accum, wins: nat) {
    && (Stage(c.pc) >= 4 ==> n >= m.minNanos)
    && (c.pc.MinLoad? ==> c.minLost <= wins)
    && (c.pc.MinSwap? ==>
          && c.pc.cur > n && c.minLost <= c.pc.seen <= wins
          && (c.pc.seen == wins ==> c.pc.cur == m.minNanos)
          && (c.pc.seen < wins ==> c.pc.cur > m.minNanos))
    && (Stage(c.pc) < 3 ==> c.minLost == 0)
  }

  ghost predicate MinRight(ds: seq<Int64>, s: State) {
    && |s.calls| == |ds|
    && s.minWins <= Sum(Reached(s.calls, 4))
    && (s.mem.minNanos == MAX_INT64 || s.mem.minNanos in ds)
    && (forall i :: 0 <= i < |ds| ==> MinCallRight(ds[i], s.calls[i], s.mem, s.minWins))
    && (forall i :: 0 <= i < |ds| ==> s.calls[i].minLost < |ds|)
  }

  lemma ReachedStep(calls: seq<Call>, i: nat, c: Call, t: nat)
    requires i < |calls|
    ensures Sum(Reached(calls[i := c], t)) ==
            Sum(Reached(calls, t)) - (if Stage(calls[i].pc) >= t then 1 else 0) + (if Stage(c.pc) >= t then 1 else 0)
  {
    var v := if Stage(c.pc) >= t then 1 else 0;
    assert Reached(calls[i := c], t) == Reached(calls, t)[i := v];
    SumUpdate(Reached(calls, t), i, v);
  }

  lemma AddedStep(ds: seq<Int64>, calls: seq<Call>, i: nat, c: Call)
    requires i < |calls| == |ds|
    ensures Sum(Added(ds, calls[i := c])) ==
            Sum(Added(ds, calls)) - (if Stage(calls[i].pc) >= 2 then ds[i] else 0)
            + (if Stage(c.pc) >= 2 then ds[i] else 0)
  {
    var v := if Stage(c.pc) >= 2 then ds[i] else 0;
    assert Added(ds, calls[i := c]) == Added(ds, calls)[i := v];
    SumUpdate(Added(ds, calls), i, v);
  }

  lemma ReachedAtMost(calls: seq<Call>, i: nat, t: nat)
    requires i < |calls| && Stage(calls[i].pc) < t
    ensures Sum(Reached(calls, t)) < |calls|
  {
    SumUpdate(Reached(calls, t), i, 1);
    SumAtMost(Reached(calls, t)[i := 1], 1);
  }

  /** Only the stepping call changes. */
  lemma StepChangesOne(ds: seq<Int64>, i: nat, s: State, s': State)
    requires Stepped(ds, i, s, s')
    ensures s'.calls == s.calls[i := s'.calls[i]] && |s'.calls| == |s.calls|
    ensures Stage(s.calls[i].pc) <= Stage(s'.calls[i].pc) <= Stage(s.calls[i].pc) + 1
  {}

  lemma CountsKept(ds: seq<Int64>, i: nat, s: State, s': State)
    requires Stepped(ds, i, s, s') && CountsRight(ds, s)
    ensures CountsRight(ds, s')
  {
    StepChangesOne(ds, i, s, s');
    ReachedStep(s.calls, i, s'.calls[i], 1);
    AddedStep(ds, s.calls, i, s'.calls[i]);
    WrapAdd(Sum(Added(ds, s.calls)), ds[i]);
  }

  /** Losing a swap means someone else won since the load, and no call wins twice. */
  lemma MaxKept(ds: seq<Int64>, i: nat, s: State, s': State)
    requires Stepped(ds, i, s, s') && MaxRight(ds, s)
    ensures MaxRight(ds, s')
  {
    hide Wrap, Sum, Reached;
    StepChangesOne(ds, i, s, s');
    ReachedStep(s.calls, i, s'.calls[i], 3);
    if Stage(s.calls[i].pc) < 3 {
      ReachedAtMost(s.calls, i, 3);
    }
    assert MaxCallRight(ds[i], s.calls[i], s.mem, s.maxWins);
    assert MaxCallRight(ds[i], s'.calls[i], s'.mem, s'.maxWins);
    forall j | 0 <= j < |ds| && j != i ensures MaxCallRight(ds[j], s'.calls[j], s'.mem, s'.maxWins) {
      assert MaxCallRight(ds[j], s.calls[j], s.mem, s.maxWins);
    }
  }

  lemma MinKept(ds: seq<Int64>, i: nat, s: State, s': State)
    requires Stepped(ds, i, s, s') && MinRight(ds, s)
    ensures MinRight(ds, s')
  {
    hide Wrap, Sum, Reached;
    StepChangesOne(ds, i, s, s');
    ReachedStep(s.calls, i, s'.calls[i], 4);
    if Stage(s.calls[i].pc) < 4 {
      ReachedAtMost(s.calls, i, 4);
    }
    assert MinCallRight(ds[i], s.calls[i], s.mem, s.minWins);
    assert MinCallRight(ds[i], s'.calls[i], s'.mem, s'.minWins);
    forall j | 0 <= j < |ds| && j != i ensures MinCallRight(ds[j], s'.calls[j], s'.mem, s'.minWins) {
      assert MinCallRight(ds[j], s.calls[j], s.mem, s.minWins);
    }
  }

  ghost predicate Right(ds: seq<Int64>, s: State) {
    CountsRight(ds, s) && MaxRight(ds, s) && MinRight(ds, s)
  }

  lemma {:induction false} RunIsRight(ds: seq<Int64>, schedule: seq<nat>, states: seq<State>, k: nat)
    requires Run(ds, schedule, states) && k < |states|
    ensures Right(ds, states[k])
  {
    if k == 0 {
      var s := Start(ds);
      SumOfEqual(Reached(s.calls, 1), 0);
      SumOfEqual(Reached(s.calls, 3), 0);
      SumOfEqual(Reached(s.calls, 4), 0);
      SumOfEqual(Added(ds, s.calls), 0);
    } else {
      RunIsRight(ds, schedule, states, k - 1);
      assert Stepped(ds, schedule[k - 1], states[k - 1], states[k - 1 + 1]);
      CountsKept(ds, schedule[k - 1], states[k - 1], states[k]);
      MaxKept(ds, schedule[k - 1], states[k - 1], states[k]);
      MinKept(ds, schedule[k - 1], states[k - 1], states[k]);
    }
  }

  // --- What every interleaving guarantees.

  /** Over any stretch of any run the maximum only rises and the minimum only falls. */
  lemma {:induction false} ExtremesAreMonotone(ds: seq<Int64>, schedule: seq<nat>, states: seq<State>, j: nat, k: nat)
    requires Run(ds, schedule, states) && j <= k < |states|
    ensures states[j].mem.maxNanos <= states[k].mem.maxNanos
    ensures states[j].mem.minNanos >= states[k].mem.minNanos
    decreases k - j
  {
    if j < k {
      ExtremesAreMonotone(ds, schedule, states, j, k - 1);
      RunIsRight(ds, schedule, states, k - 1);
      var s, i := states[k - 1], schedule[k - 1];
      assert Stepped(ds, i, s, states[k - 1 + 1]);
      assert MaxCallRight(ds[i], s.calls[i], s.mem, s.maxWins);
      assert MinCallRight(ds[i], s.calls[i], s.mem, s.minWins);
    }
  }

  datatype IOStat = IOStat(count: int, totalTime: int, minTime: int, maxTime: int)

  /** snapshot, taken while no recorder is running. */
  function Snapshot(m: Accum): IOStat {
    IOStat(m.count, m.totalNanos, if m.count > 0 then m.minNanos else 0, m.maxNanos)
  }

  function Greatest(s: seq<Int64>): int
    requires s != []
  {
    if |s| == 1 then s[0] else Max(s[0], Greatest(s[1..]))
  }

  function Least(s: seq<Int64>): int
    requires s != []
  {
    if |s| == 1 then s[0] else Min(s[0], Least(s[1..]))
  }

  lemma {:induction false} ExtremesOf(s: seq<Int64>)
    requires s != []
    ensures forall n :: n in s ==> Least(s) <= n <= Greatest(s)
    ensures Least(s) in s && Greatest(s) in s
  {
    if |s| > 1 {
      ExtremesOf(s[1..]);
      assert s == [s[0]] + s[1..];
    }
  }

  ghost predicate Quiescent(s: State) {
    forall i :: 0 <= i < |s.calls| ==> s.calls[i].pc.Done?
  }

  lemma QuiescentCounts(ds: seq<Int64>, s: State)
    requires CountsRight(ds, s) && Quiescent(s)
    ensures s.mem.count == |ds| && s.mem.totalNanos == Wrap(Sum(ds))
  {
    assert Added(ds, s.calls) == ds;
    SumOfEqual(Reached(s.calls, 1), 1);
  }

  lemma QuiescentExtremes(ds: seq<Int64>, s: State)
    requires MaxRight(ds, s) && MinRight(ds, s) && Quiescent(s)
    ensures ds != [] ==> s.mem.minNanos == Least(ds) && s.mem.maxNanos == Max(0, Greatest(ds))
    ensures ds == [] ==> s.mem.maxNanos == 0
  {
    forall i | 0 <= i < |ds| ensures s.mem.minNanos <= ds[i] <= s.mem.maxNanos {
      assert MaxCallRight(ds[i], s.calls[i], s.mem, s.maxWins);
      assert MinCallRight(ds[i], s.calls[i], s.mem, s.minWins);
    }
    if ds != [] {
      hide Greatest, Least, MaxCallRight, MinCallRight;
      ExtremesOf(ds);
      var g :| 0 <= g < |ds| && ds[g] == Greatest(ds);
      var l :| 0 <= l < |ds| && ds[l] == Least(ds);
      assert s.mem.minNanos <= ds[l] && ds[g] <= s.mem.maxNanos;
    }
  }

  /**
   * Once every call has returned, the snapshot has the number of records, their sum as an int64 (the
   * sum itself when it is one), their least, and their greatest or zero if none is positive.
   */
  lemma QuiescentIsExact(ds: seq<Int64>, schedule: seq<nat>, states: seq<State>)
    requires Run(ds, schedule, states) && Quiescent(states[|schedule|])
    ensures var s := Snapshot(states[|schedule|].mem);
            && s.count == |ds|
            && -0x8000_0000_0000_0000 <= s.totalTime < 0x8000_0000_0000_0000
            && (s.totalTime - Sum(ds)) % 0x1_0000_0000_0000_0000 == 0
            && (-0x8000_0000_0000_0000 <= Sum(ds) < 0x8000_0000_0000_0000 ==> s.totalTime == Sum(ds))
            && (forall d :: d in ds ==> s.minTime <= d <= s.maxTime)
            && (if ds == [] then s.minTime == 0 else s.minTime in ds)
            && 0 <= s.maxTime && (s.maxTime == 0 || s.maxTime in ds)
  {
    hide MaxRight, MinRight, CountsRight, Greatest, Least, Wrap, Sum, Stepped;
    var s := states[|schedule|];
    RunIsRight(ds, schedule, states, |schedule|);
    QuiescentCounts(ds, s);
    QuiescentExtremes(ds, s);
    WrapIsInt64(Sum(ds));
    if ds != [] {
      ExtremesOf(ds);
    }
  }

  /** A lost swap means another call's swap succeeded since this call loaded. */
  lemma LosingMeansAnotherWon(ds: seq<Int64>, schedule: seq<nat>, states: seq<State>, k: nat)
    requires Run(ds, schedule, states) && k < |schedule|
    ensures var i, s, s' := schedule[k], states[k], states[k + 1];
            && i < |ds| == |s.calls| == |s'.calls|
            && (s'.calls[i].maxLost > s.calls[i].maxLost ==> s.calls[i].pc.MaxSwap? && s.calls[i].pc.seen < s.maxWins)
            && (s'.calls[i].minLost > s.calls[i].minLost ==> s.calls[i].pc.MinSwap? && s.calls[i].pc.seen < s.minWins)
  {
    RunIsRight(ds, schedule, states, k);
    var i, s := schedule[k], states[k];
    assert Stepped(ds, i, s, states[k + 1]);
    assert MaxCallRight(ds[i], s.calls[i], s.mem, s.maxWins);
    assert MinCallRight(ds[i], s.calls[i], s.mem, s.minWins);
  }

  /** With N records, neither loop of any call runs more than N times. */
  lemma LoopsRunAtMostN(ds: seq<Int64>, schedule: seq<nat>, states: seq<State>, k: nat, i: nat)
    requires Run(ds, schedule, states) && k < |states| && i < |ds|
    ensures i < |states[k].calls|
    ensures states[k].calls[i].maxLost + 1 <= |ds| && states[k].calls[i].minLost + 1 <= |ds|
  {
    RunIsRight(ds, schedule, states, k);
  }

  /** Steps a call has taken, at least. */
  function Progress(c: Call): nat {
    var lost := 2 * c.maxLost + 2 * c.minLost;
    match c.pc
    case AddCount => lost
    case AddTotal => lost + 1
    case MaxLoad => lost + 2
    case MaxSwap(_, _) => lost + 3
    case MinLoad => lost + 4
    case MinSwap(_, _) => lost + 5
    case Done => lost + 6
  }

  function Progresses(calls: seq<Call>): seq<int> {
    seq(|calls|, i requires 0 <= i < |calls| => Progress(calls[i]))
  }

  lemma ProgressStep(ds: seq<Int64>, i: nat, s: State, s': State)
    requires Stepped(ds, i, s, s')
    ensures Sum(Progresses(s'.calls)) > Sum(Progresses(s.calls))
  {
    StepChangesOne(ds, i, s, s');
    var v := Progress(s'.calls[i]);
    assert v > Progress(s.calls[i]);
    hide Step, Sum, Progress;
    assert Progresses(s'.calls) == Progresses(s.calls)[i := v];
    SumUpdate(Progresses(s.calls), i, v);
  }

  lemma {:induction false} StepsAreProgress(ds: seq<Int64>, schedule: seq<nat>, states: seq<State>, k: nat)
    requires Run(ds, schedule, states) && k < |states|
    ensures k <= Sum(Progresses(states[k].calls))
  {
    if k == 0 {
      SumOfEqual(Progresses(states[0].calls), 0);
    } else {
      hide Sum, Progress, Step;
      StepsAreProgress(ds, schedule, states, k - 1);
      var s, s', i := states[k - 1], states[k], schedule[k - 1];
      assert Stepped(ds, i, s, states[k - 1 + 1]);
      ProgressStep(ds, i, s, s');
    }
  }

  /** Every interleaving ends: no schedule of N records has more than N * (4N + 2) steps. */
  lemma EveryRunEnds(ds: seq<Int64>, schedule: seq<nat>, states: seq<State>)
    requires Run(ds, schedule, states)
    ensures |schedule| <= |ds| * (4 * |ds| + 2)
  {
    var k := |schedule|;
    StepsAreProgress(ds, schedule, states, k);
    RunIsRight(ds, schedule, states, k);
    SumAtMost(Progresses(states[k].calls), 4 * |ds| + 2);
  }
}
