// bench/bench.go: the operation limit shared by the workers of one run, as a state machine in
// which workers, the limit and the deadline interleave freely.
module OpLimits {
  import opened Numbers
  import opened Sequences

  datatype Why = LimitReached | ContextDone | OpFailed

  // A worker loop: look at the context, perform one operation, record it, call IncrementOps.
  // Reaching the limit takes two actions, the counter's add and then the cancellation.
  datatype PC = Looking | Working | Recorded | Cancelling | Stopped(why: Why)

  /** One worker: operations recorded, and what IncrementOps has told it. */
  datatype Worker = Worker(pc: PC, ops: nat, trues: nat, falses: nat)

  datatype State = State(count: nat, cancelled: bool, timedOut: bool, workers: seq<Worker>)

  datatype Action =
    | Look(w: nat)       // select on ctx.Done
    | Miss(w: nat)       // the key was absent: try again without recording
    | Fail(w: nat)       // the operation returned an error
    | Finish(w: nat)     // the operation succeeded and its latency is recorded
    | Increment(w: nat)  // IncrementOps up to its return or its cancel
    | Cancel(w: nat)
    | Deadline           // the context's timeout fires

  function Launch(concurrency: int): State {
    State(0, false, false, seq(Max(concurrency, 1), _ => Worker(Looking, 0, 0, 0)))
  }

  predicate Enabled(s: State, a: Action) {
    match a
    case Look(w) => w < |s.workers| && s.workers[w].pc.Looking?
    case Miss(w) => w < |s.workers| && s.workers[w].pc.Working?
    case Fail(w) => w < |s.workers| && s.workers[w].pc.Working?
    case Finish(w) => w < |s.workers| && s.workers[w].pc.Working?
    case Increment(w) => w < |s.workers| && s.workers[w].pc.Recorded?
    case Cancel(w) => w < |s.workers| && s.workers[w].pc.Cancelling?
    case Deadline => true
  }

  /** Without a positive limit no counter is installed and IncrementOps always says continue. */
  function Do(limit: int, s: State, a: Action): State
    requires Enabled(s, a)
  {
    match a
    case Look(w) => Put(s, w, s.workers[w].(pc := if s.cancelled then Stopped(ContextDone) else Working))
    case Miss(w) => Put(s, w, s.workers[w].(pc := Looking))
    case Fail(w) => Put(s, w, s.workers[w].(pc := Stopped(OpFailed)))
    case Finish(w) => Put(s, w, s.workers[w].(pc := Recorded, ops := s.workers[w].ops + 1))
    case Increment(w) =>
      var k := s.workers[w];
      if limit <= 0 then Put(s, w, k.(pc := Looking, trues := k.trues + 1))
      else if s.count + 1 >= limit then Put(s.(count := s.count + 1), w, k.(pc := Cancelling, falses := k.falses + 1))
      else Put(s.(count := s.count + 1), w, k.(pc := Looking, trues := k.trues + 1))
    case Cancel(w) => Put(s.(cancelled := true), w, s.workers[w].(pc := Stopped(LimitReached)))
    case Deadline => s.(cancelled := true, timedOut := true)
  }

  function Put(s: State, w: nat, k: Worker): State
    requires w < |s.workers|
  {
    s.(workers := s.workers[w := k])
  }

  ghost predicate Run(limit: int, concurrency: int, actions: seq<Action>, states: seq<State>) {
    && |states| == |actions| + 1
    && states[0] == Launch(concurrency)
    && forall k :: 0 <= k < |actions| ==> Moved(limit, actions[k], states[k], states[k + 1])
  }

  ghost predicate Moved(limit: int, a: Action, s: State, s': State) {
    Enabled(s, a) && s' == Do(limit, s, a)
  }

  // --- Totals over the workers.

  function Trues(ws: seq<Worker>): seq<int> {
    seq(|ws|, i requires 0 <= i < |ws| => ws[i].trues)
  }

  function Falses(ws: seq<Worker>): seq<int> {
    seq(|ws|, i requires 0 <= i < |ws| => ws[i].falses)
  }

  function Ops(ws: seq<Worker>): seq<int> {
    seq(|ws|, i requires 0 <= i < |ws| => ws[i].ops)
  }

  lemma PutTotals(ws: seq<Worker>, w: nat, k: Worker)
    requires w < |ws|
    ensures Sum(Trues(ws[w := k])) == Sum(Trues(ws)) - ws[w].trues + k.trues
    ensures Sum(Falses(ws[w := k])) == Sum(Falses(ws)) - ws[w].falses + k.falses
  {
    assert Trues(ws[w := k]) == Trues(ws)[w := k.trues];
    assert Falses(ws[w := k]) == Falses(ws)[w := k.falses];
    SumUpdate(Trues(ws), w, k.trues);
    SumUpdate(Falses(ws), w, k.falses);
  }

  ghost predicate WorkerRight(limit: int, s: State, k: Worker) {
    && k.ops == k.trues + k.falses + (if k.pc.Recorded? then 1 else 0)
    && k.falses == (if k.pc.Cancelling? || k.pc == Stopped(LimitReached) then 1 else 0)
    && (k.falses == 1 ==> s.count >= limit)
    && (k.pc == Stopped(ContextDone) ==> s.cancelled)
  }

  /** The counter's values are handed out once each: below the limit true, from it on false. */
  ghost predicate Right(limit: int, s: State) {
    && Sum(Trues(s.workers)) == Min(s.count, limit - 1)
    && Sum(Falses(s.workers)) == Max(0, s.count - (limit - 1))
    && (s.cancelled && !s.timedOut ==> s.count >= limit)
    && forall w :: 0 <= w < |s.workers| ==> WorkerRight(limit, s, s.workers[w])
  }

  lemma MoveKeepsRight(limit: int, a: Action, s: State, s': State)
    requires limit >= 1 && Moved(limit, a, s, s') && Right(limit, s)
    ensures Right(limit, s') && |s'.workers| == |s.workers|
  {
    hide Sum;
    if !a.Deadline? {
      assert s'.workers == s.workers[a.w := s'.workers[a.w]];
      PutTotals(s.workers, a.w, s'.workers[a.w]);
      assert WorkerRight(limit, s, s.workers[a.w]);
    }
    forall w | 0 <= w < |s'.workers| ensures WorkerRight(limit, s', s'.workers[w]) {
      assert WorkerRight(limit, s, s.workers[w]);
    }
  }

  lemma {:induction false} RunIsRight(limit: int, concurrency: int, actions: seq<Action>, states: seq<State>, k: nat)
    requires limit >= 1 && Run(limit, concurrency, actions, states) && k < |states|
    ensures Right(limit, states[k]) && |states[k].workers| == Max(concurrency, 1)
  {
    if k == 0 {
      SumOfEqual(Trues(states[0].workers), 0);
      SumOfEqual(Falses(states[0].workers), 0);
    } else {
      RunIsRight(limit, concurrency, actions, states, k - 1);
      assert Moved(limit, actions[k - 1], states[k - 1], states[k - 1 + 1]);
      MoveKeepsRight(limit, actions[k - 1], states[k - 1], states[k]);
    }
  }

  // --- What every interleaving guarantees.

  /** At most M-1 calls return true in all, and at most one returns false to any worker. */
  lemma AnswersBounded(limit: int, concurrency: int, actions: seq<Action>, states: seq<State>, k: nat)
    requires limit >= 1 && Run(limit, concurrency, actions, states) && k < |states|
    ensures Sum(Trues(states[k].workers)) <= limit - 1
    ensures forall w :: 0 <= w < |states[k].workers| ==> states[k].workers[w].falses <= 1
    ensures forall w :: 0 <= w < |states[k].workers| && states[k].workers[w].falses == 1 ==>
              states[k].workers[w].pc in {Cancelling, Stopped(LimitReached)}
  {
    RunIsRight(limit, concurrency, actions, states, k);
    forall w | 0 <= w < |states[k].workers| ensures WorkerRight(limit, states[k], states[k].workers[w]) {}
  }

  lemma {:induction false} OpsSplit(limit: int, s: State, ws: seq<Worker>)
    requires forall w :: 0 <= w < |ws| ==> WorkerRight(limit, s, ws[w])
    ensures Sum(Trues(ws)) + Sum(Falses(ws)) <= Sum(Ops(ws)) <= Sum(Trues(ws)) + |ws|
  {
    if ws != [] {
      OpsSplit(limit, s, ws[1..]);
      assert WorkerRight(limit, s, ws[0]);
      assert Trues(ws)[1..] == Trues(ws[1..]);
      assert Falses(ws)[1..] == Falses(ws[1..]);
      assert Ops(ws)[1..] == Ops(ws[1..]);
    }
  }

  /** Operations recorded never exceed M+W-1, at any moment of any run. */
  lemma OpsBounded(limit: int, concurrency: int, actions: seq<Action>, states: seq<State>, k: nat)
    requires limit >= 1 && Run(limit, concurrency, actions, states) && k < |states|
    ensures states[k].count <= Sum(Ops(states[k].workers)) <= limit + Max(concurrency, 1) - 1
  {
    RunIsRight(limit, concurrency, actions, states, k);
    OpsSplit(limit, states[k], states[k].workers);
  }

  /** If every worker stopped, none on an error and no deadline fired, the limit was reached. */
  lemma LimitIsReached(limit: int, concurrency: int, actions: seq<Action>, states: seq<State>, k: nat)
    requires limit >= 1 && Run(limit, concurrency, actions, states) && k < |states|
    requires !states[k].timedOut
    requires forall w :: 0 <= w < |states[k].workers| ==>
               states[k].workers[w].pc in {Stopped(LimitReached), Stopped(ContextDone)}
    ensures limit <= states[k].count <= Sum(Ops(states[k].workers))
  {
    RunIsRight(limit, concurrency, actions, states, k);
    OpsBounded(limit, concurrency, actions, states, k);
    assert WorkerRight(limit, states[k], states[k].workers[0]);
  }

  // --- Cancellation.

  /** What a worker may still record once the context is done. */
  ghost function Owed(pc: PC): nat {
    if pc.Working? then 1 else 0
  }

  lemma DoneStep(limit: int, a: Action, s: State, s': State, w: nat)
    requires Moved(limit, a, s, s') && s.cancelled && w < |s.workers|
    ensures s'.cancelled && |s'.workers| == |s.workers|
    ensures s'.workers[w].ops + Owed(s'.workers[w].pc) <= s.workers[w].ops + Owed(s.workers[w].pc)
  {}

  /** Once the context is done, each worker records at most the operation it was performing. */
  lemma {:induction false} AtMostOneMore(limit: int, concurrency: int, actions: seq<Action>, states: seq<State>,
                                         k: nat, n: nat, w: nat)
    requires Run(limit, concurrency, actions, states) && k <= n < |states|
    requires states[k].cancelled && w < |states[k].workers|
    ensures states[n].cancelled && |states[n].workers| == |states[k].workers|
    ensures states[n].workers[w].ops + Owed(states[n].workers[w].pc)
         <= states[k].workers[w].ops + Owed(states[k].workers[w].pc) <= states[k].workers[w].ops + 1
    decreases n
  {
    if k < n {
      AtMostOneMore(limit, concurrency, actions, states, k, n - 1, w);
      assert Moved(limit, actions[n - 1], states[n - 1], states[n - 1 + 1]);
      DoneStep(limit, actions[n - 1], states[n - 1], states[n], w);
    }
  }

  /** Without a positive limit no call ever says stop: only the deadline ends a run, and nothing is counted. */
  lemma {:induction false} NoLimitNeverStops(limit: int, concurrency: int, actions: seq<Action>, states: seq<State>,
                                             k: nat)
    requires limit <= 0 && Run(limit, concurrency, actions, states) && k < |states|
    ensures states[k].count == 0 && (states[k].cancelled ==> states[k].timedOut)
    ensures forall w :: 0 <= w < |states[k].workers| ==>
              var c := states[k].workers[w];
              && c.falses == 0 && c.ops == c.trues + (if c.pc.Recorded? then 1 else 0)
              && !c.pc.Cancelling? && c.pc != Stopped(LimitReached)
  {
    if k > 0 {
      NoLimitNeverStops(limit, concurrency, actions, states, k - 1);
      assert Moved(limit, actions[k - 1], states[k - 1], states[k - 1 + 1]);
    }
  }

  /** When, among the first k actions, a was taken. */
  ghost function Taken(actions: seq<Action>, k: nat, a: Action): set<nat>
    requires k <= |actions|
  {
    set i: nat | i < k && actions[i] == a
  }

  lemma TakenStep(actions: seq<Action>, k: nat, a: Action)
    requires k < |actions|
    ensures |Taken(actions, k + 1, a)| == |Taken(actions, k, a)| + if actions[k] == a then 1 else 0
  {
    var t := Taken(actions, k, a);
    if actions[k] == a {
      assert Taken(actions, k + 1, a) == t + {k} && k !in t;
    } else {
      assert Taken(actions, k + 1, a) == t;
    }
  }

  /** What is recorded is what succeeded, and every success is followed by one call of IncrementOps. */
  lemma {:induction false} OpsAreSuccesses(limit: int, concurrency: int, actions: seq<Action>, states: seq<State>,
                                           k: nat, w: nat)
    requires Run(limit, concurrency, actions, states) && k < |states| && w < Max(concurrency, 1)
    ensures w < |states[k].workers|
    ensures var c := states[k].workers[w];
            && c.ops == |Taken(actions, k, Finish(w))|
            && c.trues + c.falses == |Taken(actions, k, Increment(w))|
  {
    hide Taken;
    if k == 0 {
      NothingTaken(actions);
    } else {
      OpsAreSuccesses(limit, concurrency, actions, states, k - 1, w);
      assert Moved(limit, actions[k - 1], states[k - 1], states[k - 1 + 1]);
      TakenStep(actions, k - 1, Finish(w));
      TakenStep(actions, k - 1, Increment(w));
    }
  }

  lemma NothingTaken(actions: seq<Action>)
    ensures forall a :: Taken(actions, 0, a) == {}
  {}

  /** A worker that has stopped, as a failed operation makes it, does nothing more. */
  lemma {:induction false} StoppedStays(limit: int, concurrency: int, actions: seq<Action>, states: seq<State>,
                                        k: nat, n: nat, w: nat)
    requires Run(limit, concurrency, actions, states) && k < n < |states|
    requires w < |states[k].workers| && (states[k].workers[w].pc.Stopped? || actions[k] == Fail(w))
    ensures w < |states[n].workers| && states[n].workers[w].pc.Stopped?
    ensures states[k].workers[w].pc.Stopped? ==> states[n].workers[w] == states[k].workers[w]
    ensures actions[k] == Fail(w) ==> states[n].workers[w] == states[k].workers[w].(pc := Stopped(OpFailed))
    decreases n
  {
    assert Moved(limit, actions[n - 1], states[n - 1], states[n - 1 + 1]);
    if k + 1 < n {
      StoppedStays(limit, concurrency, actions, states, k, n - 1, w);
    }
  }

  /** The context is done exactly when the deadline has fired or a worker has been told of the limit and left. */
  lemma {:induction false} DoneMeansWhy(limit: int, concurrency: int, actions: seq<Action>, states: seq<State>, k: nat)
    requires Run(limit, concurrency, actions, states) && k < |states|
    ensures states[k].cancelled <==>
              states[k].timedOut ||
              exists w :: 0 <= w < |states[k].workers| && states[k].workers[w].pc == Stopped(LimitReached)
  {
    if k > 0 {
      DoneMeansWhy(limit, concurrency, actions, states, k - 1);
      var s, s' := states[k - 1], states[k];
      assert Moved(limit, actions[k - 1], s, states[k - 1 + 1]);
      forall w | 0 <= w < |s.workers| && s.workers[w].pc == Stopped(LimitReached)
        ensures w < |s'.workers| && s'.workers[w].pc == Stopped(LimitReached)
      {}
      match actions[k - 1]
      case Cancel(w) => assert s'.workers[w].pc == Stopped(LimitReached);
      case _ =>
        forall w | 0 <= w < |s'.workers| && s'.workers[w].pc == Stopped(LimitReached)
          ensures w < |s.workers| && s.workers[w].pc == Stopped(LimitReached)
        {}
    }
  }
}
