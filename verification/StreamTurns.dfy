// bench/write.go: whose turn it is. Over any run, the k-th sorted batch of a worker is a run of keys
// of its stream number k modulo the streams it owns, of the length asked for.
module StreamTurns {
  import opened Keys
  import opened Numbers
  import opened SortedStreams

  /** How often the action was taken. */
  ghost function Times(actions: seq<Action>, a: Action): nat {
    if actions == [] then 0
    else Times(actions[..|actions| - 1], a) + if actions[|actions| - 1] == a then 1 else 0
  }

  lemma TimesStep(actions: seq<Action>, k: nat, a: Action)
    requires k < |actions|
    ensures Times(actions[..k + 1], a) == Times(actions[..k], a) + (if actions[k] == a then 1 else 0)
    ensures Times(actions[..0], a) == 0
  {
    assert actions[..k + 1][..k] == actions[..k];
  }

  lemma NoTimes(actions: seq<Action>, a: Action)
    ensures Times(actions[..0], a) == 0
  {}

  /** Where worker w stands after the actions given. */
  ghost predicate TurnRight(cfg: Config, w: nat, wr: Writer, actions: seq<Action>)
    requires ValidConfig(cfg)
  {
    var begun, sent, n := Times(actions, BeginSorted(w)), Times(actions, SetSorted(w)), |Streams(cfg, w)|;
    && wr.turn == begun
    && (begun > 0 ==> n > 0)
    && (wr.phase.Sorting? ==> begun > 0 && wr.phase.i == (begun - 1) % n)
    && ScatterRight(cfg, w, wr, actions)
    && (if wr.phase.Sorting? then sent + wr.phase.left == cfg.batchSize * begun
        else sent <= cfg.batchSize * begun && (!wr.phase.Stopped? ==> sent == cfg.batchSize * begun))
  }

  /** How far the random batch in hand has got. */
  ghost predicate ScatterRight(cfg: Config, w: nat, wr: Writer, actions: seq<Action>) {
    var begun, sent := Times(actions, BeginRandom(w)), Times(actions, SetRandom(w));
    if wr.phase.Scattering? then sent + wr.phase.left == cfg.batchSize * begun
    else sent <= cfg.batchSize * begun && (!wr.phase.Stopped? ==> sent == cfg.batchSize * begun)
  }

  lemma MoveKeepsTurn(cfg: Config, tail: Key -> Key, actions: seq<Action>, k: nat, s: State, s': State, w: nat)
    requires ValidConfig(cfg) && k < |actions| && w < |s.writers|
    requires Moved(cfg, tail, actions[k], s, s') && TurnRight(cfg, w, s.writers[w], actions[..k])
    ensures |s'.writers| == |s.writers| && TurnRight(cfg, w, s'.writers[w], actions[..k + 1])
  {
    hide SortedKey, Owned, Times;
    TimesStep(actions, k, BeginSorted(w));
    TimesStep(actions, k, SetSorted(w));
    TimesStep(actions, k, BeginRandom(w));
    TimesStep(actions, k, SetRandom(w));
    OneMoreBatch(cfg.batchSize, Times(actions[..k], BeginSorted(w)));
    OneMoreBatch(cfg.batchSize, Times(actions[..k], BeginRandom(w)));
  }

  lemma OneMoreBatch(size: nat, begun: nat)
    ensures size * (begun + 1) == size * begun + size
  {}

  lemma {:induction false} RunKeepsTurn(cfg: Config, tail: Key -> Key, actions: seq<Action>, states: seq<State>,
                                        k: nat, w: nat)
    requires ValidConfig(cfg) && Run(cfg, tail, actions, states) && k < |states| && w < cfg.workers
    ensures |states[k].writers| == cfg.workers && TurnRight(cfg, w, states[k].writers[w], actions[..k])
  {
    hide Do, Owned;
    if k > 0 {
      RunKeepsTurn(cfg, tail, actions, states, k - 1, w);
      assert Moved(cfg, tail, actions[k - 1], states[k - 1], states[k - 1 + 1]);
      MoveKeepsTurn(cfg, tail, actions, k - 1, states[k - 1], states[k], w);
    }
  }

  /**
   * A key set during the k-th sorted batch its worker began (the first being batch 0) goes to stream
   * number k modulo the streams owned, and is that stream's next key. Nothing else adds a key.
   */
  lemma BatchesRotate(cfg: Config, tail: Key -> Key, actions: seq<Action>, states: seq<State>, m: nat)
    requires ValidConfig(cfg) && Run(cfg, tail, actions, states) && m < |actions|
    ensures var log := states[m].log;
            match actions[m]
            case SetSorted(w) =>
              var begun, owned := Times(actions[..m], BeginSorted(w)), Streams(cfg, w);
              && begun > 0 && owned != []
              && var r := owned[(begun - 1) % |owned|];
                 states[m + 1].log == log + [Emission(w, r, SortedKey(tail, r, cfg.streams, Emitted(log, r)))]
            case _ => states[m + 1].log == log
  {
    hide SortedKey, Owned, Times;
    RunIsRight(cfg, tail, actions, states, m);
    assert Moved(cfg, tail, actions[m], states[m], states[m + 1]);
    if actions[m].SetSorted? {
      var w := actions[m].w;
      RunKeepsTurn(cfg, tail, actions, states, m, w);
      var r := Streams(cfg, w)[states[m].writers[w].phase.i];
      assert WriterRight(cfg, w, states[m].writers[w], states[m].log);
      KeyModulo(tail, r, cfg.streams, Emitted(states[m].log, r));
    }
  }

  /** Whenever a worker begins a batch, all its batches so far, of either sort, have had batchSize keys each. */
  lemma BatchesAreFull(cfg: Config, tail: Key -> Key, actions: seq<Action>, states: seq<State>, m: nat)
    requires ValidConfig(cfg) && Run(cfg, tail, actions, states) && m < |actions|
    requires actions[m].BeginSorted? || actions[m].BeginRandom?
    ensures var w := actions[m].w;
            && Times(actions[..m], SetSorted(w)) == cfg.batchSize * Times(actions[..m], BeginSorted(w))
            && Times(actions[..m], SetRandom(w)) == cfg.batchSize * Times(actions[..m], BeginRandom(w))
    ensures actions[m].BeginRandom? ==> cfg.mixed
  {
    hide SortedKey, Owned, Times;
    RunIsRight(cfg, tail, actions, states, m);
    assert Moved(cfg, tail, actions[m], states[m], states[m + 1]);
    RunKeepsTurn(cfg, tail, actions, states, m, actions[m].w);
  }

  /** The sorted batches worker w has begun on the i-th of its streams, within the first k actions. */
  ghost function BatchesOn(actions: seq<Action>, states: seq<State>, k: nat, w: nat, i: nat): nat
    requires k <= |actions| < |states|
  {
    if k == 0 then 0
    else
      var s := states[k];
      BatchesOn(actions, states, k - 1, w, i) +
      if actions[k - 1] == BeginSorted(w) && w < |s.writers| && s.writers[w].phase.Sorting? && s.writers[w].phase.i == i
      then 1 else 0
  }

  /** How many of 0 .. b-1 leave remainder i modulo n. */
  function Share(b: nat, n: nat, i: nat): nat
    requires n > 0
  {
    b / n + if i < b % n then 1 else 0
  }

  lemma ShareStep(b: nat, n: nat, i: nat)
    requires i < n
    ensures Share(0, n, i) == 0
    ensures Share(b + 1, n, i) == Share(b, n, i) + if b % n == i then 1 else 0
  {
    if b % n + 1 == n {
      assert b + 1 == (b / n + 1) * n;
      Divided(b + 1, n, b / n + 1, 0);
    } else {
      assert b + 1 == b / n * n + (b % n + 1);
      Divided(b + 1, n, b / n, b % n + 1);
    }
  }

  lemma Divided(x: nat, n: nat, q: nat, r: nat)
    requires r < n && x == q * n + r
    ensures x / n == q && x % n == r
  {
    assert x == x / n * n + x % n;
    if x / n < q {
      MulMonotone(x / n + 1, q, n);
    } else if q < x / n {
      MulMonotone(q + 1, x / n, n);
    }
  }

  lemma {:induction false} BatchesShared(cfg: Config, tail: Key -> Key, actions: seq<Action>, states: seq<State>,
                                         k: nat, w: nat, i: nat)
    requires ValidConfig(cfg) && Run(cfg, tail, actions, states) && k < |states|
    requires w < cfg.workers && i < |Streams(cfg, w)|
    ensures BatchesOn(actions, states, k, w, i) == Share(Times(actions[..k], BeginSorted(w)), |Streams(cfg, w)|, i)
  {
    hide Do, Owned, Times, Share;
    var n := |Streams(cfg, w)|;
    ShareStep(Times(actions[..if k == 0 then 0 else k - 1], BeginSorted(w)), n, i);
    if k > 0 {
      BatchesShared(cfg, tail, actions, states, k - 1, w, i);
      RunKeepsTurn(cfg, tail, actions, states, k, w);
      TimesStep(actions, k - 1, BeginSorted(w));
      assert Moved(cfg, tail, actions[k - 1], states[k - 1], states[k - 1 + 1]);
      if actions[k - 1] == BeginSorted(w) {
        BeginsSorting(cfg, tail, states[k - 1], states[k], w);
      }
    } else {
      NoTimes(actions, BeginSorted(w));
    }
  }

  lemma BeginsSorting(cfg: Config, tail: Key -> Key, s: State, s': State, w: nat)
    requires ValidConfig(cfg) && Moved(cfg, tail, BeginSorted(w), s, s')
    ensures w < |s'.writers| && s'.writers[w].phase.Sorting?
  {}

  /** A worker serves its streams evenly: no two of them differ by more than one sorted batch. */
  lemma TurnsAreEven(cfg: Config, tail: Key -> Key, actions: seq<Action>, states: seq<State>,
                     k: nat, w: nat, i: nat, j: nat)
    requires ValidConfig(cfg) && Run(cfg, tail, actions, states) && k < |states|
    requires w < cfg.workers && i < |Streams(cfg, w)| && j < |Streams(cfg, w)|
    ensures BatchesOn(actions, states, k, w, i) <= BatchesOn(actions, states, k, w, j) + 1
  {
    hide Owned;
    BatchesShared(cfg, tail, actions, states, k, w, i);
    BatchesShared(cfg, tail, actions, states, k, w, j);
  }
}
