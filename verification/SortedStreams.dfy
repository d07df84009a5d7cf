// bench/write.go: sorted key streams over disjoint slices of the key space, each written by
// exactly one of the workers, as a state machine over the workers' Set calls.
module SortedStreams {
  import opened Keys
  import opened Numbers

  const TWO_16: nat := 65536

  function Pow256(k: nat): nat {
    if k == 0 then 1 else 256 * Pow256(k - 1)
  }

  /** The k-byte big-endian encoding. */
  function BigEndian(v: nat, k: nat): (e: Key)
    ensures |e| == k
  {
    if k == 0 then [] else BigEndian(v / 256, k - 1) + [v % 256]
  }

  lemma {:induction false} CompareAfterPrefix(p: Key, c: Byte, d: Byte, x: Key, y: Key)
    requires c < d
    ensures Lt(p + [c] + x, p + [d] + y)
  {
    if p == [] {
      assert p + [c] + x == [c] + x && p + [d] + y == [d] + y;
    } else {
      CompareAfterPrefix(p[1..], c, d, x, y);
      assert (p + [c] + x)[1..] == p[1..] + [c] + x;
      assert (p + [d] + y)[1..] == p[1..] + [d] + y;
    }
  }

  /** Big-endian encodings order like the numbers they encode, whatever follows them. */
  lemma {:induction false} BigEndianOrder(a: nat, b: nat, k: nat, x: Key, y: Key)
    requires a < b < Pow256(k)
    ensures Lt(BigEndian(a, k) + x, BigEndian(b, k) + y)
  {
    var c, d := a % 256, b % 256;
    assert BigEndian(a, k) + x == BigEndian(a / 256, k - 1) + ([c] + x);
    assert BigEndian(b, k) + y == BigEndian(b / 256, k - 1) + ([d] + y);
    if a / 256 < b / 256 {
      BigEndianOrder(a / 256, b / 256, k - 1, [c] + x, [d] + y);
    } else {
      var p := BigEndian(a / 256, k - 1);
      CompareAfterPrefix(p, c, d, x, y);
      assert p + [c] + x == p + ([c] + x) && p + [d] + y == p + ([d] + y);
    }
  }

  function Quotient(r: nat, streams: nat): nat
    requires streams > 0
  {
    r * TWO_16 / streams
  }

  /** The first two bytes of stream r's keys, as a 16-bit number. */
  function Slice(r: nat, streams: nat): nat
    requires streams > 0
  {
    Quotient(r, streams) % TWO_16
  }

  /** The n-th key of stream r; tail stands for the part of the SHA-256 digest that pads it. */
  function SortedKey(tail: Key -> Key, r: nat, streams: nat, n: nat): Key
    requires streams > 0
  {
    var head := BigEndian(Slice(r, streams), 2) + BigEndian(n % TWO_64, 8);
    head + tail(head)
  }

  /** The number a big-endian byte string stands for. */
  ghost function Number(e: Key): nat {
    if e == [] then 0 else Number(e[..|e| - 1]) * 256 + e[|e| - 1]
  }

  lemma {:induction false} BigEndianDecodes(v: nat, k: nat)
    requires v < Pow256(k)
    ensures Number(BigEndian(v, k)) == v
  {
    if k > 0 {
      BigEndianDecodes(v / 256, k - 1);
      assert BigEndian(v, k)[..k - 1] == BigEndian(v / 256, k - 1);
    }
  }

  lemma NumberStep(e: Key, n: nat)
    requires n < |e|
    ensures Number(e[..n + 1]) == Number(e[..n]) * 256 + e[n] && Number(e[..0]) == 0
  {
    assert e[..n + 1][..n] == e[..n];
  }

  lemma EightBytes(e: Key)
    requires |e| == 8
    ensures Number(e) == e[0] as int * 0x100_0000_0000_0000 + e[1] as int * 0x1_0000_0000_0000
                         + e[2] as int * 0x100_0000_0000 + e[3] as int * 0x1_0000_0000
                         + e[4] as int * 0x100_0000 + e[5] as int * 0x1_0000 + e[6] as int * 0x100 + e[7] as int
  {
    hide Number;
    NumberStep(e, 0);
    NumberStep(e, 1);
    NumberStep(e, 2);
    NumberStep(e, 3);
    NumberStep(e, 4);
    NumberStep(e, 5);
    NumberStep(e, 6);
    NumberStep(e, 7);
    assert e[..8] == e;
  }

  lemma TwoBytes(e: Key)
    requires |e| == 2
    ensures Number(e) == e[0] as int * 256 + e[1] as int
  {
    NumberStep(e, 0);
    NumberStep(e, 1);
    assert e[..2] == e;
  }

  /** Two bytes place the stream evenly in the key space, eight hold the counter, and a digest of both pads. */
  lemma KeyLayout(tail: Key -> Key, r: nat, streams: nat, n: nat)
    requires r < streams
    ensures var k := SortedKey(tail, r, streams, n);
            && |k| >= 10
            && k[0] as int * 256 + k[1] as int == r * 65536 / streams
            && k[2] as int * 0x100_0000_0000_0000 + k[3] as int * 0x1_0000_0000_0000 + k[4] as int * 0x100_0000_0000
               + k[5] as int * 0x1_0000_0000 + k[6] as int * 0x100_0000 + k[7] as int * 0x1_0000
               + k[8] as int * 0x100 + k[9] as int
               == n % 0x1_0000_0000_0000_0000
            && k[10..] == tail(k[..10])
  {
    hide BigEndian, Number;
    QuotientBelow(r, streams);
    var s, c := BigEndian(Slice(r, streams), 2), BigEndian(n % TWO_64, 8);
    assert Pow256(2) == TWO_16 && Pow256(8) == TWO_64;
    BigEndianDecodes(Slice(r, streams), 2);
    BigEndianDecodes(n % TWO_64, 8);
    TwoBytes(s);
    EightBytes(c);
    var k := SortedKey(tail, r, streams, n);
    assert k[..10] == s + c && k[..2] == s && k[2..10] == c;
    forall i | 0 <= i < 8 ensures k[i + 2] == c[i] {}
  }

  lemma QuotientBelow(r: nat, streams: nat)
    requires r < streams
    ensures Slice(r, streams) == r * 65536 / streams < 65536
  {
    var q := r * TWO_16 / streams;
    assert r * TWO_16 == q * streams + r * TWO_16 % streams;
    if q >= TWO_16 {
      MulMonotone(TWO_16, q, streams);
      assert false;
    }
  }

  lemma QuotientsApart(r: nat, q: nat, streams: nat)
    requires r < q < streams <= TWO_16
    ensures Quotient(r, streams) < Quotient(q, streams) < TWO_16
  {
    var a, b := Quotient(r, streams), Quotient(q, streams);
    assert r * TWO_16 == a * streams + r * TWO_16 % streams;
    assert q * TWO_16 == b * streams + q * TWO_16 % streams;
    assert q * TWO_16 >= r * TWO_16 + TWO_16;
    if a >= b {
      MulMonotone(b, a, streams);
      assert false;
    }
    if b >= TWO_16 {
      MulMonotone(TWO_16, b, streams);
      assert false;
    }
  }

  /** Keys rise within a stream. */
  lemma KeysRise(tail: Key -> Key, r: nat, streams: nat, n: nat, m: nat)
    requires streams > 0 && n < m < TWO_64
    ensures Lt(SortedKey(tail, r, streams, n), SortedKey(tail, r, streams, m))
  {
    hide Compare, BigEndian;
    var p := BigEndian(Slice(r, streams), 2);
    var x, y := BigEndian(n, 8), BigEndian(m, 8);
    var u, v := tail(p + x), tail(p + y);
    assert Pow256(8) == TWO_64;
    BigEndianOrder(n, m, 8, u, v);
    PrefixKeepsOrder(p, x + u, y + v);
    assert p + x + u == p + (x + u) && p + y + v == p + (y + v);
  }

  lemma {:induction false} PrefixKeepsOrder(p: Key, x: Key, y: Key)
    requires Lt(x, y)
    ensures Lt(p + x, p + y)
  {
    if p == [] {
      assert p + x == x && p + y == y;
    } else {
      PrefixKeepsOrder(p[1..], x, y);
      assert (p + x)[1..] == p[1..] + x && (p + y)[1..] == p[1..] + y;
    }
  }

  lemma SlicesApart(r: nat, q: nat, streams: nat)
    requires r < q < streams <= TWO_16
    ensures Slice(r, streams) < Slice(q, streams) < TWO_16
  {
    hide Quotient;
    QuotientsApart(r, q, streams);
  }

  /** Streams never interleave: every key of a stream sorts below every key of a later one. */
  lemma StreamsApart(tail: Key -> Key, r: nat, q: nat, streams: nat, n: nat, m: nat)
    requires r < q < streams <= TWO_16
    ensures Lt(SortedKey(tail, r, streams, n), SortedKey(tail, q, streams, m))
  {
    hide Compare, BigEndian, Slice;
    SlicesApart(r, q, streams);
    var a, b := Slice(r, streams), Slice(q, streams);
    var x, y := BigEndian(n % TWO_64, 8), BigEndian(m % TWO_64, 8);
    var u, v := x + tail(BigEndian(a, 2) + x), y + tail(BigEndian(b, 2) + y);
    assert Pow256(2) == TWO_16;
    BigEndianOrder(a, b, 2, u, v);
    assert SortedKey(tail, r, streams, n) == BigEndian(a, 2) + u;
    assert SortedKey(tail, q, streams, m) == BigEndian(b, 2) + v;
  }

  // --- Ownership.

  /** The streams worker w takes: w, w + workers, w + 2 workers, ... */
  function Owned(w: nat, workers: nat, streams: nat): seq<nat>
    requires workers > 0
    decreases streams - w
  {
    if w >= streams then [] else [w] + Owned(w + workers, workers, streams)
  }

  method OwnedStreams(workerID: nat, concurrency: nat, streams: nat) returns (owned: seq<nat>)
    requires concurrency > 0
    ensures owned == Owned(workerID, concurrency, streams)
  {
    owned := [];
    var r := workerID;
    while r < streams
      invariant owned + Owned(r, concurrency, streams) == Owned(workerID, concurrency, streams)
      decreases streams - r
    {
      owned := owned + [r];
      r := r + concurrency;
    }
  }

  /** The i-th stream worker w takes. */
  ghost function StreamAt(w: nat, i: nat, workers: nat): nat {
    w + i * workers
  }

  lemma StreamAtShift(w: nat, i: nat, workers: nat)
    ensures StreamAt(w, 0, workers) == w
    ensures StreamAt(w + workers, i, workers) == StreamAt(w, i + 1, workers)
  {}

  lemma StreamAtRises(w: nat, i: nat, j: nat, workers: nat)
    requires i < j && workers > 0
    ensures StreamAt(w, i, workers) < StreamAt(w, j, workers)
  {
    MulMonotone(i + 1, j, workers);
  }

  lemma StreamAtResidue(w: nat, i: nat, workers: nat)
    requires w < workers
    ensures StreamAt(w, i, workers) % workers == w
  {
    var r := w + i * workers;
    assert r == workers * (r / workers) + r % workers;
    if r / workers < i {
      MulMonotone(r / workers + 1, i, workers);
    } else if r / workers > i {
      MulMonotone(i + 1, r / workers, workers);
    }
  }

  lemma IndexOfStream(workers: nat, r: nat)
    requires workers > 0
    ensures r == StreamAt(r % workers, r / workers, workers)
  {}

  lemma {:induction false} OwnedAt(w: nat, workers: nat, streams: nat)
    requires workers > 0
    ensures var o := Owned(w, workers, streams);
            && (forall i :: 0 <= i < |o| ==> o[i] == StreamAt(w, i, workers) && o[i] < streams)
            && streams <= StreamAt(w, |o|, workers)
    decreases streams - w
  {
    hide StreamAt;
    StreamAtShift(w, 0, workers);
    if w < streams {
      OwnedAt(w + workers, workers, streams);
      var rest := Owned(w + workers, workers, streams);
      forall i: nat {:trigger StreamAt(w + workers, i, workers)} | i <= |rest|
        ensures StreamAt(w + workers, i, workers) == StreamAt(w, i + 1, workers)
      {
        StreamAtShift(w, i, workers);
      }
    }
  }

  lemma OwnsStreamAt(w: nat, workers: nat, streams: nat, i: nat)
    requires workers > 0 && StreamAt(w, i, workers) < streams
    ensures StreamAt(w, i, workers) in Owned(w, workers, streams)
  {
    hide Owned, StreamAt;
    var o := Owned(w, workers, streams);
    OwnedAt(w, workers, streams);
    if |o| < i {
      StreamAtRises(w, |o|, i, workers);
    }
    assert o[i] == StreamAt(w, i, workers);
  }

  lemma OwnsItsClass(w: nat, workers: nat, streams: nat, r: nat)
    requires w < workers && r < streams && r % workers == w
    ensures r in Owned(w, workers, streams)
  {
    hide Owned, StreamAt;
    IndexOfStream(workers, r);
    OwnsStreamAt(w, workers, streams, r / workers);
  }

  /** A worker owns exactly the streams of its residue class, in increasing order. */
  lemma OwnedByResidue(w: nat, workers: nat, streams: nat)
    requires w < workers
    ensures forall r: nat :: r in Owned(w, workers, streams) <==> r < streams && r % workers == w
    ensures forall i, j :: 0 <= i < j < |Owned(w, workers, streams)| ==>
              Owned(w, workers, streams)[i] < Owned(w, workers, streams)[j]
  {
    var o := Owned(w, workers, streams);
    OwnedAt(w, workers, streams);
    hide Owned, StreamAt;
    forall r: nat | r < streams && r % workers == w ensures r in o {
      OwnsItsClass(w, workers, streams, r);
    }
    forall i | 0 <= i < |o| ensures o[i] % workers == w {
      StreamAtResidue(w, i, workers);
    }
    forall i, j | 0 <= i < j < |o| ensures o[i] < o[j] {
      StreamAtRises(w, i, j, workers);
    }
  }

  /** Each stream has exactly one owner among the workers. */
  lemma OneOwner(workers: nat, streams: nat, r: nat)
    requires workers > 0 && r < streams
    ensures r % workers < workers && r in Owned(r % workers, workers, streams)
    ensures forall w :: 0 <= w < workers && r in Owned(w, workers, streams) ==> w == r % workers
  {
    hide Owned;
    OwnedByResidue(r % workers, workers, streams);
    forall w | 0 <= w < workers && r in Owned(w, workers, streams) ensures w == r % workers {
      OwnedByResidue(w, workers, streams);
    }
  }

  // --- The workers, interleaving freely.

  /** Settings of one run; mixed allows random-key batches among the sorted ones. */
  datatype Config = Config(streams: nat, workers: nat, batchSize: nat, mixed: bool)

  ghost predicate ValidConfig(cfg: Config) {
    cfg.workers > 0 && cfg.batchSize > 0 && 1 <= cfg.streams <= TWO_16
  }

  datatype Phase = Between | Sorting(i: nat, left: nat) | Scattering(left: nat) | Stopped

  /** A worker's next key in each stream it owns, whose turn it is, and the batch in hand. */
  datatype Writer = Writer(next: seq<nat>, turn: nat, phase: Phase)

  /** One key put into a batch by the sorted branch. */
  datatype Emission = Emission(worker: nat, stream: nat, key: Key)

  datatype State = State(writers: seq<Writer>, log: seq<Emission>)

  datatype Action =
    | BeginSorted(w: nat)
    | BeginRandom(w: nat)
    | SetSorted(w: nat)
    | SetRandom(w: nat)
    | Commit(w: nat)
    | Stop(w: nat)

  ghost function Streams(cfg: Config, w: nat): seq<nat>
    requires cfg.workers > 0
  {
    Owned(w, cfg.workers, cfg.streams)
  }

  ghost function Launch(cfg: Config): State
    requires cfg.workers > 0
  {
    State(seq(cfg.workers, w requires 0 <= w < cfg.workers =>
                Writer(seq(|Streams(cfg, w)|, _ => 0), 0, Between)), [])
  }

  /** A worker owning no stream idles, with or without random batches in the mix. */
  ghost predicate Enabled(cfg: Config, s: State, a: Action)
    requires cfg.workers > 0
  {
    && a.w < |s.writers|
    && var wr := s.writers[a.w];
      match a
      case BeginSorted(w) => wr.phase.Between? && Streams(cfg, w) != []
      case BeginRandom(w) => wr.phase.Between? && Streams(cfg, w) != [] && cfg.mixed
      case SetSorted(w) => wr.phase.Sorting? && wr.phase.left > 0 && wr.phase.i < |Streams(cfg, w)| == |wr.next|
      case SetRandom(w) => wr.phase.Scattering? && wr.phase.left > 0
      case Commit(w) => (wr.phase.Sorting? || wr.phase.Scattering?) && wr.phase.left == 0
      case Stop(w) => true
  }

  ghost function Do(cfg: Config, tail: Key -> Key, s: State, a: Action): State
    requires cfg.workers > 0 && cfg.streams > 0 && Enabled(cfg, s, a)
  {
    var wr := s.writers[a.w];
    match a
    case BeginSorted(w) =>
      Put(s, w, wr.(phase := Sorting(wr.turn % |Streams(cfg, w)|, cfg.batchSize), turn := wr.turn + 1))
    case BeginRandom(w) => Put(s, w, wr.(phase := Scattering(cfg.batchSize)))
    case SetSorted(w) =>
      var i := wr.phase.i;
      var key := SortedKey(tail, Streams(cfg, w)[i], cfg.streams, wr.next[i]);
      var wr' := Writer(wr.next[i := (wr.next[i] + 1) % TWO_64], wr.turn, Sorting(i, wr.phase.left - 1));
      Put(s, w, wr').(log := s.log + [Emission(w, Streams(cfg, w)[i], key)])
    case SetRandom(w) => Put(s, w, wr.(phase := Scattering(wr.phase.left - 1)))
    case Commit(w) => Put(s, w, wr.(phase := Between))
    case Stop(w) => Put(s, w, wr.(phase := Stopped))
  }

  function Put(s: State, w: nat, wr: Writer): State
    requires w < |s.writers|
  {
    s.(writers := s.writers[w := wr])
  }

  ghost predicate Run(cfg: Config, tail: Key -> Key, actions: seq<Action>, states: seq<State>)
    requires ValidConfig(cfg)
  {
    && |states| == |actions| + 1
    && states[0] == Launch(cfg)
    && forall k :: 0 <= k < |actions| ==> Moved(cfg, tail, actions[k], states[k], states[k + 1])
  }

  ghost predicate Moved(cfg: Config, tail: Key -> Key, a: Action, s: State, s': State)
    requires ValidConfig(cfg)
  {
    Enabled(cfg, s, a) && s' == Do(cfg, tail, s, a)
  }

  /** How many keys of stream r the log holds. */
  ghost function Emitted(log: seq<Emission>, r: nat): nat {
    if log == [] then 0
    else
      var n := |log| - 1;
      Emitted(log[..n], r) + if log[n].stream == r then 1 else 0
  }

  lemma EmittedAppend(log: seq<Emission>, e: Emission, r: nat)
    ensures Emitted(log + [e], r) == Emitted(log, r) + if e.stream == r then 1 else 0
  {
    assert (log + [e])[..|log|] == log;
  }

  /** A worker's counters continue exactly where the log of its streams stands. */
  ghost predicate WriterRight(cfg: Config, w: nat, wr: Writer, log: seq<Emission>)
    requires cfg.workers > 0
  {
    && |wr.next| == |Streams(cfg, w)|
    && (wr.phase.Sorting? ==> wr.phase.i < |wr.next|)
    && forall i :: 0 <= i < |wr.next| ==> wr.next[i] == Emitted(log, Streams(cfg, w)[i]) % TWO_64
  }

  /** Entry k is the next key of its stream, put there by the stream's owner. */
  ghost predicate EntryRight(cfg: Config, tail: Key -> Key, log: seq<Emission>, k: nat)
    requires ValidConfig(cfg) && k < |log|
  {
    var e := log[k];
    && e.stream < cfg.streams
    && e.worker == e.stream % cfg.workers
    && e.key == SortedKey(tail, e.stream, cfg.streams, Emitted(log[..k], e.stream))
  }

  ghost predicate Right(cfg: Config, tail: Key -> Key, s: State)
    requires ValidConfig(cfg)
  {
    && |s.writers| == cfg.workers
    && (forall w :: 0 <= w < cfg.workers ==> WriterRight(cfg, w, s.writers[w], s.log))
    && (forall k :: 0 <= k < |s.log| ==> EntryRight(cfg, tail, s.log, k))
  }

  lemma SetKeepsWriters(cfg: Config, tail: Key -> Key, w: nat, s: State, s': State, v: nat)
    requires ValidConfig(cfg) && Moved(cfg, tail, SetSorted(w), s, s') && Right(cfg, tail, s) && v < cfg.workers
    ensures WriterRight(cfg, v, s'.writers[v], s'.log)
  {
    hide SortedKey, Owned, Emitted;
    var i := s.writers[w].phase.i;
    var r := Streams(cfg, w)[i];
    var e := s'.log[|s.log|];
    assert s'.log == s.log + [e] && e.stream == r;
    assert WriterRight(cfg, v, s.writers[v], s.log);
    forall j | 0 <= j < |s'.writers[v].next|
      ensures s'.writers[v].next[j] == Emitted(s'.log, Streams(cfg, v)[j]) % TWO_64
    {
      EmittedAppend(s.log, e, Streams(cfg, v)[j]);
      NextCounter(Emitted(s.log, r));
      if Streams(cfg, v)[j] == r {
        OneSlot(cfg, v, j, w, i);
      }
    }
  }

  lemma NextCounter(n: nat)
    ensures (n % TWO_64 + 1) % TWO_64 == (n + 1) % TWO_64
  {}

  /** No stream has two slots, in one writer or in two. */
  lemma OneSlot(cfg: Config, v: nat, j: nat, w: nat, i: nat)
    requires ValidConfig(cfg) && v < cfg.workers && w < cfg.workers
    requires j < |Streams(cfg, v)| && i < |Streams(cfg, w)| && Streams(cfg, v)[j] == Streams(cfg, w)[i]
    ensures v == w && j == i
  {
    hide Owned;
    OwnedByResidue(w, cfg.workers, cfg.streams);
    OwnedByResidue(v, cfg.workers, cfg.streams);
    assert Streams(cfg, v)[j] in Streams(cfg, v) && Streams(cfg, w)[i] in Streams(cfg, w);
  }

  lemma KeyModulo(tail: Key -> Key, r: nat, streams: nat, n: nat)
    requires streams > 0
    ensures SortedKey(tail, r, streams, n % TWO_64) == SortedKey(tail, r, streams, n)
  {
    assert n % TWO_64 % TWO_64 == n % TWO_64;
  }

  lemma SetKeepsLog(cfg: Config, tail: Key -> Key, w: nat, s: State, s': State)
    requires ValidConfig(cfg) && Moved(cfg, tail, SetSorted(w), s, s') && Right(cfg, tail, s)
    ensures forall k :: 0 <= k < |s'.log| ==> EntryRight(cfg, tail, s'.log, k)
  {
    hide Owned, SortedKey;
    var i := s.writers[w].phase.i;
    var r := Streams(cfg, w)[i];
    assert WriterRight(cfg, w, s.writers[w], s.log);
    OwnedByResidue(w, cfg.workers, cfg.streams);
    assert r in Streams(cfg, w);
    KeyModulo(tail, r, cfg.streams, Emitted(s.log, r));
    forall k | 0 <= k < |s'.log| ensures EntryRight(cfg, tail, s'.log, k) {
      assert s'.log[..k] == s.log[..k];
      if k < |s.log| {
        assert EntryRight(cfg, tail, s.log, k);
      } else {
        assert s.log[..k] == s.log;
      }
    }
  }

  lemma MoveKeepsRight(cfg: Config, tail: Key -> Key, a: Action, s: State, s': State)
    requires ValidConfig(cfg) && Moved(cfg, tail, a, s, s') && Right(cfg, tail, s)
    ensures Right(cfg, tail, s')
  {
    hide SortedKey, Owned, EntryRight;
    if a.SetSorted? {
      forall v | 0 <= v < cfg.workers ensures WriterRight(cfg, v, s'.writers[v], s'.log) {
        SetKeepsWriters(cfg, tail, a.w, s, s', v);
      }
      SetKeepsLog(cfg, tail, a.w, s, s');
    } else {
      forall v | 0 <= v < cfg.workers ensures WriterRight(cfg, v, s'.writers[v], s'.log) {
        assert WriterRight(cfg, v, s.writers[v], s.log);
      }
    }
  }

  lemma {:induction false} RunIsRight(cfg: Config, tail: Key -> Key, actions: seq<Action>, states: seq<State>, k: nat)
    requires ValidConfig(cfg) && Run(cfg, tail, actions, states) && k < |states|
    ensures Right(cfg, tail, states[k])
  {
    if k > 0 {
      RunIsRight(cfg, tail, actions, states, k - 1);
      assert Moved(cfg, tail, actions[k - 1], states[k - 1], states[k - 1 + 1]);
      MoveKeepsRight(cfg, tail, actions[k - 1], states[k - 1], states[k]);
    }
  }

  lemma {:induction false} EmittedGrows(log: seq<Emission>, j: nat, k: nat, r: nat)
    requires j <= k <= |log|
    ensures Emitted(log[..j], r) <= Emitted(log[..k], r) <= k
    ensures j < k && log[j].stream == r ==> Emitted(log[..j], r) < Emitted(log[..k], r)
    decreases k
  {
    if k > 0 {
      assert log[..k][..k - 1] == log[..k - 1];
      if j < k {
        EmittedGrows(log, j, k - 1, r);
      } else {
        EmittedGrows(log, k - 1, k - 1, r);
      }
    }
  }

  // --- How keys compare, for counters of any size.

  /** Within a stream, keys order and repeat as their 64-bit counters do. */
  lemma KeysCompareAsCounters(tail: Key -> Key, r: nat, streams: nat, n: nat, m: nat)
    requires streams > 0
    ensures var k, l := SortedKey(tail, r, streams, n), SortedKey(tail, r, streams, m);
            && (Lt(k, l) <==> n % TWO_64 < m % TWO_64)
            && (k == l <==> n % TWO_64 == m % TWO_64)
  {
    hide SortedKey, Compare;
    KeyModulo(tail, r, streams, n);
    KeyModulo(tail, r, streams, m);
    if n % TWO_64 < m % TWO_64 {
      KeysRise(tail, r, streams, n % TWO_64, m % TWO_64);
    } else if m % TWO_64 < n % TWO_64 {
      KeysRise(tail, r, streams, m % TWO_64, n % TWO_64);
    }
    TotalOrder();
  }

  /** Two keys are equal exactly when stream and 64-bit counter are. */
  lemma KeysRepeat(tail: Key -> Key, r: nat, q: nat, streams: nat, n: nat, m: nat)
    requires r < streams <= TWO_16 && q < streams
    ensures SortedKey(tail, r, streams, n) == SortedKey(tail, q, streams, m) <==> r == q && n % TWO_64 == m % TWO_64
  {
    hide SortedKey, Compare;
    if r == q {
      KeysCompareAsCounters(tail, r, streams, n, m);
    } else {
      if r < q {
        StreamsApart(tail, r, q, streams, n, m);
      } else {
        StreamsApart(tail, q, r, streams, m, n);
      }
      TotalOrder();
    }
  }

  // --- What every interleaving guarantees.

  /** How many keys of its own stream precede entry k: the counter it was made from, unwrapped. */
  ghost function Ordinal(log: seq<Emission>, k: nat): nat
    requires k < |log|
  {
    Emitted(log[..k], log[k].stream)
  }

  /**
   * Every stream has one writer, and a later stream's keys all sort higher. Within a stream keys
   * compare as the 64-bit counters they were made from, and so rise while its counter has not wrapped.
   */
  lemma LogIsOrdered(cfg: Config, tail: Key -> Key, actions: seq<Action>, states: seq<State>, n: nat, j: nat, k: nat)
    requires ValidConfig(cfg) && Run(cfg, tail, actions, states) && n < |states|
    requires j < |states[n].log| && k < |states[n].log|
    ensures var log := states[n].log;
            var a, b := log[j], log[k];
            && (a.stream == b.stream ==> a.worker == b.worker)
            && (a.stream < b.stream ==> Lt(a.key, b.key))
            && (a.stream == b.stream ==>
                  (Lt(a.key, b.key) <==> Ordinal(log, j) % TWO_64 < Ordinal(log, k) % TWO_64))
            && (a.stream == b.stream && j < k && Emitted(log, a.stream) <= TWO_64 ==> Lt(a.key, b.key))
  {
    hide SortedKey, Compare, Run, Emitted;
    var log := states[n].log;
    RunIsRight(cfg, tail, actions, states, n);
    assert EntryRight(cfg, tail, log, j) && EntryRight(cfg, tail, log, k);
    var a, b := log[j], log[k];
    if a.stream < b.stream {
      StreamsApart(tail, a.stream, b.stream, cfg.streams, Ordinal(log, j), Ordinal(log, k));
    } else if a.stream == b.stream {
      KeysCompareAsCounters(tail, a.stream, cfg.streams, Ordinal(log, j), Ordinal(log, k));
      if j < k {
        OrdinalsGrow(log, j, k);
      }
    }
  }

  lemma OrdinalsGrow(log: seq<Emission>, j: nat, k: nat)
    requires j < k < |log| && log[j].stream == log[k].stream
    ensures Ordinal(log, j) < Ordinal(log, k) < Emitted(log, log[j].stream)
  {
    EmittedGrows(log, j, k, log[j].stream);
    EmittedGrows(log, k, |log|, log[j].stream);
    assert log[..|log|] == log;
  }

  /**
   * The sorted branch repeats a key exactly when a stream comes round to the same 64-bit counter,
   * hence never while the stream has emitted at most 2^64 keys.
   */
  lemma NoKeyTwice(cfg: Config, tail: Key -> Key, actions: seq<Action>, states: seq<State>, n: nat, j: nat, k: nat)
    requires ValidConfig(cfg) && Run(cfg, tail, actions, states) && n < |states|
    requires j < k < |states[n].log|
    ensures var log := states[n].log;
            && (log[j].key == log[k].key <==>
                  log[j].stream == log[k].stream && Ordinal(log, j) % TWO_64 == Ordinal(log, k) % TWO_64)
            && (Emitted(log, log[j].stream) <= TWO_64 ==> log[j].key != log[k].key)
  {
    hide SortedKey, Compare, Run, Emitted;
    var log := states[n].log;
    RunIsRight(cfg, tail, actions, states, n);
    assert EntryRight(cfg, tail, log, j) && EntryRight(cfg, tail, log, k);
    KeysRepeat(tail, log[j].stream, log[k].stream, cfg.streams, Ordinal(log, j), Ordinal(log, k));
    if log[j].stream == log[k].stream {
      OrdinalsGrow(log, j, k);
    }
  }
}
