// db/overlap.go: the largest number of key ranges covering one point, found by sorting
// lower and upper bounds independently and sweeping over the lower ones.
module RangeDepth {
  import opened Keys
  import opened Sequences

  /** Parallel bounds of ranges that are each non-empty. */
  ghost predicate Ranges(starts: seq<Key>, ends: seq<Key>) {
    && |starts| == |ends|
    && forall i :: 0 <= i < |starts| ==> Le(starts[i], ends[i])
  }

  function AtMost(x: Key): Key -> bool {
    k => Le(k, x)
  }

  function Below(x: Key): Key -> bool {
    k => Lt(k, x)
  }

  /** How many of the paired ranges contain x. */
  ghost function Cover(starts: seq<Key>, ends: seq<Key>, x: Key): nat
    requires |starts| == |ends|
  {
    if starts == [] then 0
    else (if Le(starts[0], x) && Le(x, ends[0]) then 1 else 0) + Cover(starts[1..], ends[1..], x)
  }

  /** The declarative meaning of overlapDepth: depth is the maximum of Cover over all keys. */
  ghost predicate IsDepth(starts: seq<Key>, ends: seq<Key>, depth: int)
    requires |starts| == |ends|
  {
    && (forall x :: Cover(starts, ends, x) <= depth)
    && (exists x :: Cover(starts, ends, x) == depth)
  }

  lemma {:induction false} DepthIsUnique(starts: seq<Key>, ends: seq<Key>, d: int, e: int)
    requires |starts| == |ends| && IsDepth(starts, ends, d) && IsDepth(starts, ends, e)
    ensures d == e
  {
    var x :| Cover(starts, ends, x) == d;
    var y :| Cover(starts, ends, y) == e;
  }

  /** The pairing is irrelevant: coverage is ranges opened minus ranges closed. */
  lemma {:induction false} CoverIsOpenedMinusClosed(starts: seq<Key>, ends: seq<Key>, x: Key)
    requires Ranges(starts, ends)
    ensures Cover(starts, ends, x) == Count(starts, AtMost(x)) - Count(ends, Below(x))
  {
    if starts != [] {
      CoverIsOpenedMinusClosed(starts[1..], ends[1..], x);
      TotalOrder();
    }
  }

  predicate Sorted(s: seq<Key>) {
    forall i, j :: 0 <= i < j < |s| ==> Le(s[i], s[j])
  }

  /** sort.Slice under bytes.Compare, writing the array in place. */
  method SortKeys(a: array<Key>)
    modifies a
    ensures Sorted(a[..]) && multiset(a[..]) == multiset(old(a[..]))
  {
    var le := (x: Key, y: Key) => Le(x, y);
    var sorted := SortBy(le, a[..]);
    TotalOrder();
    SortByCorrect(le, a[..]);
    assert |multiset(sorted)| == |sorted| && |multiset(a[..])| == |a[..]|;
    forall i | 0 <= i < a.Length { a[i] := sorted[i]; }
    assert a[..] == sorted;
  }

  /** The sweep's count of open ranges at start number i. */
  ghost function OpenAt(starts: seq<Key>, ends: seq<Key>, i: nat): int
    requires i < |starts|
  {
    i + 1 - Count(ends, Below(starts[i]))
  }

  lemma {:induction false} SplitPoint(s: seq<Key>, x: Key) returns (r: nat)
    requires Sorted(s)
    ensures r <= |s| && Count(s, AtMost(x)) == r
    ensures forall i :: 0 <= i < r ==> Le(s[i], x)
  {
    TotalOrder();
    r := |s|;
    while r > 0 && !Le(s[r - 1], x)
      invariant 0 <= r <= |s|
      invariant forall i :: r <= i < |s| ==> !Le(s[i], x)
    {
      r := r - 1;
    }
    CountPrefix(s, r, AtMost(x));
  }

  lemma {:induction false} FewerBelow(s: seq<Key>, x: Key, y: Key)
    requires Le(x, y)
    ensures Count(s, Below(x)) <= Count(s, Below(y))
  {
    if s != [] {
      FewerBelow(s[1..], x, y);
      TotalOrder();
    }
  }

  /** Looking only at the starts of the sorted bounds is enough to find the depth. */
  lemma SweepFindsDepth(starts: seq<Key>, ends: seq<Key>, ss: seq<Key>, es: seq<Key>, depth: int)
    requires Ranges(starts, ends) && Sorted(ss)
    requires multiset(ss) == multiset(starts) && multiset(es) == multiset(ends)
    requires depth >= 0 && forall k :: 0 <= k < |ss| ==> OpenAt(ss, es, k) <= depth
    requires depth == 0 || exists k :: 0 <= k < |ss| && OpenAt(ss, es, k) == depth
    ensures IsDepth(starts, ends, depth)
  {
    forall x ensures Cover(starts, ends, x) == Count(ss, AtMost(x)) - Count(es, Below(x)) {
      CoverIsOpenedMinusClosed(starts, ends, x);
      CountPermutation(ss, starts, AtMost(x));
      CountPermutation(es, ends, Below(x));
    }
    forall x ensures Cover(starts, ends, x) <= depth {
      var r := SplitPoint(ss, x);
      if r > 0 {
        FewerBelow(es, ss[r - 1], x);
        assert OpenAt(ss, es, r - 1) <= depth;
      }
    }
    if depth == 0 {
      assert Cover(starts, ends, []) == depth;
    } else {
      var k :| 0 <= k < |ss| && OpenAt(ss, es, k) == depth;
      PrefixAtMost(ss, k);
      assert Cover(starts, ends, ss[k]) >= depth;
    }
  }

  lemma PrefixAtMost(ss: seq<Key>, k: nat)
    requires Sorted(ss) && k < |ss|
    ensures Count(ss, AtMost(ss[k])) >= k + 1
  {
    TotalOrder();
    assert ss == ss[..k + 1] + ss[k + 1..];
    CountConcat(ss[..k + 1], ss[k + 1..], AtMost(ss[k]));
    CountPrefix(ss[..k + 1], k + 1, AtMost(ss[k]));
  }

  ghost predicate AllBelow(es: seq<Key>, r: nat, x: Key)
    requires r <= |es|
  {
    forall k :: 0 <= k < r ==> Lt(es[k], x)
  }

  lemma StillBelow(es: seq<Key>, r: nat, x: Key, y: Key)
    requires r <= |es| && AllBelow(es, r, x) && Le(x, y)
    ensures AllBelow(es, r, y)
  {
    TotalOrder();
  }

  lemma RetiredIsCount(es: seq<Key>, r: nat, x: Key)
    requires Sorted(es) && r <= |es| && AllBelow(es, r, x)
    requires r == |es| || !Lt(es[r], x)
    ensures Count(es, Below(x)) == r
  {
    TotalOrder();
    CountPrefix(es, r, Below(x));
  }

  /** The loop of overlapDepth, over bounds already sorted. */
  method Sweep(starts: array<Key>, ends: array<Key>) returns (depth: int)
    requires starts.Length == ends.Length && Sorted(starts[..]) && Sorted(ends[..])
    ensures depth >= 0 && forall k :: 0 <= k < starts.Length ==> OpenAt(starts[..], ends[..], k) <= depth
    ensures depth == 0 || exists k :: 0 <= k < starts.Length && OpenAt(starts[..], ends[..], k) == depth
  {
    ghost var ss, es := starts[..], ends[..];
    depth := 0;
    var retired := 0;
    for i := 0 to starts.Length
      invariant 0 <= retired <= |es| && (i == 0 ==> retired == 0)
      invariant i > 0 ==> AllBelow(es, retired, ss[i - 1])
      invariant depth >= 0 && forall k :: 0 <= k < i ==> OpenAt(ss, es, k) <= depth
      invariant depth == 0 || exists k :: 0 <= k < i && OpenAt(ss, es, k) == depth
    {
      var start := starts[i];
      if i > 0 {
        StillBelow(es, retired, ss[i - 1], start);
      }
      while retired < ends.Length && Lt(ends[retired], start)
        invariant retired <= |es| && AllBelow(es, retired, start)
      {
        retired := retired + 1;
      }
      RetiredIsCount(es, retired, start);
      var open := i + 1 - retired;
      assert OpenAt(ss, es, i) == open;
      if open > depth {
        depth := open;
      }
    }
  }

  method OverlapDepth(starts: array<Key>, ends: array<Key>) returns (depth: int)
    requires starts.Length == ends.Length ==> Ranges(starts[..], ends[..])
    modifies starts, ends
    ensures starts.Length != ends.Length ==> depth == 0
    ensures starts.Length == ends.Length ==> IsDepth(old(starts[..]), old(ends[..]), depth)
    ensures multiset(starts[..]) == multiset(old(starts[..]))
    ensures multiset(ends[..]) == multiset(old(ends[..]))
  {
    if starts.Length != ends.Length || starts.Length == 0 {
      assert starts.Length == 0 && ends.Length == 0 ==> Cover(starts[..], ends[..], []) == 0;
      return 0;
    }
    SortKeys(starts);
    SortKeys(ends);
    depth := Sweep(starts, ends);
    SweepFindsDepth(old(starts[..]), old(ends[..]), starts[..], ends[..], depth);
  }
}
