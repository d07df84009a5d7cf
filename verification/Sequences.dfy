// Counting and sorting, the parts of Go's library the rest of the model leans on.
module Sequences {

  function Sum(s: seq<int>): int {
    if s == [] then 0 else s[0] + Sum(s[1..])
  }

  lemma {:induction false} SumUpdate(s: seq<int>, i: nat, v: int)
    requires i < |s|
    ensures Sum(s[i := v]) == Sum(s) - s[i] + v
  {
    if i == 0 {
      assert s[0 := v][1..] == s[1..];
    } else {
      SumUpdate(s[1..], i - 1, v);
      assert s[i := v][1..] == s[1..][i - 1 := v];
    }
  }

  lemma {:induction false} SumAppend(s: seq<int>, v: int)
    ensures Sum(s + [v]) == Sum(s) + v
  {
    if s != [] {
      SumAppend(s[1..], v);
      assert (s + [v])[1..] == s[1..] + [v];
    }
  }

  lemma {:induction false} SumAtMost(s: seq<int>, bound: int)
    requires forall i :: 0 <= i < |s| ==> s[i] <= bound
    ensures Sum(s) <= |s| * bound
  {
    if s != [] {
      SumAtMost(s[1..], bound);
      assert |s| * bound == |s[1..]| * bound + bound;
    }
  }

  lemma {:induction false} SumOfEqual(s: seq<int>, v: int)
    requires forall i :: 0 <= i < |s| ==> s[i] == v
    ensures Sum(s) == |s| * v
  {
    if s != [] {
      SumOfEqual(s[1..], v);
      assert |s| * v == |s[1..]| * v + v;
    }
  }

  function Count<T>(s: seq<T>, p: T -> bool): nat {
    if s == [] then 0 else (if p(s[0]) then 1 else 0) + Count(s[1..], p)
  }

  lemma {:induction false} CountConcat<T>(a: seq<T>, b: seq<T>, p: T -> bool)
    ensures Count(a + b, p) == Count(a, p) + Count(b, p)
  {
    if a == [] {
      assert a + b == b;
    } else {
      CountConcat(a[1..], b, p);
      assert (a + b)[1..] == a[1..] + b;
    }
  }

  lemma CountRemoved<T>(s: seq<T>, i: nat, p: T -> bool)
    requires i < |s|
    ensures Count(s, p) == Count(s[..i] + s[i + 1..], p) + if p(s[i]) then 1 else 0
  {
    assert s == s[..i] + ([s[i]] + s[i + 1..]);
    CountConcat(s[..i], [s[i]] + s[i + 1..], p);
    CountConcat(s[..i], s[i + 1..], p);
  }

  lemma MultisetRemoved<T>(s: seq<T>, i: nat)
    requires i < |s|
    ensures multiset(s[..i] + s[i + 1..]) == multiset(s) - multiset{s[i]}
  {
    assert s == s[..i] + ([s[i]] + s[i + 1..]);
  }

  lemma {:induction false} CountPermutation<T>(a: seq<T>, b: seq<T>, p: T -> bool)
    requires multiset(a) == multiset(b)
    ensures Count(a, p) == Count(b, p)
  {
    hide Count;
    if a == [] {
      assert |multiset(b)| == 0;
    } else {
      assert a[0] in multiset(b);
      var i :| 0 <= i < |b| && b[i] == a[0];
      MultisetRemoved(a, 0);
      MultisetRemoved(b, i);
      CountRemoved(a, 0, p);
      CountRemoved(b, i, p);
      CountPermutation(a[..0] + a[1..], b[..i] + b[i + 1..], p);
    }
  }

  /** When p holds on exactly a prefix, the count is the length of that prefix. */
  lemma {:induction false} CountPrefix<T>(s: seq<T>, r: nat, p: T -> bool)
    requires r <= |s|
    requires forall i :: 0 <= i < r ==> p(s[i])
    requires forall i :: r <= i < |s| ==> !p(s[i])
    ensures Count(s, p) == r
  {
    if s != [] {
      CountPrefix(s[1..], if r == 0 then 0 else r - 1, p);
    }
  }

  // --- Sums over finite sets.

  ghost function Total<T(!new)>(s: set<T>, f: T -> real): real {
    if s == {} then 0.0 else
      var x :| x in s;
      f(x) + Total(s - {x}, f)
  }

  /** Each element contributes once, in whatever order they are taken. */
  lemma {:induction false} TotalAdd<T(!new)>(s: set<T>, x: T, f: T -> real)
    requires x !in s
    ensures Total({}, f) == 0.0 && Total(s + {x}, f) == Total(s, f) + f(x)
  {
    var t := s + {x};
    var y :| y in t && Total(t, f) == f(y) + Total(t - {y}, f);
    if y == x {
      assert t - {x} == s;
    } else {
      assert t - {y} == (s - {y}) + {x};
      TotalAdd(s - {y}, x, f);
      TotalAdd(s - {y}, y, f);
      assert (s - {y}) + {y} == s;
    }
  }

  lemma {:induction false} TotalUnion<T(!new)>(a: set<T>, b: set<T>, f: T -> real)
    requires a !! b
    ensures Total(a + b, f) == Total(a, f) + Total(b, f)
  {
    if b == {} {
      assert a + b == a;
    } else {
      var x :| x in b;
      TotalUnion(a, b - {x}, f);
      TotalAdd(a + (b - {x}), x, f);
      TotalAdd(b - {x}, x, f);
      assert a + (b - {x}) + {x} == a + b && b - {x} + {x} == b;
    }
  }

  lemma {:induction false} TotalPositive<T(!new)>(s: set<T>, f: T -> real)
    requires forall x :: x in s ==> f(x) >= 0.0
    ensures Total(s, f) >= 0.0
    ensures Total(s, f) > 0.0 <==> exists x :: x in s && f(x) > 0.0
  {
    if s != {} {
      var x :| x in s;
      TotalPositive(s - {x}, f);
      TotalAdd(s - {x}, x, f);
      assert s - {x} + {x} == s;
    }
  }

  lemma {:induction false} TotalSame<T(!new)>(s: set<T>, f: T -> real, g: T -> real)
    requires forall x :: x in s ==> f(x) == g(x)
    ensures Total(s, f) == Total(s, g)
  {
    if s != {} {
      var x :| x in s;
      TotalSame(s - {x}, f, g);
      TotalAdd(s - {x}, x, f);
      TotalAdd(s - {x}, x, g);
      assert s - {x} + {x} == s;
    }
  }

  // --- Sorting: any comparison sort is described by its two guarantees.

  ghost predicate TotalOrdering<T(!new)>(le: (T, T) -> bool) {
    && (forall x, y :: le(x, y) || le(y, x))
    && (forall x, y, z :: le(x, y) && le(y, z) ==> le(x, z))
  }

  ghost predicate SortedBy<T>(le: (T, T) -> bool, s: seq<T>) {
    forall i, j :: 0 <= i < j < |s| ==> le(s[i], s[j])
  }

  function InsertBy<T>(le: (T, T) -> bool, x: T, s: seq<T>): seq<T> {
    if s == [] || le(x, s[0]) then [x] + s else [s[0]] + InsertBy(le, x, s[1..])
  }

  function SortBy<T>(le: (T, T) -> bool, s: seq<T>): seq<T> {
    if s == [] then [] else InsertBy(le, s[0], SortBy(le, s[1..]))
  }

  lemma {:induction false} InsertByCorrect<T(!new)>(le: (T, T) -> bool, x: T, s: seq<T>)
    requires TotalOrdering(le) && SortedBy(le, s)
    ensures SortedBy(le, InsertBy(le, x, s))
    ensures multiset(InsertBy(le, x, s)) == multiset{x} + multiset(s)
  {
    if s != [] && !le(x, s[0]) {
      InsertByCorrect(le, x, s[1..]);
      assert s == [s[0]] + s[1..];
      assert InsertBy(le, x, s) == [s[0]] + InsertBy(le, x, s[1..]);
      hide InsertBy;
      var r := InsertBy(le, x, s[1..]);
      forall j | 0 <= j < |r| ensures le(s[0], r[j]) {
        assert r[j] in multiset(r);
        assert r[j] == x || r[j] in s[1..];
      }
    }
  }

  lemma {:induction false} SortByCorrect<T(!new)>(le: (T, T) -> bool, s: seq<T>)
    requires TotalOrdering(le)
    ensures SortedBy(le, SortBy(le, s))
    ensures multiset(SortBy(le, s)) == multiset(s)
  {
    if s != [] {
      SortByCorrect(le, s[1..]);
      InsertByCorrect(le, s[0], SortBy(le, s[1..]));
      assert s == [s[0]] + s[1..];
    }
  }

  ghost predicate Antisymmetric<T(!new)>(le: (T, T) -> bool, s: seq<T>) {
    forall x, y :: x in s && y in s && le(x, y) && le(y, x) ==> x == y
  }

  lemma SortedHeads<T(!new)>(le: (T, T) -> bool, a: seq<T>, b: seq<T>)
    requires SortedBy(le, a) && SortedBy(le, b) && multiset(a) == multiset(b)
    requires Antisymmetric(le, a) && a != [] && b != []
    ensures a[0] == b[0]
  {
    assert a[0] in multiset(b) && b[0] in multiset(a);
    var i :| 0 <= i < |b| && b[i] == a[0];
    var j :| 0 <= j < |a| && a[j] == b[0];
    assert j > 0 ==> le(a[0], a[j]);
    assert i > 0 ==> le(b[0], b[i]);
  }

  lemma OrderedTail<T(!new)>(le: (T, T) -> bool, s: seq<T>)
    requires s != [] && SortedBy(le, s)
    ensures SortedBy(le, s[1..])
    ensures Antisymmetric(le, s) ==> Antisymmetric(le, s[1..])
    ensures s == [s[0]] + s[1..] && multiset(s[1..]) == multiset(s) - multiset{s[0]}
  {
    assert s == [s[0]] + s[1..];
  }

  /** Only one sequence holds given elements in order when equally ranked elements are equal. */
  lemma {:induction false} SortedIsUnique<T(!new)>(le: (T, T) -> bool, a: seq<T>, b: seq<T>)
    requires SortedBy(le, a) && SortedBy(le, b) && multiset(a) == multiset(b)
    requires Antisymmetric(le, a)
    ensures a == b
  {
    hide SortedBy, Antisymmetric;
    assert |multiset(a)| == |a| && |multiset(b)| == |b|;
    if a != [] {
      SortedHeads(le, a, b);
      OrderedTail(le, a);
      OrderedTail(le, b);
      SortedIsUnique(le, a[1..], b[1..]);
    }
  }
}
