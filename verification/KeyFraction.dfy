// keyFraction of db/pebble_v2.go: the share of L0's key range a range covers, read off the
// first eight bytes of each key. Arithmetic is over the reals.
module KeyFractions {
  import opened Keys
  import opened Numbers
  import opened Sublevels

  const WIDTH: nat := 8

  function Lead(k: Key): real {
    if k == [] then 0.0 else k[0] as real
  }

  function Rest(k: Key): Key {
    if k == [] then [] else k[1..]
  }

  /** The first n bytes of k as a base-256 fraction, missing bytes counting as zero. */
  function Position(k: Key, n: nat): real {
    if n == 0 then 0.0 else (Lead(k) + Position(Rest(k), n - 1)) / 256.0
  }

  function ByteAt(k: Key, i: nat): real {
    if i < |k| then k[i] as real else 0.0
  }

  /** Exactly eight bytes count, the first for most, those a short key lacks for nothing. */
  lemma PositionIsEightBytes(k: Key)
    ensures Position(k, WIDTH) * 18446744073709551616.0 ==
            ByteAt(k, 0) * 72057594037927936.0 + ByteAt(k, 1) * 281474976710656.0 + ByteAt(k, 2) * 1099511627776.0 +
            ByteAt(k, 3) * 4294967296.0 + ByteAt(k, 4) * 16777216.0 + ByteAt(k, 5) * 65536.0 +
            ByteAt(k, 6) * 256.0 + ByteAt(k, 7)
  {
    hide Position;
    PositionUnfolds(k, 0);
    PositionUnfolds(k, 1);
    PositionUnfolds(k, 2);
    PositionUnfolds(k, 3);
    PositionUnfolds(k, 4);
    PositionUnfolds(k, 5);
    PositionUnfolds(k, 6);
    PositionUnfolds(k, 7);
    PositionEnds(k);
  }

  lemma PositionUnfolds(k: Key, i: nat)
    requires i < 8
    ensures Position(Drop(k, i), 8 - i) * 256.0 == ByteAt(k, i) + Position(Drop(k, i + 1), 7 - i)
  {
    assert Rest(Drop(k, i)) == Drop(k, i + 1);
  }

  function Drop(k: Key, n: nat): Key {
    if n <= |k| then k[n..] else []
  }

  lemma PositionStep(v: real, scale: real, k: Key, i: nat)
    requires i < WIDTH
    ensures var s := scale / 256.0;
            v + scale * Position(Drop(k, i), WIDTH - i)
            == (if i < |k| then v + k[i] as real * s else v) + s * Position(Drop(k, i + 1), WIDTH - i - 1)
  {
    var d := Drop(k, i);
    assert Rest(d) == Drop(k, i + 1);
    var p := Position(Rest(d), WIDTH - i - 1);
    assert Position(d, WIDTH - i) == (Lead(d) + p) / 256.0;
    calc {
      scale * ((Lead(d) + p) / 256.0);
      (scale / 256.0) * (Lead(d) + p);
      Lead(d) * (scale / 256.0) + (scale / 256.0) * p;
    }
  }

  lemma PositionEnds(k: Key)
    ensures Drop(k, 0) == k && Position(Drop(k, WIDTH), 0) == 0.0
  {}

  method Pos(k: Key) returns (v: real)
    ensures v == Position(k, WIDTH)
  {
    hide Position, Drop;
    v := 0.0;
    var scale := 1.0;
    PositionEnds(k);
    for i := 0 to WIDTH
      invariant v + scale * Position(Drop(k, i), WIDTH - i) == Position(k, WIDTH)
    {
      PositionStep(v, scale, k, i);
      scale := scale / 256.0;
      if i < |k| {
        v := v + k[i] as real * scale;
      }
    }
  }

  ghost function Fraction(a: Key, b: Key, lo: Key, hi: Key): real {
    var span := Position(hi, WIDTH) - Position(lo, WIDTH);
    if span <= 0.0 then 0.0 else (Position(b, WIDTH) - Position(a, WIDTH)) / span
  }

  method KeyFraction(a: Key, b: Key, lo: Key, hi: Key) returns (f: real)
    ensures f == Fraction(a, b, lo, hi)
  {
    var phi := Pos(hi);
    var plo := Pos(lo);
    var span := phi - plo;
    if span <= 0.0 {
      return 0.0;
    }
    var pb := Pos(b);
    var pa := Pos(a);
    f := (pb - pa) / span;
  }

  lemma {:induction false} PositionInUnit(k: Key, n: nat)
    ensures 0.0 <= Position(k, n) < 1.0
  {
    if n > 0 {
      PositionInUnit(Rest(k), n - 1);
    }
  }

  /** Lexicographic order on keys of any length implies order of their positions. */
  lemma {:induction false} PositionMonotone(a: Key, b: Key, n: nat)
    requires Le(a, b)
    ensures Position(a, n) <= Position(b, n)
  {
    if n > 0 {
      PositionInUnit(Rest(a), n - 1);
      PositionInUnit(Rest(b), n - 1);
      if a == [] {
        PositionMonotone([], Rest(b), n - 1);
      } else if a[0] == b[0] {
        PositionMonotone(a[1..], b[1..], n - 1);
      } else {
        assert a[0] + 1 <= b[0];
      }
    }
  }

  /** Taking a wider range never lowers the fraction, so widening factors are at least one. */
  lemma FractionGrows(a: Key, b: Key, c: Key, d: Key, lo: Key, hi: Key)
    requires Le(c, a) && Le(b, d)
    ensures Fraction(a, b, lo, hi) <= Fraction(c, d, lo, hi)
  {
    hide Position, Compare;
    PositionMonotone(c, a, WIDTH);
    PositionMonotone(b, d, WIDTH);
    var span := Position(hi, WIDTH) - Position(lo, WIDTH);
    if span > 0.0 {
      DivideMonotone(Position(b, WIDTH) - Position(a, WIDTH), Position(d, WIDTH) - Position(c, WIDTH), span);
    }
  }

  lemma FractionInUnit(a: Key, b: Key, lo: Key, hi: Key)
    requires Le(lo, a) && Le(a, b) && Le(b, hi)
    ensures 0.0 <= Fraction(a, b, lo, hi) <= Fraction(lo, hi, lo, hi)
    ensures Fraction(lo, hi, lo, hi) == 0.0 || Fraction(lo, hi, lo, hi) == 1.0
  {
    hide Position, Compare;
    FractionGrows(a, b, lo, hi, lo, hi);
    PositionMonotone(a, b, WIDTH);
    var span := Position(hi, WIDTH) - Position(lo, WIDTH);
    if span > 0.0 {
      DivideMonotone(0.0, Position(b, WIDTH) - Position(a, WIDTH), span);
      assert span / span == 1.0;
    }
  }

  lemma QuotientsAdd(x: real, y: real, z: real, w: real)
    requires x + y <= z && w > 0.0
    ensures x / w + y / w <= z / w
  {
    assert x / w + y / w == (x + y) / w;
    DivideMonotone(x + y, z, w);
  }

  /** Fractions of two ranges in order sum to at most that of the range spanning both. */
  lemma FractionsAdd(a: Key, b: Key, c: Key, d: Key, lo: Key, hi: Key)
    requires Le(b, c)
    ensures Fraction(a, b, lo, hi) + Fraction(c, d, lo, hi) <= Fraction(a, d, lo, hi)
  {
    hide Position, Compare;
    PositionMonotone(b, c, WIDTH);
    var span := Position(hi, WIDTH) - Position(lo, WIDTH);
    if span > 0.0 {
      QuotientsAdd(Position(b, WIDTH) - Position(a, WIDTH), Position(d, WIDTH) - Position(c, WIDTH),
                   Position(d, WIDTH) - Position(a, WIDTH), span);
    }
  }

  /** Sorted by lo, with ranges strictly disjoint: one reconstructed sublevel. */
  ghost predicate Tiled(ps: seq<Placed>) {
    && (forall i :: 0 <= i < |ps| ==> Le(ps[i].lo, ps[i].hi))
    && (forall i, j :: 0 <= i < j < |ps| ==> Lt(ps[i].hi, ps[j].lo))
  }

  ghost predicate Within(ps: seq<Placed>, lo: Key, hi: Key) {
    forall i :: 0 <= i < |ps| ==> Le(lo, ps[i].lo) && Le(ps[i].hi, hi)
  }

  ghost function Covered(ps: seq<Placed>, lo: Key, hi: Key): real {
    if ps == [] then 0.0
    else
      var n := |ps| - 1;
      Covered(ps[..n], lo, hi) + Fraction(ps[n].lo, ps[n].hi, lo, hi)
  }

  lemma {:induction false} CoveredTelescopes(ps: seq<Placed>, lo: Key, hi: Key)
    requires Tiled(ps) && Within(ps, lo, hi) && ps != []
    ensures 0.0 <= Covered(ps, lo, hi) <= Fraction(ps[0].lo, ps[|ps| - 1].hi, lo, hi)
  {
    var n := |ps| - 1;
    FractionInUnit(ps[n].lo, ps[n].hi, lo, hi);
    if n > 0 {
      CoveredTelescopes(ps[..n], lo, hi);
      assert Lt(ps[n - 1].hi, ps[n].lo);
      TotalOrder();
      FractionsAdd(ps[0].lo, ps[n - 1].hi, ps[n].lo, ps[n].hi, lo, hi);
    }
  }

  /** One sublevel's disjoint files cover at most what the whole L0 range does. */
  lemma CoveredAtMostTotal(ps: seq<Placed>, lo: Key, hi: Key)
    requires Tiled(ps) && Within(ps, lo, hi)
    ensures 0.0 <= Covered(ps, lo, hi)
    ensures ps != [] ==> Covered(ps, lo, hi) <= Fraction(lo, hi, lo, hi)
  {
    if ps != [] {
      CoveredTelescopes(ps, lo, hi);
      FractionGrows(ps[0].lo, ps[|ps| - 1].hi, lo, hi, lo, hi);
    }
  }
}
