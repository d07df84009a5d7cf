// Byte-string keys under bytes.Compare, proved a total order once for every other module.
module Keys {

  type Byte = b: int | 0 <= b < 256
  type Key = seq<Byte>

  /** bytes.Compare: the first differing byte decides, and a proper prefix sorts first. */
  function Compare(a: Key, b: Key): (c: int)
    ensures -1 <= c <= 1
  {
    if a == [] then if b == [] then 0 else -1
    else if b == [] then 1
    else if a[0] < b[0] then -1
    else if a[0] > b[0] then 1
    else Compare(a[1..], b[1..])
  }

  predicate Le(a: Key, b: Key) {
    Compare(a, b) <= 0
  }

  // Strictly below: by CompareFlips the same as Compare(a, b) < 0.
  predicate Lt(a: Key, b: Key) {
    !Le(b, a)
  }

  /** The order meant: at the first place the keys part, one has ended or has the smaller byte. */
  lemma {:induction false} LtIsLexicographic(a: Key, b: Key)
    ensures Lt(a, b) <==> exists k :: 0 <= k <= |a| && k < |b| && a[..k] == b[..k] && (k < |a| ==> a[k] < b[k])
  {
    CompareFlips(a, b);
    if a != [] && b != [] && a[0] == b[0] {
      LtIsLexicographic(a[1..], b[1..]);
      CompareFlips(a[1..], b[1..]);
      if k :| 0 <= k <= |a| && k < |b| && a[..k] == b[..k] && (k < |a| ==> a[k] < b[k]) {
        assert k > 0;
        assert a[1..][..k - 1] == a[..k][1..] && b[1..][..k - 1] == b[..k][1..];
      }
      if k :| 0 <= k <= |a[1..]| && k < |b[1..]| && a[1..][..k] == b[1..][..k]
              && (k < |a[1..]| ==> a[1..][k] < b[1..][k]) {
        assert a[..k + 1] == [a[0]] + a[1..][..k] && b[..k + 1] == [b[0]] + b[1..][..k];
      }
    } else if Lt(a, b) {
      assert a[..0] == b[..0];
    }
  }

  lemma {:induction false} CompareIsEquality(a: Key, b: Key)
    ensures Compare(a, b) == 0 <==> a == b
  {
    if a != [] && b != [] && a[0] == b[0] {
      CompareIsEquality(a[1..], b[1..]);
      assert a == [a[0]] + a[1..] && b == [b[0]] + b[1..];
    }
  }

  lemma {:induction false} CompareFlips(a: Key, b: Key)
    ensures Compare(b, a) == -Compare(a, b)
  {
    if a != [] && b != [] && a[0] == b[0] {
      CompareFlips(a[1..], b[1..]);
    }
  }

  lemma {:induction false} LeTransitive(a: Key, b: Key, c: Key)
    requires Le(a, b) && Le(b, c)
    ensures Le(a, c)
  {
    if a != [] && b != [] && c != [] && a[0] == b[0] == c[0] {
      LeTransitive(a[1..], b[1..], c[1..]);
    }
  }

  /** Lexicographic order on keys of any length is a total order. */
  lemma TotalOrder()
    ensures forall a: Key, b: Key {:trigger Le(a, b)} :: Le(a, b) || Le(b, a)
    ensures forall a: Key, b: Key {:trigger Le(a, b), Le(b, a)} :: Le(a, b) && Le(b, a) ==> a == b
    ensures forall a: Key, b: Key, c: Key {:trigger Le(a, b), Le(b, c)} :: Le(a, b) && Le(b, c) ==> Le(a, c)
  {
    forall a: Key, b: Key
      ensures Le(a, b) || Le(b, a)
      ensures Le(a, b) && Le(b, a) ==> a == b
    {
      CompareFlips(a, b);
      CompareIsEquality(a, b);
    }
    forall a: Key, b: Key, c: Key | Le(a, b) && Le(b, c)
      ensures Le(a, c)
    {
      LeTransitive(a, b, c);
    }
  }
}
