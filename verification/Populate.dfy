// datagen/populate.go: filling a dataset to a target size, in one run or by extending it.
module Populates {

  import opened Numbers

  datatype Meta = Meta(totalKeys: nat, keySize: nat, valueSize: nat)

  /** The database as Populate sees it: the indices whose keys were committed, in order. */
  class Database {
    var keys: seq<nat>

    constructor ()
      ensures keys == []
    {
      keys := [];
    }
  }

  function Range(from: nat, to: nat): (r: seq<nat>)
    requires from <= to
    ensures |r| == to - from && forall i :: 0 <= i < |r| ==> r[i] == from + i
  {
    seq(to - from, i requires 0 <= i => from + i)
  }

  lemma RangesJoin(a: nat, b: nat, c: nat)
    requires a <= b <= c
    ensures Range(a, b) + Range(b, c) == Range(a, c)
  {}

  lemma OneBatchMore(keys: nat, batch: nat, entry: nat)
    ensures (keys + batch) * entry == keys * entry + batch * entry
    ensures batch > 0 && entry > 0 ==> batch * entry >= 1
  {}

  /** Where a run starting from start keys stops: whole batches until the target is met. */
  ghost function Final(start: nat, target: int, entry: nat, batch: nat): (total: nat)
    requires entry > 0 && batch > 0
    ensures total >= start
    decreases target - start * entry
  {
    if start * entry >= target then start
    else
      OneBatchMore(start, batch, entry);
      Final(start + batch, target, entry, batch)
  }

  /** The target is met, by less than one batch when anything was written at all. */
  lemma {:induction false} StopsWithinOneBatch(start: nat, target: int, entry: nat, batch: nat)
    requires entry > 0 && batch > 0
    ensures Final(start, target, entry, batch) * entry >= target
    ensures start * entry < target ==> Final(start, target, entry, batch) * entry < target + batch * entry
    decreases target - start * entry
  {
    if start * entry < target {
      OneBatchMore(start, batch, entry);
      StopsWithinOneBatch(start + batch, target, entry, batch);
    }
  }

  /** Final is the least number of whole batches past start that meets the target. */
  lemma {:induction false} FewestBatches(start: nat, target: int, entry: nat, batch: nat, k: nat)
    requires entry > 0 && batch > 0 && (start + k * batch) * entry >= target
    ensures Final(start, target, entry, batch) <= start + k * batch
    ensures exists j: nat :: Final(start, target, entry, batch) == start + j * batch
    decreases k
  {
    if start * entry >= target {
      assert start == start + 0 * batch;
    } else {
      assert k > 0 && (k - 1) * batch + batch == k * batch;
      FewestBatches(start + batch, target, entry, batch, k - 1);
      var j: nat :| Final(start + batch, target, entry, batch) == start + batch + j * batch;
      assert j * batch + batch == (j + 1) * batch;
      assert Final(start, target, entry, batch) == start + (j + 1) * batch;
    }
  }

  /** Stopping at a smaller target on the way changes nothing about where the run ends. */
  lemma {:induction false} StopOnTheWay(start: nat, t1: int, t2: int, entry: nat, batch: nat)
    requires entry > 0 && batch > 0 && t1 <= t2
    ensures Final(Final(start, t1, entry, batch), t2, entry, batch) == Final(start, t2, entry, batch)
    decreases t1 - start * entry
  {
    if start * entry < t1 {
      OneBatchMore(start, batch, entry);
      StopOnTheWay(start + batch, t1, t2, entry, batch);
    }
  }

  method Populate(db: Database, targetBytes: int, keySize: nat, valueSize: nat, batchSize: int, existing: Option<Meta>)
    returns (meta: Meta)
    requires keySize + valueSize > 0 && batchSize > 0
    modifies db
    ensures var start := if existing.Some? then existing.value.totalKeys else 0;
            && meta.totalKeys == Final(start, targetBytes, keySize + valueSize, batchSize)
            && db.keys == old(db.keys) + Range(start, meta.totalKeys)
            && (existing.Some? && start * (keySize + valueSize) >= targetBytes ==> meta == existing.value)
            && (existing.None? || start * (keySize + valueSize) < targetBytes ==>
                  meta.keySize == keySize && meta.valueSize == valueSize)
  {
    var entryBytes := keySize + valueSize;
    var startIndex: nat := if existing.Some? then existing.value.totalKeys else 0;
    var writtenBytes := startIndex * entryBytes;
    if writtenBytes >= targetBytes {
      assert Range(startIndex, startIndex) == [];
      return if existing.Some? then existing.value else Meta(startIndex, keySize, valueSize);
    }
    var totalKeys := startIndex;
    assert Range(startIndex, startIndex) == [];
    while true
      invariant startIndex <= totalKeys && writtenBytes == totalKeys * entryBytes < targetBytes
      invariant Final(totalKeys, targetBytes, entryBytes, batchSize)
                == Final(startIndex, targetBytes, entryBytes, batchSize)
      invariant db.keys == old(db.keys) + Range(startIndex, totalKeys)
      decreases targetBytes - writtenBytes
    {
      var batch := [];
      ghost var before := totalKeys;
      for i := 0 to batchSize
        invariant totalKeys == before + i && batch == Range(before, totalKeys)
      {
        batch := batch + [totalKeys];
        totalKeys := totalKeys + 1;
      }
      db.keys := db.keys + batch;
      RangesJoin(startIndex, before, totalKeys);
      OneBatchMore(before, batchSize, entryBytes);
      writtenBytes := totalKeys * entryBytes;
      if writtenBytes >= targetBytes {
        break;
      }
    }
    meta := Meta(totalKeys, keySize, valueSize);
  }

  /** Extending a dataset ends exactly where building it in one run does. */
  method ExtendedMatchesScratch(extended: Database, scratch: Database, t1: int, t2: int,
                                keySize: nat, valueSize: nat, batchSize: int)
    returns (a: Meta, b: Meta)
    requires extended != scratch && extended.keys == scratch.keys == []
    requires keySize + valueSize > 0 && batchSize > 0 && t1 <= t2
    modifies extended, scratch
    ensures a.totalKeys == b.totalKeys
    ensures extended.keys == scratch.keys == Range(0, b.totalKeys)
  {
    var first := Populate(extended, t1, keySize, valueSize, batchSize, None);
    a := Populate(extended, t2, keySize, valueSize, batchSize, Some(first));
    b := Populate(scratch, t2, keySize, valueSize, batchSize, None);
    StopOnTheWay(0, t1, t2, keySize + valueSize, batchSize);
    RangesJoin(0, first.totalKeys, a.totalKeys);
  }
}
