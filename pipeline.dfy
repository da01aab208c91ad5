/** The import driver: record source, then the batching stage, then the sink,
    run to a single terminal outcome. */
module Pipeline {
  import opened Results
  import opened Batching
  import opened Sink

  /** The records that fill whole batches. */
  function WholeBatches<T>(s: seq<T>): seq<T>
  {
    s[..|s| - |s| % BatchSize]
  }

  /** The batches that reach the sink: on a normal end, the batching of every
      record, the shorter final one included; when the source fails, only the
      full batches emitted before the failure, since the buffer is then
      discarded without a flush. */
  function Delivered<T>(records: seq<T>, end: SourceEnd): seq<seq<T>>
  {
    if end == Exhausted then Chunks(records) else Chunks(WholeBatches(records))
  }

  lemma WholeBatchesLength(n: nat, m: nat)
    requires m * BatchSize <= n
    ensures m * BatchSize <= n - n % BatchSize
  {
  }

  lemma RemainderAfterFull(m: nat, r: nat)
    requires r < BatchSize
    ensures (m * BatchSize + r) % BatchSize == r
  {
  }

  /** Full batches that make up a prefix of the records are the first batches delivered. */
  lemma DeliveredPrefix<T>(records: seq<T>, end: SourceEnd, done: seq<seq<T>>)
    requires AllFull(done)
    requires Flatten(done) <= records
    ensures done <= Delivered(records, end)
  {
    if end == Exhausted {
      ChunksPrefix(records, done);
    } else {
      FlattenFullLength(done);
      WholeBatchesLength(|records|, |done|);
      ChunksPrefix(WholeBatches(records), done);
    }
  }

  lemma ChunksPrefix<T>(s: seq<T>, done: seq<seq<T>>)
    requires AllFull(done)
    requires Flatten(done) <= s
    ensures done <= Chunks(s)
  {
    var n := |Flatten(done)|;
    assert s == Flatten(done) + s[n..];
    ChunksAfterFull(done, s[n..]);
  }

  /** When the source fails, the full batches already emitted are exactly the
      batches delivered; the buffered remainder is dropped. */
  lemma SourceFailureDelivers<T>(records: seq<T>, emitted: seq<seq<T>>, buffer: seq<T>)
    requires AllFull(emitted) && |buffer| < BatchSize
    requires Flatten(emitted) + buffer == records
    ensures Chunks(WholeBatches(records)) == emitted
  {
    FlattenFullLength(emitted);
    RemainderAfterFull(|emitted|, |buffer|);
    assert WholeBatches(records) == Flatten(emitted) + [];
    ChunksAfterFull(emitted, []);
    assert emitted + Chunks([]) == emitted;
  }

  /** One import run. Each batch the batching stage emits is written before
      the next record is read; the run stops at the first failure of the
      source or of a batch write. The loop does not call `Consume` because it
      interleaves `Accept` with `WriteBatch`; its ensures are `Consume`'s
      contract applied to `Delivered(records, end)`. */
  method Import<T>(records: seq<T>, end: SourceEnd, persist: T -> bool)
    returns (outcome: Outcome<T>, calls: seq<T>)
    ensures calls == Invoked(Delivered(records, end), persist)
    ensures var batches := Delivered(records, end);
            var k := FailingBatch(batches, persist);
            k < |batches| ==>
              outcome.Failed? && outcome.fault.PersistFailed? &&
              FailsIn(outcome.fault.row, batches[k], persist)
    ensures var batches := Delivered(records, end);
            FailingBatch(batches, persist) == |batches| ==>
              if end == Exhausted then outcome.Completed? else outcome == Failed(SourceFailed(end))
  {
    var batcher := new Batcher<T>();
    calls := [];
    var i := 0;
    while i < |records|
      invariant 0 <= i <= |records|
      invariant batcher.Valid() && batcher.consumed == records[..i]
      invariant forall j :: 0 <= j < |batcher.emitted| ==> Succeeds(batcher.emitted[j], persist)
      invariant calls == Flatten(batcher.emitted)
    {
      ghost var before := batcher.emitted;
      var batch := batcher.Accept(records[i]);
      if batch.Some? {
        var written, failed := WriteBatch(batch.value, persist);
        FlattenSnoc(before, batch.value);
        calls := calls + written;
        if failed.Some? {
          assert records[..i + 1] == records[..i] + [records[i]];
          assert Flatten(batcher.emitted) <= records;
          DeliveredPrefix(records, end, batcher.emitted);
          assert batcher.emitted <= Delivered(records, end);
          StopsAt(Delivered(records, end), persist, batcher.emitted);
          return Failed(PersistFailed(failed.value)), calls;
        }
      }
      i := i + 1;
    }
    assert records[..i] == records;
    ghost var emitted := batcher.emitted;
    if end != Exhausted {
      SourceFailureDelivers(records, emitted, batcher.buffer);
      FailingBatchAt(emitted, persist, |emitted|);
      return Failed(SourceFailed(end)), calls;
    }
    var last := batcher.Finish();
    if last.None? {
      assert Delivered(records, end) == emitted + [] == emitted;
      FailingBatchAt(emitted, persist, |emitted|);
      return Completed, calls;
    }
    var written, failed := WriteBatch(last.value, persist);
    FlattenSnoc(emitted, last.value);
    calls := calls + written;
    ghost var bs := emitted + [last.value];
    assert Delivered(records, end) == bs;
    if failed.Some? {
      StopsAt(bs, persist, bs);
      return Failed(PersistFailed(failed.value)), calls;
    }
    FailingBatchAt(bs, persist, |bs|);
    outcome := Completed;
  }

  /** No batch reaches the sink empty or larger than BatchSize, so at most
      BatchSize persistence calls are in flight at once. */
  lemma DeliveredBounded<T>(records: seq<T>, end: SourceEnd)
    ensures forall j :: 0 <= j < |Delivered(records, end)| ==>
              0 < |Delivered(records, end)[j]| <= BatchSize
  {
    ChunksSizes(if end == Exhausted then records else WholeBatches(records));
  }

  /** When every record persists, a normally ending run persists every record
      exactly once, in order, over ceil(N / BatchSize) batches. */
  lemma AllSucceedPersistsEverything<T>(records: seq<T>, persist: T -> bool)
    requires forall j :: 0 <= j < |records| ==> persist(records[j])
    ensures FailingBatch(Delivered(records, Exhausted), persist) == |Delivered(records, Exhausted)|
    ensures Invoked(Delivered(records, Exhausted), persist) == records
    ensures |Delivered(records, Exhausted)| == (|records| + BatchSize - 1) / BatchSize
  {
    var bs := Chunks(records);
    ChunksFlatten(records);
    ChunksCount(records);
    forall j | 0 <= j < |bs|
      ensures Succeeds(bs[j], persist)
    {
      forall r | 0 <= r < |bs[j]|
        ensures persist(bs[j][r])
      {
        assert bs == bs[..j] + [bs[j]] + bs[j + 1..];
        FlattenAppend(bs[..j] + [bs[j]], bs[j + 1..]);
        FlattenStep(bs, j);
        assert bs[..j + 1] == bs[..j] + [bs[j]];
        var at := |Flatten(bs[..j])| + r;
        assert records[at] == bs[j][r];
      }
    }
    CompletesIffAllSucceed(bs, persist);
  }

  /** 250 records that all persist: three batches of 100, 100 and 50, a
      completed run and exactly 250 persistence calls. */
  lemma TwoHundredFiftyRecords<T>(records: seq<T>, persist: T -> bool)
    requires |records| == 250
    requires forall j :: 0 <= j < |records| ==> persist(records[j])
    ensures var bs := Delivered(records, Exhausted);
            |bs| == 3 && |bs[0]| == 100 && |bs[1]| == 100 && |bs[2]| == 50
    ensures FailingBatch(Delivered(records, Exhausted), persist) == 3
    ensures |Invoked(Delivered(records, Exhausted), persist)| == 250
  {
    AllSucceedPersistsEverything(records, persist);
    var tail := records[BatchSize..][BatchSize..];
    assert Chunks(records) == [records[..BatchSize]] + Chunks(records[BatchSize..]);
    assert Chunks(records[BatchSize..]) == [records[BatchSize..][..BatchSize]] + Chunks(tail);
    assert Chunks(tail) == [tail];
  }

  /** Only record #57 (index 56) fails: the run stops in the first batch, the
      failure names that record, and no record from #101 on is ever written. */
  lemma FailureInFirstBatch<T>(records: seq<T>, end: SourceEnd, persist: T -> bool)
    requires |records| >= BatchSize
    requires forall r :: !persist(r) <==> r == records[56]
    ensures FailingBatch(Delivered(records, end), persist) == 0
    ensures Invoked(Delivered(records, end), persist) == records[..BatchSize]
    ensures forall r :: FailsIn(r, Delivered(records, end)[0], persist) ==> r == records[56]
  {
    var bs := Delivered(records, end);
    DeliveredPrefix(records, end, [records[..BatchSize]]);
    assert Flatten([records[..BatchSize]]) == records[..BatchSize] + Flatten([]);
    assert bs[0] == records[..BatchSize];
    assert !Succeeds(bs[0], persist) by {
      assert !persist(bs[0][56]);
    }
    FailingBatchAt(bs, persist, 0);
    assert bs[..1] == [records[..BatchSize]];
  }

  /** A source that fails before BatchSize records leaves nothing persisted:
      the buffered records are discarded, and the run fails with the source's error. */
  lemma EarlySourceErrorPersistsNothing<T>(records: seq<T>, end: SourceEnd, persist: T -> bool)
    requires |records| < BatchSize && end != Exhausted
    ensures Delivered(records, end) == []
    ensures Invoked(Delivered(records, end), persist) == []
    ensures FailingBatch(Delivered(records, end), persist) == 0
  {
  }
}
