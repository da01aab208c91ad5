/** The sink: persists every record of a batch, acknowledges the batch only
    when all of them succeeded, and stops at the first batch with a failure. */
module Sink {
  import opened Results
  import opened Batching

  /** Every record of `batch` is persisted successfully. */
  predicate Succeeds<T>(batch: seq<T>, persist: T -> bool)
  {
    forall j :: 0 <= j < |batch| ==> persist(batch[j])
  }

  /** `r` is a record of `batch` whose persistence fails. */
  ghost predicate FailsIn<T>(r: T, batch: seq<T>, persist: T -> bool)
  {
    exists j :: 0 <= j < |batch| && batch[j] == r && !persist(batch[j])
  }

  /** Index of the first batch holding a failing record; |batches| when there is none. */
  function FailingBatch<T>(batches: seq<seq<T>>, persist: T -> bool): (k: nat)
    ensures k <= |batches|
  {
    if batches == [] then 0
    else if Succeeds(batches[0], persist) then 1 + FailingBatch(batches[1..], persist)
    else 0
  }

  /** The batches the sink starts: all of them up to and including the first failing one. */
  function Started<T>(batches: seq<seq<T>>, persist: T -> bool): seq<seq<T>>
  {
    var k := FailingBatch(batches, persist);
    if k < |batches| then batches[..k + 1] else batches
  }

  /** The persistence calls the sink makes, one per record of every started batch. */
  function Invoked<T>(batches: seq<seq<T>>, persist: T -> bool): seq<T>
  {
    Flatten(Started(batches, persist))
  }

  /** FailingBatch is the first failing batch: every batch before it succeeds
      and the batch at it (if any) does not. */
  lemma {:induction false} FailingBatchIsFirst<T>(batches: seq<seq<T>>, persist: T -> bool)
    ensures forall j :: 0 <= j < FailingBatch(batches, persist) ==> Succeeds(batches[j], persist)
    ensures FailingBatch(batches, persist) < |batches| ==>
              !Succeeds(batches[FailingBatch(batches, persist)], persist)
  {
    if batches != [] && Succeeds(batches[0], persist) {
      FailingBatchIsFirst(batches[1..], persist);
      forall j | 1 <= j < FailingBatch(batches, persist)
        ensures Succeeds(batches[j], persist)
      {
        assert batches[j] == batches[1..][j - 1];
      }
    }
  }

  /** The characterisation determines FailingBatch. */
  lemma FailingBatchAt<T>(batches: seq<seq<T>>, persist: T -> bool, k: nat)
    requires k <= |batches|
    requires forall j :: 0 <= j < k ==> Succeeds(batches[j], persist)
    requires k < |batches| ==> !Succeeds(batches[k], persist)
    ensures FailingBatch(batches, persist) == k
  {
    FailingBatchIsFirst(batches, persist);
  }

  /** A run whose started batches are `done` stops at the last of them when
      only that one fails. */
  lemma StopsAt<T>(batches: seq<seq<T>>, persist: T -> bool, done: seq<seq<T>>)
    requires done != [] && done <= batches
    requires forall j :: 0 <= j < |done| - 1 ==> Succeeds(done[j], persist)
    requires !Succeeds(done[|done| - 1], persist)
    ensures FailingBatch(batches, persist) == |done| - 1
    ensures Invoked(batches, persist) == Flatten(done)
  {
    assert batches[..|done|] == done;
    FailingBatchAt(batches, persist, |done| - 1);
  }

  /** The run completes exactly when every record of every batch persists. */
  lemma CompletesIffAllSucceed<T>(batches: seq<seq<T>>, persist: T -> bool)
    ensures FailingBatch(batches, persist) == |batches| <==>
              forall j :: 0 <= j < |batches| ==> Succeeds(batches[j], persist)
    ensures FailingBatch(batches, persist) == |batches| ==> Invoked(batches, persist) == Flatten(batches)
  {
    FailingBatchIsFirst(batches, persist);
  }

  /** After a failing batch no later record is touched: the records of the
      input are exactly the invoked ones followed by those of the later batches. */
  lemma NothingAfterFailure<T>(batches: seq<seq<T>>, persist: T -> bool)
    requires FailingBatch(batches, persist) < |batches|
    ensures Flatten(batches) ==
              Invoked(batches, persist) + Flatten(batches[FailingBatch(batches, persist) + 1..])
  {
    var k := FailingBatch(batches, persist);
    assert batches == batches[..k + 1] + batches[k + 1..];
    FlattenAppend(batches[..k + 1], batches[k + 1..]);
  }

  /** Writes one batch: persists every record of it, each exactly once, and
      reports one failing record when any call failed. */
  method WriteBatch<T>(batch: seq<T>, persist: T -> bool) returns (calls: seq<T>, failed: Option<T>)
    ensures calls == batch
    ensures failed.None? <==> Succeeds(batch, persist)
    ensures failed.Some? ==> FailsIn(failed.value, batch, persist)
  {
    calls := [];
    failed := None;
    var i := 0;
    while i < |batch|
      invariant 0 <= i <= |batch|
      invariant calls == batch[..i]
      invariant failed.None? <==> forall j :: 0 <= j < i ==> persist(batch[j])
      invariant failed.Some? ==> FailsIn(failed.value, batch[..i], persist)
    {
      var ok := persist(batch[i]);
      calls := calls + [batch[i]];
      if !ok && failed.None? {
        failed := Some(batch[i]);
      }
      i := i + 1;
    }
  }

  /** Step from one written batch to the next: the calls so far cover the
      first i + 1 batches. */
  lemma FlattenStep<T>(batches: seq<seq<T>>, i: nat)
    requires i < |batches|
    ensures Flatten(batches[..i + 1]) == Flatten(batches[..i]) + batches[i]
  {
    assert batches[..i + 1] == batches[..i] + [batches[i]];
    FlattenAppend(batches[..i], [batches[i]]);
    assert [batches[i]][1..] == [];
  }

  /** Consumes batches one at a time, starting the next only after the
      previous one fully succeeded. */
  method Consume<T>(batches: seq<seq<T>>, persist: T -> bool) returns (outcome: Outcome<T>, calls: seq<T>)
    ensures calls == Invoked(batches, persist)
    ensures outcome.Completed? <==> FailingBatch(batches, persist) == |batches|
    ensures outcome.Failed? ==> outcome.fault.PersistFailed?
    ensures outcome.Failed? ==>
              var k := FailingBatch(batches, persist);
              k < |batches| && FailsIn(outcome.fault.row, batches[k], persist)
  {
    calls := [];
    var i := 0;
    while i < |batches|
      invariant 0 <= i <= |batches|
      invariant forall j :: 0 <= j < i ==> Succeeds(batches[j], persist)
      invariant calls == Flatten(batches[..i])
    {
      var written, failed := WriteBatch(batches[i], persist);
      FlattenStep(batches, i);
      calls := calls + written;
      if failed.Some? {
        FailingBatchAt(batches, persist, i);
        return Failed(PersistFailed(failed.value)), calls;
      }
      i := i + 1;
    }
    FailingBatchAt(batches, persist, |batches|);
    assert batches[..i] == batches;
    outcome := Completed;
  }
}
