/** The batching stage: groups records into batches of a fixed size and emits
    the remainder as one shorter batch when the input ends. */
module Batching {
  import opened Results

  /** The fixed batch size. */
  const BatchSize: nat := 100

  /** The records of `batches`, in emission order. */
  function Flatten<T>(batches: seq<seq<T>>): seq<T>
  {
    if batches == [] then [] else batches[0] + Flatten(batches[1..])
  }

  /** Every batch holds exactly BatchSize records. */
  predicate AllFull<T>(batches: seq<seq<T>>)
  {
    forall j :: 0 <= j < |batches| ==> |batches[j]| == BatchSize
  }

  /** The reference batching of a record sequence: consecutive slices of
      BatchSize records, the last one shorter when the length is not a multiple. */
  function Chunks<T>(s: seq<T>): seq<seq<T>>
    decreases |s|
  {
    if s == [] then []
    else if |s| <= BatchSize then [s]
    else [s[..BatchSize]] + Chunks(s[BatchSize..])
  }

  lemma {:induction false} FlattenAppend<T>(a: seq<seq<T>>, b: seq<seq<T>>)
    ensures Flatten(a + b) == Flatten(a) + Flatten(b)
  {
    if a == [] {
      assert a + b == b;
    } else {
      assert (a + b)[1..] == a[1..] + b;
      FlattenAppend(a[1..], b);
    }
  }

  lemma FlattenSnoc<T>(batches: seq<seq<T>>, batch: seq<T>)
    ensures Flatten(batches + [batch]) == Flatten(batches) + batch
  {
    FlattenAppend(batches, [batch]);
    assert [batch][1..] == [];
  }

  lemma {:induction false} FlattenFullLength<T>(batches: seq<seq<T>>)
    requires AllFull(batches)
    ensures |Flatten(batches)| == |batches| * BatchSize
  {
    if batches != [] {
      FlattenFullLength(batches[1..]);
    }
  }

  /** Concatenating the batches gives back the input exactly. */
  lemma {:induction false} ChunksFlatten<T>(s: seq<T>)
    ensures Flatten(Chunks(s)) == s
    decreases |s|
  {
    if |s| > BatchSize {
      var rest := Chunks(s[BatchSize..]);
      ChunksFlatten(s[BatchSize..]);
      assert ([s[..BatchSize]] + rest)[1..] == rest;
      assert s == s[..BatchSize] + s[BatchSize..];
    } else if s != [] {
      assert [s][1..] == [];
    }
  }

  /** No batch is empty, none exceeds BatchSize, and all but the last are full. */
  lemma {:induction false} ChunksSizes<T>(s: seq<T>)
    ensures forall j :: 0 <= j < |Chunks(s)| ==> 0 < |Chunks(s)[j]| <= BatchSize
    ensures forall j :: 0 <= j < |Chunks(s)| - 1 ==> |Chunks(s)[j]| == BatchSize
    decreases |s|
  {
    if |s| > BatchSize {
      var rest := Chunks(s[BatchSize..]);
      ChunksSizes(s[BatchSize..]);
      assert Chunks(s) == [s[..BatchSize]] + rest;
      forall j | 1 <= j < |Chunks(s)|
        ensures Chunks(s)[j] == rest[j - 1]
      {
      }
    }
  }

  /** N records make ceil(N / BatchSize) batches; none when N = 0. */
  lemma {:induction false} ChunksCount<T>(s: seq<T>)
    ensures |Chunks(s)| == (|s| + BatchSize - 1) / BatchSize
    decreases |s|
  {
    if |s| > BatchSize {
      ChunksCount(s[BatchSize..]);
    }
  }

  /** Full batches in front of a record sequence are batched as they stand. */
  lemma {:induction false} ChunksAfterFull<T>(full: seq<seq<T>>, rest: seq<T>)
    requires AllFull(full)
    ensures Chunks(Flatten(full) + rest) == full + Chunks(rest)
  {
    if full != [] {
      var s := Flatten(full) + rest;
      var tail := Flatten(full[1..]) + rest;
      assert s == full[0] + tail;
      ChunksAfterFull(full[1..], rest);
      if |s| == BatchSize {
        FlattenFullLength(full[1..]);
        assert tail == [] && full[1..] == [] && rest == [];
        assert full == [full[0]];
      } else {
        assert s[..BatchSize] == full[0] && s[BatchSize..] == tail;
        assert full == [full[0]] + full[1..];
      }
    } else {
      assert Flatten(full) + rest == rest;
    }
  }

  /** The batching stage of one run. `consumed` and `emitted` are the public
      view: what was accepted so far and the batches emitted so far. */
  class Batcher<T> {
    var buffer: seq<T>
    ghost var consumed: seq<T>
    ghost var emitted: seq<seq<T>>

    /** The buffer stays below BatchSize, every emitted batch is full, and the
        emitted batches followed by the buffer are exactly the accepted records. */
    ghost predicate Valid()
      reads this
    {
      |buffer| < BatchSize && AllFull(emitted) && Flatten(emitted) + buffer == consumed
    }

    constructor ()
      ensures Valid()
      ensures buffer == [] && consumed == [] && emitted == []
    {
      buffer := [];
      consumed := [];
      emitted := [];
    }

    /** Accepts one record. A batch is emitted exactly when the buffer reaches
        BatchSize; it is the buffer's contents and the buffer is then empty. */
    method Accept(r: T) returns (batch: Option<seq<T>>)
      requires Valid()
      modifies this
      ensures Valid()
      ensures consumed == old(consumed) + [r]
      ensures batch.Some? <==> |old(buffer)| + 1 == BatchSize
      ensures batch.Some? ==> |batch.value| == BatchSize && batch.value == old(buffer) + [r]
      ensures batch.Some? ==> buffer == [] && emitted == old(emitted) + [batch.value]
      ensures batch.None? ==> buffer == old(buffer) + [r] && emitted == old(emitted)
    {
      buffer := buffer + [r];
      consumed := consumed + [r];
      if |buffer| >= BatchSize {
        batch := Some(buffer);
        FlattenAppend(emitted, [buffer]);
        assert [buffer][1..] == [];
        emitted := emitted + [buffer];
        buffer := [];
      } else {
        batch := None;
      }
    }

    /** At the end of the input: emits the buffered remainder, and nothing when
        the buffer is empty. With the batches emitted so far it completes the
        reference batching of everything accepted. */
    method Finish() returns (batch: Option<seq<T>>)
      requires Valid()
      ensures batch.None? <==> buffer == []
      ensures batch.Some? ==> 0 < |batch.value| < BatchSize
      ensures emitted + (if batch.Some? then [batch.value] else []) == Chunks(consumed)
    {
      batch := if |buffer| > 0 then Some(buffer) else None;
      ChunksAfterFull(emitted, buffer);
    }
  }
}
