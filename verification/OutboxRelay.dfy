/**
 The relay worker: one tick fetches, publishes through a pipeline and marks. Every tick, whatever fails in it, is a run
 of the steps of module Outbox.
 */
module OutboxRelay {
  import opened ServerEvents
  import opened Outbox

  predicate NotAfter(rows: seq<Row>, m: nat, n: nat)
    requires m < |rows| && n < |rows|
  {
    rows[m].createdAt <= rows[n].createdAt
  }

  /** Places row `n` behind every listed row that was not created later. */
  function InsertByCreation(rows: seq<Row>, sorted: seq<nat>, n: nat): (r: seq<nat>)
    requires n < |rows| && forall p :: 0 <= p < |sorted| ==> sorted[p] < |rows|
    ensures |r| == |sorted| + 1
    ensures multiset(r) == multiset(sorted) + multiset{n}
  {
    if sorted == [] || NotAfter(rows, sorted[|sorted| - 1], n) then sorted + [n]
    else
      assert sorted == sorted[..|sorted| - 1] + [sorted[|sorted| - 1]];
      InsertByCreation(rows, sorted[..|sorted| - 1], n) + [sorted[|sorted| - 1]]
  }

  /** Every listed row is another one than `last` and not created after it. */
  ghost predicate AllBefore(rows: seq<Row>, ids: seq<nat>, last: nat)
    requires last < |rows|
  {
    forall p :: 0 <= p < |ids| ==> ids[p] < |rows| && ids[p] != last && NotAfter(rows, ids[p], last)
  }

  lemma AppendKeepsSorted(rows: seq<Row>, processed: set<nat>, ids: seq<nat>, last: nat)
    requires SortedUnprocessed(rows, processed, ids) && last < |rows| && last !in processed
    requires AllBefore(rows, ids, last)
    ensures SortedUnprocessed(rows, processed, ids + [last])
  {
  }

  /** Where the last listed row is not created after `n`, none is. */
  lemma SortedBefore(rows: seq<Row>, processed: set<nat>, sorted: seq<nat>, n: nat)
    requires SortedUnprocessed(rows, processed, sorted) && n < |rows| && n !in sorted
    requires sorted == [] || NotAfter(rows, sorted[|sorted| - 1], n)
    ensures AllBefore(rows, sorted, n)
  {
    forall p | 0 <= p < |sorted| ensures sorted[p] < |rows| && sorted[p] != n && NotAfter(rows, sorted[p], n) {
      assert sorted[p] in sorted;
    }
  }

  /** The last row of a sorted list comes behind the others. */
  lemma LastBehind(rows: seq<Row>, processed: set<nat>, sorted: seq<nat>)
    requires SortedUnprocessed(rows, processed, sorted) && sorted != []
    ensures SortedUnprocessed(rows, processed, sorted[..|sorted| - 1])
    ensures AllBefore(rows, sorted[..|sorted| - 1], sorted[|sorted| - 1])
  {
  }

  lemma InsertedMembers(rows: seq<Row>, sorted: seq<nat>, n: nat)
    requires n < |rows| && forall p :: 0 <= p < |sorted| ==> sorted[p] < |rows|
    ensures forall m :: m in InsertByCreation(rows, sorted, n) <==> m in sorted || m == n
  {
    var r := InsertByCreation(rows, sorted, n);
    forall m ensures m in r <==> m in sorted || m == n {
      assert m in r <==> m in multiset(r);
      assert m in sorted <==> m in multiset(sorted);
    }
  }

  /** What is placed in front of `last` is not created after it. */
  lemma InsertedInFront(rows: seq<Row>, front: seq<nat>, n: nat, last: nat)
    requires n < |rows| && last < |rows| && n != last && NotAfter(rows, n, last) && AllBefore(rows, front, last)
    ensures AllBefore(rows, InsertByCreation(rows, front, n), last)
  {
    var r := InsertByCreation(rows, front, n);
    InsertedMembers(rows, front, n);
    forall p | 0 <= p < |r| ensures r[p] < |rows| && r[p] != last && NotAfter(rows, r[p], last) {
      assert r[p] in r;
      if r[p] != n {
        var i :| 0 <= i < |front| && front[i] == r[p];
      }
    }
  }

  lemma {:induction false} InsertKeepsSorted(rows: seq<Row>, processed: set<nat>, sorted: seq<nat>, n: nat)
    requires SortedUnprocessed(rows, processed, sorted) && n < |rows| && n !in processed && n !in sorted
    ensures SortedUnprocessed(rows, processed, InsertByCreation(rows, sorted, n))
    ensures forall m :: m in InsertByCreation(rows, sorted, n) <==> m in sorted || m == n
  {
    InsertedMembers(rows, sorted, n);
    var size := |sorted|;
    if size == 0 || NotAfter(rows, sorted[size - 1], n) {
      SortedBefore(rows, processed, sorted, n);
      AppendKeepsSorted(rows, processed, sorted, n);
    } else {
      var front, last := sorted[..size - 1], sorted[size - 1];
      assert last in sorted;
      LastBehind(rows, processed, sorted);
      InsertKeepsSorted(rows, processed, front, n);
      InsertedInFront(rows, front, n, last);
      AppendKeepsSorted(rows, processed, InsertByCreation(rows, front, n), last);
    }
  }

  lemma PrefixFetchable(rows: seq<Row>, processed: set<nat>, limit: nat, sorted: seq<nat>)
    requires SortedUnprocessed(rows, processed, sorted) && limit < |sorted|
    requires forall n: nat :: n < |rows| && n !in processed ==> n in sorted
    ensures Fetchable(rows, processed, limit, sorted[..limit])
  {
    assert forall p :: 0 <= p < limit ==> sorted[p] == sorted[..limit][p] && sorted[p] in sorted[..limit];
    forall n: nat | n < |rows| && n !in processed && n !in sorted[..limit]
      ensures forall p :: 0 <= p < limit ==> rows[sorted[p]].createdAt <= rows[n].createdAt
    {
      var q :| 0 <= q < |sorted| && sorted[q] == n;
    }
  }

  /** The events of a batch whose append commands take effect, in batch order. */
  function Sent(rows: seq<Row>, batch: seq<nat>, applied: nat -> bool): seq<Event>
    requires forall p :: 0 <= p < |batch| ==> batch[p] < |rows|
  {
    if batch == [] then [] else
      var last := |batch| - 1;
      Sent(rows, batch[..last], applied) + if applied(last) then [rows[batch[last]].event] else []
  }

  lemma SentNext(rows: seq<Row>, batch: seq<nat>, applied: nat -> bool, i: nat)
    requires i < |batch| && forall p :: 0 <= p < |batch| ==> batch[p] < |rows|
    ensures Sent(rows, batch[..i + 1], applied) ==
            Sent(rows, batch[..i], applied) + if applied(i) then [rows[batch[i]].event] else []
  {
    assert batch[..i + 1][..i] == batch[..i];
  }

  lemma {:induction false} AllSent(rows: seq<Row>, batch: seq<nat>, applied: nat -> bool)
    requires forall p :: 0 <= p < |batch| ==> batch[p] < |rows| && applied(p)
    ensures Sent(rows, batch, applied) == EventsAt(rows, batch)
  {
    if batch != [] {
      var last := |batch| - 1;
      AllSent(rows, batch[..last], applied);
      assert EventsAt(rows, batch) == EventsAt(rows, batch[..last]) + [rows[batch[last]].event];
    }
  }

  /** The first `n` append commands take effect. */
  ghost predicate AllApplied(applied: nat -> bool, n: nat) {
    forall p :: 0 <= p < n ==> applied(p)
  }

  lemma AllAppliedNext(applied: nat -> bool, n: nat)
    ensures AllApplied(applied, n + 1) <==> AllApplied(applied, n) && applied(n)
  {
    assert AllApplied(applied, n + 1) ==> applied(n);
  }

  class OutboxRelay {
    var rows: seq<Row>         // the outbox table
    var processed: set<nat>    // its is_processed column
    var stream: seq<Event>
    const batchSize: nat

    constructor (batchSize: nat)
      ensures rows == [] && processed == {} && stream == [] && this.batchSize == batchSize
    {
      rows, processed, stream := [], {}, [];
      this.batchSize := batchSize;
    }

    ghost function InPhase(phase: Phase): State
      reads this
    {
      State(rows, processed, phase, stream)
    }

    /** The ordered, limited query over the unprocessed rows. */
    method GetUnprocessed(limit: nat) returns (batch: seq<nat>)
      ensures Fetchable(rows, processed, limit, batch)
      ensures |batch| <= limit && forall p :: 0 <= p < |batch| ==> batch[p] < |rows| && batch[p] !in processed
      ensures forall p, q :: 0 <= p < q < |batch| ==>
                batch[p] != batch[q] && rows[batch[p]].createdAt <= rows[batch[q]].createdAt
      ensures forall n: nat :: n < |rows| && n !in processed && n !in batch ==>
                |batch| == limit && forall p :: 0 <= p < limit ==> rows[batch[p]].createdAt <= rows[n].createdAt
    {
      var sorted: seq<nat> := [];
      for n := 0 to |rows|
        invariant SortedUnprocessed(rows, processed, sorted)
        invariant forall m :: m in sorted <==> 0 <= m < n && m !in processed
      {
        if n !in processed {
          InsertKeepsSorted(rows, processed, sorted, n);
          sorted := InsertByCreation(rows, sorted, n);
        }
      }
      if |sorted| <= limit {
        batch := sorted;
      } else {
        PrefixFetchable(rows, processed, limit, sorted);
        batch := sorted[..limit];
      }
    }

    /** One append command of the pipeline. */
    method SendOne(batch: seq<nat>, i: nat, takesEffect: bool, ghost clean: bool, ghost start: State,
                   ghost steps: seq<Step>)
      returns (ghost more: seq<Step>)
      requires i < |batch| && batch[i] < |rows|
      requires Runs(start, steps) && Exec(start, steps) == InPhase(Publishing(batch, i, clean))
      modifies this`stream
      ensures stream == old(stream) + if takesEffect then [rows[batch[i]].event] else []
      ensures Runs(start, more) && Exec(start, more) == InPhase(Publishing(batch, i + 1, clean && takesEffect))
    {
      RunsConcat(start, steps, [PublishOne(takesEffect)]);
      more := steps + [PublishOne(takesEffect)];
      if takesEffect {
        stream := stream + [rows[batch[i]].event];
      }
    }

    /** Appends the events of a batch one command at a time; `applied` says which of them take effect. */
    method SendBatch(batch: seq<nat>, applied: nat -> bool) returns (ghost clean: bool, ghost steps: seq<Step>)
      requires forall p :: 0 <= p < |batch| ==> batch[p] < |rows|
      modifies this`stream
      ensures stream == old(stream) + Sent(rows, batch, applied)
      ensures clean <==> AllApplied(applied, |batch|)
      ensures Runs(old(InPhase(Publishing(batch, 0, true))), steps)
      ensures Exec(old(InPhase(Publishing(batch, 0, true))), steps) == InPhase(Publishing(batch, |batch|, clean))
    {
      ghost var start := InPhase(Publishing(batch, 0, true));
      clean, steps := true, [];
      for i := 0 to |batch|
        invariant Runs(start, steps) && Exec(start, steps) == InPhase(Publishing(batch, i, clean))
        invariant clean <==> AllApplied(applied, i)
        invariant stream == old(stream) + Sent(rows, batch[..i], applied)
      {
        SentNext(rows, batch, applied, i);
        AllAppliedNext(applied, i);
        steps := SendOne(batch, i, applied(i), clean, start, steps);
        clean := clean && applied(i);
      }
      assert batch[..|batch|] == batch;
    }

    /**
     Sends the batch through a pipeline. `execFails` says whether executing the pipeline reports an error; without one
     every command took effect.
     */
    method PublishOutboxBatch(batch: seq<nat>, applied: nat -> bool, execFails: bool)
      returns (ok: bool, ghost steps: seq<Step>)
      requires forall p :: 0 <= p < |batch| ==> batch[p] < |rows|
      requires !execFails ==> forall p :: 0 <= p < |batch| ==> applied(p)
      modifies this`stream
      ensures ok == !execFails
      ensures stream == old(stream) + Sent(rows, batch, applied)
      ensures ok ==> stream == old(stream) + EventsAt(rows, batch)
      ensures Runs(old(InPhase(Publishing(batch, 0, true))), steps)
      ensures Exec(old(InPhase(Publishing(batch, 0, true))), steps) == InPhase(if ok then Marking(batch) else Idle)
    {
      ghost var start, clean := InPhase(Publishing(batch, 0, true)), true;
      clean, steps := SendBatch(batch, applied);
      if !execFails {
        AllSent(rows, batch, applied);
      }
      RunsConcat(start, steps, [PublishEnd(execFails)]);
      steps := steps + [PublishEnd(execFails)];
      ok := !execFails;
    }

    /** The mark of a published batch, or nothing; either way the relay's invariant is kept. */
    method MarkProcessed(ids: seq<nat>, fails: bool) returns (ok: bool)
      modifies this`processed
      ensures processed == old(processed) + if fails then {} else set id | id in ids
      ensures ok == !fails && InPhase(Idle) == Do(old(InPhase(Marking(ids))), Mark(fails))
      ensures old(Inv(InPhase(Marking(ids)))) ==> Inv(InPhase(Idle))
    {
      ghost var before := InPhase(Marking(ids));
      if Inv(before) {
        StepKeepsInv(before, Mark(fails));
      }
      if !fails {
        processed := processed + set id | id in ids;
      }
      ok := !fails;
    }

    /** The end of a tick whose batch was published: collects the ids and marks them. */
    method MarkBatch(fetched: seq<nat>, markFails: bool, ghost start: State, ghost steps: seq<Step>)
      returns (ghost more: seq<Step>)
      requires Runs(start, steps) && Exec(start, steps) == InPhase(Marking(fetched))
      modifies this`processed
      ensures Runs(start, more) && Exec(start, more) == InPhase(Idle)
      ensures processed == old(processed) + if markFails then {} else set id | id in fetched
    {
      var ids := [];
      for i := 0 to |fetched|
        invariant ids == fetched[..i]
      {
        ids := ids + [fetched[i]];
      }
      var ok := MarkProcessed(ids, markFails);
      RunsConcat(start, steps, [Mark(markFails)]);
      more := steps + [Mark(markFails)];
    }

    /**
     One tick. Nothing is marked unless the whole batch reached the stream, and a clean tick moves the oldest
     unprocessed rows there in creation order.
     */
    method ProcessOutboxEvents(fetchFails: bool, applied: nat -> bool, execFails: bool, markFails: bool)
      returns (ghost batch: seq<nat>, ghost steps: seq<Step>)
      requires !execFails ==> forall p: nat :: applied(p)
      modifies this`stream, this`processed
      ensures Fetchable(rows, old(processed), batchSize, batch)
      ensures Runs(old(InPhase(Idle)), steps) && Exec(old(InPhase(Idle)), steps) == InPhase(Idle)
      ensures !fetchFails && !execFails ==> stream == old(stream) + EventsAt(rows, batch)
      ensures stream == old(stream) + if fetchFails then [] else Sent(rows, batch, applied)
      ensures processed == old(processed) + if fetchFails || execFails || markFails then {} else set id | id in batch
    {
      ghost var start := InPhase(Idle);
      steps := [];
      var fetched := GetUnprocessed(batchSize);
      batch := fetched;
      if fetchFails || |fetched| == 0 {
        return;
      }
      ghost var publishing;
      var ok;
      ok, publishing := PublishOutboxBatch(fetched, applied, execFails);
      steps := [Fetch(batchSize, fetched)];
      RunsConcat(start, steps, publishing);
      steps := steps + publishing;
      if !ok {
        return;
      }
      steps := MarkBatch(fetched, markFails, start, steps);
    }
  }
}
