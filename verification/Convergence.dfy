/**
 Convergence: from every state that a clean run of the whole system reaches, without any further change by the
 services, the relay and the consumer can run until everything is drained; the replica then agrees with the table.
 */
module Convergence {
  import opened ServerEvents
  import opened Replica
  import T = ServerTable
  import O = Outbox
  import R = OutboxRelay
  import C = Consumer
  import E = EndToEnd

  // ----- The relay can drain the outbox -----

  ghost predicate NoCommit(steps: seq<O.Step>) {
    forall i :: 0 <= i < |steps| ==> !steps[i].Commit?
  }

  function Unprocessed(s: O.State): set<nat> {
    set n | 0 <= n < |s.rows| && n !in s.processed
  }

  lemma SortedBacklog(rows: seq<Row>, processed: set<nat>) returns (ids: seq<nat>)
    ensures O.SortedUnprocessed(rows, processed, ids)
    ensures forall n: nat :: n < |rows| && n !in processed ==> n in ids
  {
    ids := [];
    for n := 0 to |rows|
      invariant O.SortedUnprocessed(rows, processed, ids)
      invariant forall m :: m in ids <==> 0 <= m < n && m !in processed
    {
      if n !in processed {
        R.InsertKeepsSorted(rows, processed, ids, n);
        ids := R.InsertByCreation(rows, ids, n);
      }
    }
  }

  lemma SomeBatch(rows: seq<Row>, processed: set<nat>, limit: nat) returns (batch: seq<nat>)
    requires limit >= 1 && exists n: nat :: n < |rows| && n !in processed
    ensures O.Fetchable(rows, processed, limit, batch) && batch != []
  {
    var ids := SortedBacklog(rows, processed);
    if |ids| <= limit {
      batch := ids;
    } else {
      R.PrefixFetchable(rows, processed, limit, ids);
      batch := ids[..limit];
    }
  }

  lemma {:induction false} PublishRest(s: O.State) returns (steps: seq<O.Step>)
    requires O.Inv(s) && s.phase.Publishing? && s.phase.clean
    ensures O.Runs(s, steps) && NoCommit(steps) && O.Inv(O.Exec(s, steps))
    ensures var t := O.Exec(s, steps);
            t.rows == s.rows && t.processed == s.processed && t.phase == O.Marking(s.phase.batch)
    decreases |s.phase.batch| - s.phase.next
  {
    var step := if s.phase.next == |s.phase.batch| then O.PublishEnd(false) else O.PublishOne(true);
    O.StepKeepsInv(s, step);
    var t := O.Do(s, step);
    if step.PublishEnd? {
      steps := [step];
      assert O.Runs(t, []);
    } else {
      var rest := PublishRest(t);
      steps := [step] + rest;
      assert steps[1..] == rest;
    }
  }

  /** Publishing a fetched batch and marking it. */
  lemma PublishAndMark(t: O.State) returns (steps: seq<O.Step>)
    requires O.Inv(t) && t.phase.Publishing? && t.phase.clean
    ensures O.Runs(t, steps) && NoCommit(steps) && O.Inv(O.Exec(t, steps))
    ensures var u := O.Exec(t, steps);
            u.rows == t.rows && u.phase.Idle? && u.processed == t.processed + set id | id in t.phase.batch
  {
    steps := PublishRest(t);
    var u := O.Exec(t, steps);
    O.StepKeepsInv(u, O.Mark(false));
    assert O.Runs(O.Do(u, O.Mark(false)), []);
    O.RunsConcat(t, steps, [O.Mark(false)]);
    steps := steps + [O.Mark(false)];
  }

  /** A tick without faults processes at least one more row. */
  lemma CleanTick(s: O.State, limit: nat) returns (steps: seq<O.Step>)
    requires O.Inv(s) && s.phase.Idle? && limit >= 1 && Unprocessed(s) != {}
    ensures O.Runs(s, steps) && NoCommit(steps) && O.Inv(O.Exec(s, steps))
    ensures var t := O.Exec(s, steps); t.phase.Idle? && t.rows == s.rows && Unprocessed(t) < Unprocessed(s)
  {
    var n :| n in Unprocessed(s);
    var batch := SomeBatch(s.rows, s.processed, limit);
    var fetch := O.Fetch(limit, batch);
    O.StepKeepsInv(s, fetch);
    var t := O.Do(s, fetch);
    var rest := PublishAndMark(t);
    steps := [fetch] + rest;
    assert steps[1..] == rest;
    assert batch[0] in Unprocessed(s) && batch[0] in batch;
  }

  lemma {:induction false} DrainOutbox(s: O.State, limit: nat) returns (steps: seq<O.Step>)
    requires O.Inv(s) && s.phase.Idle? && limit >= 1
    ensures O.Runs(s, steps) && NoCommit(steps)
    ensures var t := O.Exec(s, steps); t.rows == s.rows && forall n: nat :: n < |t.rows| ==> n in t.processed
    decreases |Unprocessed(s)|
  {
    if Unprocessed(s) == {} {
      steps := [];
      assert forall n: nat :: n < |s.rows| && n !in s.processed ==> n in Unprocessed(s);
    } else {
      var tick := CleanTick(s, limit);
      var t := O.Exec(s, tick);
      SmallerSet(Unprocessed(t), Unprocessed(s));
      var rest := DrainOutbox(t, limit);
      O.RunsConcat(s, tick, rest);
      steps := tick + rest;
    }
  }

  lemma SmallerSet(a: set<nat>, b: set<nat>)
    requires a < b
    ensures |a| < |b|
  {
    assert b == a + (b - a);
    assert |b| == |a| + |b - a|;
  }

  // ----- The consumer can drain the stream -----

  /** A run of clean consumer steps that leaves the stream alone. */
  ghost predicate Quiet(s: C.State, steps: seq<C.Step>) {
    && C.Runs(s, steps) && C.CleanRun(s, steps)
    && forall i :: 0 <= i < |steps| ==> !steps[i].Append?
  }

  lemma QuietCons(s: C.State, step: C.Step, rest: seq<C.Step>)
    requires C.Enabled(s, step) && C.Clean(s, step) && !step.Append? && Quiet(C.Do(s, step), rest)
    ensures Quiet(s, [step] + rest) && C.Exec(s, [step] + rest) == C.Exec(C.Do(s, step), rest)
  {
    assert ([step] + rest)[1..] == rest;
  }

  lemma {:induction false} QuietConcat(s: C.State, a: seq<C.Step>, b: seq<C.Step>)
    requires Quiet(s, a) && Quiet(C.Exec(s, a), b)
    ensures Quiet(s, a + b) && C.Exec(s, a + b) == C.Exec(C.Exec(s, a), b)
    decreases |a|
  {
    if a == [] {
      assert a + b == b;
    } else {
      QuietConcat(C.Do(s, a[0]), a[1..], b);
      assert (a + b)[1..] == a[1..] + b;
    }
  }

  /** The rest of a read can be handled and acknowledged. */
  lemma {:induction false} FinishWork(s: C.State, n: nat) returns (steps: seq<C.Step>, n': nat)
    requires C.Inv(s, n)
    ensures Quiet(s, steps) && C.Inv(C.Exec(s, steps), n')
    ensures var t := C.Exec(s, steps);
            t.work == [] && t.mode == s.mode && t.stream == s.stream && t.delivered == s.delivered &&
            |t.pending| == |s.pending| - |s.work|
    decreases |s.work|, !s.handled
  {
    n' := n;
    steps := [];
    if s.work != [] {
      var step := if s.handled then C.Ack(true) else C.Handle;
      assert s.work[0] == C.Acked(s);
      var m := C.StepKeepsInv(s, n, step);
      var rest;
      rest, n' := FinishWork(C.Do(s, step), m);
      QuietCons(s, step, rest);
      steps := [step] + rest;
    }
  }

  /** Recovery can be completed. */
  lemma {:induction false} FinishRecovery(s: C.State, n: nat) returns (steps: seq<C.Step>, n': nat)
    requires C.Inv(s, n) && s.work == [] && s.mode == C.Recovering(false)
    ensures Quiet(s, steps) && C.Inv(C.Exec(s, steps), n')
    ensures var t := C.Exec(s, steps);
            t.work == [] && t.mode.Reading? && t.stream == s.stream && t.delivered == s.delivered
    decreases |s.pending|
  {
    var m := C.StepKeepsInv(s, n, C.ReadPending);
    var t := C.Do(s, C.ReadPending);
    var handle, m' := FinishWork(t, m);
    var u := C.Exec(t, handle);
    QuietCons(s, C.ReadPending, handle);
    steps, n' := [C.ReadPending] + handle, m';
    if u.mode == C.Recovering(true) {
      n' := C.StepKeepsInv(u, m', C.EndRecovery);
      assert C.Runs(C.Do(u, C.EndRecovery), []);
      QuietCons(u, C.EndRecovery, []);
      QuietConcat(s, steps, [C.EndRecovery] + []);
      steps := steps + ([C.EndRecovery] + []);
    } else if u.mode == C.Recovering(false) {
      var rest;
      rest, n' := FinishRecovery(u, m');
      QuietConcat(s, steps, rest);
      steps := steps + rest;
    }
  }

  /** The undelivered entries can be read one by one. */
  lemma {:induction false} ReadRest(s: C.State, n: nat) returns (steps: seq<C.Step>)
    requires C.Inv(s, n) && s.work == [] && s.mode.Reading?
    ensures Quiet(s, steps)
    ensures var t := C.Exec(s, steps); t.delivered == |t.stream| && t.pending == []
    decreases |s.stream| - s.delivered
  {
    steps := [];
    if s.delivered < |s.stream| {
      var m := C.StepKeepsInv(s, n, C.ReadNew(1));
      var t := C.Do(s, C.ReadNew(1));
      var handle, m' := FinishWork(t, m);
      var u := C.Exec(t, handle);
      var rest := ReadRest(u, m');
      QuietConcat(t, handle, rest);
      QuietCons(s, C.ReadNew(1), handle + rest);
      steps := [C.ReadNew(1)] + (handle + rest);
    }
  }

  lemma DrainConsumer(s: C.State, n: nat) returns (steps: seq<C.Step>)
    requires C.Inv(s, n)
    ensures Quiet(s, steps)
    ensures var t := C.Exec(s, steps); t.delivered == |t.stream| && t.pending == []
  {
    var m := C.StepKeepsInv(s, n, C.Crash);
    var t := C.Do(s, C.Crash);
    var recover, m' := FinishRecovery(t, m);
    var rest := ReadRest(C.Exec(t, recover), m');
    QuietConcat(t, recover, rest);
    QuietCons(s, C.Crash, recover + rest);
    steps := [C.Crash] + (recover + rest);
  }

  // ----- Both inside the whole system -----

  ghost predicate NoChange(steps: seq<E.Step>) {
    forall i :: 0 <= i < |steps| ==> !steps[i].Manage?
  }

  lemma {:induction false} LiftRelay(s: E.System, relay: seq<O.Step>) returns (steps: seq<E.Step>)
    requires O.Runs(E.OutboxOf(s), relay) && NoCommit(relay)
    ensures E.CleanRuns(s, steps) && NoChange(steps)
    ensures var t := E.Exec(s, steps); E.OutboxOf(t) == O.Exec(E.OutboxOf(s), relay) && t.db == s.db
    decreases |relay|
  {
    steps := [];
    if relay != [] {
      var step := E.Relay(relay[0]);
      var t := E.Do(s, step);
      assert O.Do(E.OutboxOf(s), relay[0]).rows == s.db.rows;
      assert E.OutboxOf(t) == O.Do(E.OutboxOf(s), relay[0]);
      var rest := LiftRelay(t, relay[1..]);
      steps := [step] + rest;
      assert steps[1..] == rest;
    }
  }

  lemma {:induction false} LiftConsume(s: E.System, consume: seq<C.Step>) returns (steps: seq<E.Step>)
    requires Quiet(s.consumer, consume)
    ensures E.CleanRuns(s, steps) && NoChange(steps)
    ensures E.Exec(s, steps) == s.(consumer := C.Exec(s.consumer, consume))
    decreases |consume|
  {
    steps := [];
    if consume != [] {
      var step := E.Consume(consume[0]);
      var rest := LiftConsume(E.Do(s, step), consume[1..]);
      steps := [step] + rest;
      assert steps[1..] == rest;
    }
  }

  lemma {:induction false} SystemConcat(s: E.System, a: seq<E.Step>, b: seq<E.Step>)
    requires E.CleanRuns(s, a) && E.CleanRuns(E.Exec(s, a), b)
    ensures E.CleanRuns(s, a + b) && E.Exec(s, a + b) == E.Exec(E.Exec(s, a), b)
    decreases |a|
  {
    if a == [] {
      assert a + b == b;
    } else {
      SystemConcat(E.Do(s, a[0]), a[1..], b);
      assert (a + b)[1..] == a[1..] + b;
    }
  }

  lemma {:induction false} QuietKeepsStream(s: C.State, steps: seq<C.Step>)
    requires Quiet(s, steps)
    ensures C.Exec(s, steps).stream == s.stream
    decreases |steps|
  {
    if steps != [] {
      QuietKeepsStream(C.Do(s, steps[0]), steps[1..]);
    }
  }

  lemma CanDrain(s: E.System, n: nat, limit: nat) returns (steps: seq<E.Step>)
    requires E.Inv(s, n) && limit >= 1
    ensures E.CleanRuns(s, steps) && NoChange(steps) && E.Drained(E.Exec(s, steps)) && E.Exec(s, steps).db == s.db
  {
    var o := E.OutboxOf(s);
    O.StepKeepsInv(o, O.Crash);
    var relay := DrainOutbox(O.Do(o, O.Crash), limit);
    assert ([O.Crash] + relay)[1..] == relay;
    var first := LiftRelay(s, [O.Crash] + relay);
    var t := E.Exec(s, first);
    var m := E.RunKeepsInv(s, n, first);
    var consume := DrainConsumer(t.consumer, m);
    QuietKeepsStream(t.consumer, consume);
    var second := LiftConsume(t, consume);
    SystemConcat(s, first, second);
    steps := first + second;
  }

  /**
   Whatever has happened in a clean run, the relay (with any batch size of at least one) and the consumer can go on so
   that the replica's names and addresses become those of the table as it stands.
   */
  lemma ReplicaCanConverge(past: seq<E.Step>, limit: nat) returns (future: seq<E.Step>)
    requires E.CleanRuns(E.INITIAL, past) && limit >= 1
    ensures NoChange(future) && E.CleanRuns(E.INITIAL, past + future)
    ensures var s := E.Exec(E.INITIAL, past + future);
            s.db == E.Exec(E.INITIAL, past).db && Columns(s.consumer.replica) == TableColumns(s.db.servers)
  {
    var n := E.RunKeepsInv(E.INITIAL, 0, past);
    future := CanDrain(E.Exec(E.INITIAL, past), n, limit);
    SystemConcat(E.INITIAL, past, future);
    E.ReplicaAgreesWithTable(past + future);
  }
}
