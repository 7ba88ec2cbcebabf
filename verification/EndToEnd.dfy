/**
 The whole path of a server's name and address: transactions of the management service, the relay and the
 reporting consumer, interleaved step by step over one outbox and one stream.
 */
module EndToEnd {
  import opened ServerEvents
  import opened Replica
  import T = ServerTable
  import O = Outbox
  import C = Consumer

  datatype System = System(db: T.Db, processed: set<nat>, phase: O.Phase, consumer: C.State)

  datatype Step = Manage(tx: T.Tx) | Relay(relay: O.Step) | Consume(consume: C.Step)

  function OutboxOf(s: System): O.State {
    O.State(s.db.rows, s.processed, s.phase, s.consumer.stream)
  }

  ghost predicate Enabled(s: System, step: Step) {
    match step
    case Manage(tx) => T.Enabled(s.db, tx)
    case Relay(relay) => !relay.Commit? && O.Enabled(OutboxOf(s), relay)
    case Consume(consume) => !consume.Append? && C.Enabled(s.consumer, consume)
  }

  ghost function Do(s: System, step: Step): System
    requires Enabled(s, step)
  {
    match step
    case Manage(tx) => s.(db := T.Do(s.db, tx))
    case Relay(relay) =>
      var o := O.Do(OutboxOf(s), relay);
      s.(processed := o.processed, phase := o.phase, consumer := s.consumer.(stream := o.stream))
    case Consume(consume) => s.(consumer := C.Do(s.consumer, consume))
  }

  ghost predicate Clean(s: System, step: Step) {
    step.Consume? ==> C.Clean(s.consumer, step.consume)
  }

  const INITIAL := System(T.EMPTY, {}, O.Idle, C.START)

  /** A run in which the consumer's steps are clean. */
  ghost predicate CleanRuns(s: System, steps: seq<Step>)
    decreases |steps|
  {
    steps == [] || (Enabled(s, steps[0]) && Clean(s, steps[0]) && CleanRuns(Do(s, steps[0]), steps[1..]))
  }

  ghost function Exec(s: System, steps: seq<Step>): System
    requires CleanRuns(s, steps)
    decreases |steps|
  {
    if steps == [] then s else Exec(Do(s, steps[0]), steps[1..])
  }

  ghost predicate Inv(s: System, n: nat) {
    T.Inv(s.db) && O.Inv(OutboxOf(s)) && C.Inv(s.consumer, n)
  }

  /** A transaction of the service is a commit step of the outbox. */
  lemma ManageKeepsInv(s: System, n: nat, tx: T.Tx)
    requires Inv(s, n) && T.Enabled(s.db, tx)
    ensures Inv(Do(s, Manage(tx)), n)
  {
    T.TxKeepsInv(s.db, tx);
    var added := T.Added(s.db, tx);
    O.CommitKeepsInv(OutboxOf(s), added);
    assert OutboxOf(Do(s, Manage(tx))) == O.Do(OutboxOf(s), O.Commit(added));
  }

  /** A relay step leaves the stream alone or appends one entry. */
  lemma RelayKeepsInv(s: System, n: nat, relay: O.Step)
    requires Inv(s, n) && Enabled(s, Relay(relay))
    ensures Inv(Do(s, Relay(relay)), n)
  {
    var o, t := OutboxOf(s), Do(s, Relay(relay));
    O.StepKeepsInv(o, relay);
    assert OutboxOf(t) == O.Do(o, relay);
    if t.consumer.stream != s.consumer.stream {
      var e := t.consumer.stream[|s.consumer.stream|];
      assert t.consumer == C.Do(s.consumer, C.Append(e));
      assert t.consumer.stream[..n] == s.consumer.stream[..n];
    }
  }

  lemma StepKeepsInv(s: System, n: nat, step: Step) returns (n': nat)
    requires Inv(s, n) && Enabled(s, step) && Clean(s, step)
    ensures n <= n' && Inv(Do(s, step), n')
  {
    n' := n;
    match step
    case Manage(tx) => ManageKeepsInv(s, n, tx);
    case Relay(relay) => RelayKeepsInv(s, n, relay);
    case Consume(consume) =>
      n' := C.StepKeepsInv(s.consumer, n, consume);
      assert Do(s, step).consumer.stream == s.consumer.stream;
  }

  lemma {:induction false} RunKeepsInv(s: System, n: nat, steps: seq<Step>) returns (n': nat)
    requires Inv(s, n) && CleanRuns(s, steps)
    ensures n <= n' && Inv(Exec(s, steps), n')
    decreases |steps|
  {
    n' := n;
    if steps != [] {
      var m := StepKeepsInv(s, n, steps[0]);
      n' := RunKeepsInv(Do(s, steps[0]), m, steps[1..]);
    }
  }

  /** Everything committed is relayed, delivered and acknowledged. */
  ghost predicate Drained(s: System) {
    && (forall n: nat :: n < |s.db.rows| ==> n in s.processed)
    && s.consumer.delivered == |s.consumer.stream| && s.consumer.pending == []
  }

  lemma SameConfigSameColumns(t: Table, u: Table)
    requires T.SameConfig(t, u)
    ensures TableColumns(t) == TableColumns(u)
  {
    forall k | k in t ensures (t[k].name, t[k].ipv4) == (u[k].name, u[k].ipv4) {
      assert T.Config(t[k]) == T.Config(u[k]);
    }
  }

  /**
   End to end: in every clean run of services, relay and consumer, with rollbacks, partly applied pipelines, lost marks
   and consumer crashes anywhere, the replica's names and addresses are those of the servers table whenever the
   outbox, the stream and the pending list are drained.
   */
  lemma ReplicaAgreesWithTable(steps: seq<Step>)
    requires CleanRuns(INITIAL, steps) && Drained(Exec(INITIAL, steps))
    ensures var s := Exec(INITIAL, steps); Columns(s.consumer.replica) == TableColumns(s.db.servers)
  {
    var n := RunKeepsInv(INITIAL, 0, steps);
    var s := Exec(INITIAL, steps);
    O.DrainedStreamRebuilds(OutboxOf(s));
    C.DrainedReplica(s.consumer, n);
    SameConfigSameColumns(s.db.servers, Fold(Events(s.db.rows)));
  }
}
