/**
 The transactional outbox and its relay.

 A committed outbox row is immutable except for its `is_processed` column, so the table is a sequence
 of rows in commit order (a row's id is its position) plus the set of ids whose column is true.
 One relay fetches unprocessed rows by creation time, appends their events to the stream one pipeline
 command at a time, any of which may fail, and marks the batch afterwards unless something went wrong.
 */
module Outbox {
  import opened Collections
  import opened ServerEvents

  /** Where the relay stands inside one tick. */
  datatype Phase =
    | Idle
    | Publishing(batch: seq<nat>, next: nat, clean: bool)
    | Marking(batch: seq<nat>)

  datatype State = State(rows: seq<Row>, processed: set<nat>, phase: Phase, stream: seq<Event>)

  datatype Step =
    | Commit(added: seq<Row>)
    | Fetch(limit: nat, fetched: seq<nat>)
    | PublishOne(applied: bool)
    | PublishEnd(execFails: bool)
    | Mark(markFails: bool)
    | Crash

  /** `ids` lists unprocessed rows once each, by creation time, ties in any order. */
  ghost predicate SortedUnprocessed(rows: seq<Row>, processed: set<nat>, ids: seq<nat>) {
    && (forall p :: 0 <= p < |ids| ==> ids[p] < |rows| && ids[p] !in processed)
    && (forall p, q :: 0 <= p < q < |ids| ==> ids[p] != ids[q] && rows[ids[p]].createdAt <= rows[ids[q]].createdAt)
  }

  /** What `ORDER BY created_at ASC LIMIT limit` over the unprocessed rows may return. */
  ghost predicate Fetchable(rows: seq<Row>, processed: set<nat>, limit: nat, ids: seq<nat>) {
    && |ids| <= limit
    && SortedUnprocessed(rows, processed, ids)
    && forall n: nat :: n < |rows| && n !in processed && n !in ids ==>
         |ids| == limit && forall p :: 0 <= p < |ids| ==> rows[ids[p]].createdAt <= rows[n].createdAt
  }

  ghost predicate Enabled(s: State, step: Step) {
    match step
    case Commit(added) => Ordered(s.rows + added)
    case Fetch(limit, fetched) => s.phase.Idle? && Fetchable(s.rows, s.processed, limit, fetched) && fetched != []
    case PublishOne(_) =>
      s.phase.Publishing? && s.phase.next < |s.phase.batch| && s.phase.batch[s.phase.next] < |s.rows|
    case PublishEnd(execFails) =>
      s.phase.Publishing? && s.phase.next == |s.phase.batch| && (execFails || s.phase.clean)
    case Mark(_) => s.phase.Marking?
    case Crash => true
  }

  ghost function Do(s: State, step: Step): State
    requires Enabled(s, step)
  {
    match step
    case Commit(added) => s.(rows := s.rows + added)
    case Fetch(_, fetched) => s.(phase := Publishing(fetched, 0, true))
    case PublishOne(applied) =>
      var e := s.rows[s.phase.batch[s.phase.next]].event;
      s.(stream := if applied then s.stream + [e] else s.stream,
         phase := Publishing(s.phase.batch, s.phase.next + 1, s.phase.clean && applied))
    case PublishEnd(execFails) => s.(phase := if execFails then Idle else Marking(s.phase.batch))
    case Mark(markFails) =>
      s.(processed := if markFails then s.processed else s.processed + (set id | id in s.phase.batch),
         phase := Idle)
    case Crash => s.(phase := Idle)
  }

  // ----- The invariant -----

  /** Within a server, rows are marked processed in commit order. */
  ghost predicate DownClosed(rows: seq<Row>, processed: set<nat>) {
    forall m, n :: 0 <= m < n < |rows| && n in processed && KeyAt(rows, m) == KeyAt(rows, n) ==> m in processed
  }

  /** Row `n` carries the newest event of its server. */
  ghost predicate Newest(rows: seq<Row>, n: nat)
    requires n < |rows|
  {
    forall m :: n < m < |rows| ==> KeyAt(rows, m) != KeyAt(rows, n)
  }

  /** The stream ends the history of row `n`'s server with row `n`'s event. */
  ghost predicate EndsWith(rows: seq<Row>, stream: seq<Event>, n: nat)
    requires n < |rows|
  {
    LastOf(stream, KeyAt(rows, n)) == Some(rows[n].event)
  }

  /** Once a server's newest row is processed, the stream ends that server's history with it. */
  ghost predicate Settled(rows: seq<Row>, processed: set<nat>, stream: seq<Event>) {
    forall n: nat :: n < |rows| && n in processed && Newest(rows, n) ==> EndsWith(rows, stream, n)
  }

  /** A batch of unprocessed rows keeps each server's rows in commit order and skips none that precede one it holds. */
  ghost predicate BatchOk(rows: seq<Row>, processed: set<nat>, batch: seq<nat>) {
    && (forall p :: 0 <= p < |batch| ==> batch[p] < |rows| && batch[p] !in processed)
    && (forall p, q :: 0 <= p < q < |batch| && KeyAt(rows, batch[p]) == KeyAt(rows, batch[q]) ==> batch[p] < batch[q])
    && forall p, m: nat :: 0 <= p < |batch| && m < batch[p] && KeyAt(rows, m) == KeyAt(rows, batch[p]) ==>
         m in processed || m in batch
  }

  /** Row `batch[p]` is the last of its server among the first `next` of the batch. */
  ghost predicate LastIn(rows: seq<Row>, batch: seq<nat>, next: nat, p: nat)
    requires p < next <= |batch| && forall q :: 0 <= q < |batch| ==> batch[q] < |rows|
  {
    forall q :: p < q < next ==> KeyAt(rows, batch[q]) != KeyAt(rows, batch[p])
  }

  /** The first `next` events of the batch are in the stream, with nothing of their servers after them. */
  ghost predicate Published(rows: seq<Row>, batch: seq<nat>, next: nat, stream: seq<Event>)
    requires next <= |batch| && forall q :: 0 <= q < |batch| ==> batch[q] < |rows|
  {
    forall p: nat :: p < next && LastIn(rows, batch, next, p) ==> EndsWith(rows, stream, batch[p])
  }

  ghost predicate PhaseOk(s: State) {
    match s.phase
    case Idle => true
    case Publishing(batch, next, clean) =>
      BatchOk(s.rows, s.processed, batch) && next <= |batch| && (clean ==> Published(s.rows, batch, next, s.stream))
    case Marking(batch) =>
      BatchOk(s.rows, s.processed, batch) && Published(s.rows, batch, |batch|, s.stream)
  }

  ghost predicate HasRow(rows: seq<Row>, k: ServerId) {
    exists n: nat :: n < |rows| && KeyAt(rows, n) == k
  }

  /** Every streamed event is about a server that has a row. */
  ghost predicate KnownKeys(rows: seq<Row>, stream: seq<Event>) {
    forall i :: 0 <= i < |stream| ==> HasRow(rows, stream[i].Key())
  }

  ghost predicate Inv(s: State) {
    && Ordered(s.rows)
    && (forall n :: n in s.processed ==> n < |s.rows|)
    && DownClosed(s.rows, s.processed)
    && Settled(s.rows, s.processed, s.stream)
    && KnownKeys(s.rows, s.stream)
    && PhaseOk(s)
  }

  lemma FetchedBatchOk(rows: seq<Row>, processed: set<nat>, limit: nat, batch: seq<nat>)
    requires Ordered(rows) && Fetchable(rows, processed, limit, batch)
    ensures BatchOk(rows, processed, batch)
  {
    forall p, q | 0 <= p < q < |batch| && KeyAt(rows, batch[p]) == KeyAt(rows, batch[q]) ensures batch[p] < batch[q] {
      assert rows[batch[p]].createdAt <= rows[batch[q]].createdAt;
    }
    forall p, m: nat | 0 <= p < |batch| && m < batch[p] && KeyAt(rows, m) == KeyAt(rows, batch[p])
      ensures m in processed || m in batch
    {
      assert rows[m].createdAt < rows[batch[p]].createdAt;
    }
  }

  lemma CommitKeepsInv(s: State, added: seq<Row>)
    requires Inv(s) && Ordered(s.rows + added)
    ensures Inv(s.(rows := s.rows + added))
  {
    var rows := s.rows + added;
    assert forall n :: 0 <= n < |s.rows| ==> KeyAt(rows, n) == KeyAt(s.rows, n);
    forall n: nat | n < |rows| && n in s.processed && Newest(rows, n) ensures EndsWith(rows, s.stream, n) {
      assert Newest(s.rows, n);
      assert EndsWith(s.rows, s.stream, n);
    }
    forall i | 0 <= i < |s.stream| ensures HasRow(rows, s.stream[i].Key()) {
      assert HasRow(s.rows, s.stream[i].Key());
      var n: nat :| n < |s.rows| && KeyAt(s.rows, n) == s.stream[i].Key();
      assert KeyAt(rows, n) == s.stream[i].Key();
    }
    CommitKeepsPhase(s, added);
  }

  lemma CommitKeepsPhase(s: State, added: seq<Row>)
    requires PhaseOk(s)
    ensures PhaseOk(s.(rows := s.rows + added))
  {
    var rows := s.rows + added;
    if !s.phase.Idle? {
      var batch := s.phase.batch;
      var next := if s.phase.Marking? then |batch| else s.phase.next;
      assert BatchOk(rows, s.processed, batch);
      if s.phase.Marking? || s.phase.clean {
        forall p: nat | p < next && LastIn(rows, batch, next, p) ensures EndsWith(rows, s.stream, batch[p]) {
          assert LastIn(s.rows, batch, next, p);
          assert EndsWith(s.rows, s.stream, batch[p]);
        }
      }
    }
  }

  /** Appending the event of an unprocessed row touches no settled server. */
  lemma AppendKeepsSettled(s: State, x: nat)
    requires Inv(s) && x < |s.rows| && x !in s.processed
    ensures Settled(s.rows, s.processed, s.stream + [s.rows[x].event])
    ensures KnownKeys(s.rows, s.stream + [s.rows[x].event])
  {
    var e := s.rows[x].event;
    forall n: nat | n < |s.rows| && n in s.processed && Newest(s.rows, n)
      ensures EndsWith(s.rows, s.stream + [e], n)
    {
      assert EndsWith(s.rows, s.stream, n);
      LastOfAppend(s.stream, e, KeyAt(s.rows, n));
    }
    assert KeyAt(s.rows, x) == e.Key();
    assert HasRow(s.rows, e.Key());
  }

  lemma AppendKeepsPublished(rows: seq<Row>, batch: seq<nat>, next: nat, stream: seq<Event>)
    requires next < |batch| && forall q :: 0 <= q < |batch| ==> batch[q] < |rows|
    requires Published(rows, batch, next, stream)
    ensures Published(rows, batch, next + 1, stream + [rows[batch[next]].event])
  {
    var e := rows[batch[next]].event;
    forall p: nat | p < next + 1 && LastIn(rows, batch, next + 1, p)
      ensures EndsWith(rows, stream + [e], batch[p])
    {
      LastOfAppend(stream, e, KeyAt(rows, batch[p]));
      if p < next {
        assert LastIn(rows, batch, next, p);
        assert EndsWith(rows, stream, batch[p]);
      }
    }
  }

  lemma PublishKeepsInv(s: State, applied: bool)
    requires Inv(s) && Enabled(s, PublishOne(applied))
    ensures Inv(Do(s, PublishOne(applied)))
  {
    if applied {
      AppendKeepsSettled(s, s.phase.batch[s.phase.next]);
      if s.phase.clean {
        AppendKeepsPublished(s.rows, s.phase.batch, s.phase.next, s.stream);
      }
    }
  }

  lemma MarkKeepsSettled(s: State, batch: seq<nat>, processed: set<nat>)
    requires Inv(s) && s.phase == Marking(batch) && processed == s.processed + set id | id in batch
    ensures Settled(s.rows, processed, s.stream)
  {
    forall n: nat | n < |s.rows| && n in processed && Newest(s.rows, n) ensures EndsWith(s.rows, s.stream, n) {
      if n !in s.processed {
        var p: nat :| p < |batch| && batch[p] == n;
        assert LastIn(s.rows, batch, |batch|, p);
      }
    }
  }

  lemma MarkKeepsDownClosed(rows: seq<Row>, before: set<nat>, batch: seq<nat>, processed: set<nat>)
    requires DownClosed(rows, before) && BatchOk(rows, before, batch) && processed == before + set id | id in batch
    ensures DownClosed(rows, processed)
  {
    forall m, n | 0 <= m < n < |rows| && n in processed && KeyAt(rows, m) == KeyAt(rows, n) ensures m in processed {
      if n !in before {
        var p: nat :| p < |batch| && batch[p] == n;
        assert m in before || m in batch;
      }
    }
  }

  lemma MarkKeepsInv(s: State)
    requires Inv(s) && s.phase.Marking?
    ensures Inv(Do(s, Mark(false)))
  {
    var processed := s.processed + set id | id in s.phase.batch;
    MarkKeepsSettled(s, s.phase.batch, processed);
    MarkKeepsDownClosed(s.rows, s.processed, s.phase.batch, processed);
  }

  lemma StepKeepsInv(s: State, step: Step)
    requires Inv(s) && Enabled(s, step)
    ensures Inv(Do(s, step))
  {
    match step
    case Commit(added) => CommitKeepsInv(s, added);
    case Fetch(limit, fetched) => FetchedBatchOk(s.rows, s.processed, limit, fetched);
    case PublishOne(applied) => PublishKeepsInv(s, applied);
    case PublishEnd(_) =>
    case Mark(markFails) => if !markFails { MarkKeepsInv(s); }
    case Crash =>
  }

  // ----- Replay safety -----

  /** `ids` is the complete list of unprocessed rows by creation time. */
  ghost predicate Backlog(s: State, ids: seq<nat>) {
    && SortedUnprocessed(s.rows, s.processed, ids)
    && forall n: nat :: n < |s.rows| && n !in s.processed ==> n in ids
  }

  /** The newest unprocessed row of a server is the last of that server in the backlog. */
  lemma BacklogEnds(s: State, ids: seq<nat>, n: nat)
    requires Ordered(s.rows) && Backlog(s, ids) && n < |s.rows| && n !in s.processed && Newest(s.rows, n)
    ensures LastOf(EventsAt(s.rows, ids), KeyAt(s.rows, n)) == Some(s.rows[n].event)
  {
    var es := EventsAt(s.rows, ids);
    var p :| 0 <= p < |ids| && ids[p] == n;
    forall q | p < q < |ids| ensures es[q].Key() != KeyAt(s.rows, n) {
      assert s.rows[n].createdAt <= s.rows[ids[q]].createdAt;
      assert es[q].Key() == KeyAt(s.rows, ids[q]);
    }
    LastOfAt(es, p);
  }

  lemma NewestIsLast(s: State, ids: seq<nat>, n: nat)
    requires Inv(s) && Backlog(s, ids) && n < |s.rows| && Newest(s.rows, n)
    ensures EndsWith(s.rows, s.stream + EventsAt(s.rows, ids), n)
  {
    var k := KeyAt(s.rows, n);
    var es := EventsAt(s.rows, ids);
    LastOfConcat(s.stream, es, k);
    if n in s.processed {
      forall p | 0 <= p < |ids| ensures es[p].Key() != k {
        assert es[p].Key() == KeyAt(s.rows, ids[p]) && ids[p] !in s.processed;
      }
      LastOfNone(es, k);
      assert EndsWith(s.rows, s.stream, n);
    } else {
      BacklogEnds(s, ids, n);
    }
  }

  lemma SameHistoryEnd(s: State, ids: seq<nat>, k: ServerId)
    requires Inv(s) && Backlog(s, ids)
    ensures LastOf(s.stream + EventsAt(s.rows, ids), k) == LastOf(Events(s.rows), k)
  {
    var all := Events(s.rows);
    assert forall n :: 0 <= n < |all| ==> all[n].Key() == KeyAt(s.rows, n);
    if HasRow(s.rows, k) {
      var n := LastIndex(all, k);
      LastOfAt(all, n);
      NewestIsLast(s, ids, n);
    } else {
      LastOfNone(all, k);
      assert forall p :: 0 <= p < |ids| ==> EventsAt(s.rows, ids)[p].Key() == KeyAt(s.rows, ids[p]);
      LastOfNone(s.stream + EventsAt(s.rows, ids), k);
    }
  }

  /**
   Whatever was published twice, in part or not at all, and wherever marking was lost: the stream followed by
   the unprocessed events in creation order builds the same table as all committed events in commit order.
   */
  lemma ReplaySafe(s: State, ids: seq<nat>)
    requires Inv(s) && Backlog(s, ids)
    ensures Fold(s.stream + EventsAt(s.rows, ids)) == Fold(Events(s.rows))
  {
    forall k: ServerId
      ensures LastOf(s.stream + EventsAt(s.rows, ids), k) == LastOf(Events(s.rows), k)
    {
      SameHistoryEnd(s, ids, k);
    }
    SameLastSameFold(s.stream + EventsAt(s.rows, ids), Events(s.rows));
  }

  /** With nothing left unprocessed the stream alone rebuilds the table, duplicates and all. */
  lemma DrainedStreamRebuilds(s: State)
    requires Inv(s) && forall n: nat :: n < |s.rows| ==> n in s.processed
    ensures Fold(s.stream) == Fold(Events(s.rows))
  {
    ReplaySafe(s, []);
    assert s.stream + EventsAt(s.rows, []) == s.stream;
  }

  const INITIAL := State([], {}, Idle, [])

  /** A run: every step is enabled where it is taken. */
  ghost predicate Runs(s: State, steps: seq<Step>)
    decreases |steps|
  {
    steps == [] || (Enabled(s, steps[0]) && Runs(Do(s, steps[0]), steps[1..]))
  }

  ghost function Exec(s: State, steps: seq<Step>): State
    requires Runs(s, steps)
    decreases |steps|
  {
    if steps == [] then s else Exec(Do(s, steps[0]), steps[1..])
  }

  lemma {:induction false} RunKeepsInv(s: State, steps: seq<Step>)
    requires Inv(s) && Runs(s, steps)
    ensures Inv(Exec(s, steps))
    decreases |steps|
  {
    if steps != [] {
      StepKeepsInv(s, steps[0]);
      RunKeepsInv(Do(s, steps[0]), steps[1..]);
    }
  }

  /** Replay safety of every run from an empty outbox. */
  lemma RelayIsReplaySafe(steps: seq<Step>, ids: seq<nat>)
    requires Runs(INITIAL, steps) && Backlog(Exec(INITIAL, steps), ids)
    ensures var s := Exec(INITIAL, steps); Fold(s.stream + EventsAt(s.rows, ids)) == Fold(Events(s.rows))
  {
    RunKeepsInv(INITIAL, steps);
    ReplaySafe(Exec(INITIAL, steps), ids);
  }

  lemma {:induction false} RunsConcat(s: State, a: seq<Step>, b: seq<Step>)
    requires Runs(s, a) && Runs(Exec(s, a), b)
    ensures Runs(s, a + b) && Exec(s, a + b) == Exec(Exec(s, a), b)
    decreases |a|
  {
    if a == [] {
      assert a + b == b;
    } else {
      RunsConcat(Do(s, a[0]), a[1..], b);
      assert (a + b)[1..] == a[1..] + b;
    }
  }
}
