/**
 The server row of the management service, the three outbox event kinds about it, and the
 meaning of an event sequence: a table built by upserting and deleting rows one event at a time.
 */
module ServerEvents {
  import opened Collections

  // UUIDs are modelled as fresh numbers.
  type ServerId = nat

  datatype Status = ONLINE | OFFLINE | UNKNOWN

  datatype Server = Server(
    id: ServerId, name: string, ipv4: string, status: Status, healthCheckMethod: string,
    sshPort: int, sshUser: string, sshKey: string, agentEndpoint: string, consecutiveFailures: int)

  datatype Event = ServerCreated(row: Server) | ServerUpdated(row: Server) | ServerDeleted(id: ServerId) {
    function Key(): ServerId {
      if ServerDeleted? then id else row.id
    }
  }

  type Table = map<ServerId, Server>

  /** The effect of one event on a table keyed by server id. */
  function Apply(t: Table, e: Event): Table {
    if e.ServerDeleted? then t - {e.id} else t[e.row.id := e.row]
  }

  /** The table that a sequence of events builds from nothing. */
  function Fold(es: seq<Event>): Table {
    if es == [] then map[] else Apply(Fold(es[..|es| - 1]), es[|es| - 1])
  }

  /** The last event about server `k`. */
  function LastOf(es: seq<Event>, k: ServerId): Option<Event> {
    if es == [] then None
    else if es[|es| - 1].Key() == k then Some(es[|es| - 1])
    else LastOf(es[..|es| - 1], k)
  }

  /** Folding is last-writer-wins per server. */
  lemma {:induction false} FoldIsLastWriter(es: seq<Event>, k: ServerId)
    ensures k in Fold(es) <==> LastOf(es, k).Some? && !LastOf(es, k).value.ServerDeleted?
    ensures k in Fold(es) ==> Fold(es)[k] == LastOf(es, k).value.row
  {
    if es != [] {
      FoldIsLastWriter(es[..|es| - 1], k);
    }
  }

  /** Two sequences that end every server's history with the same event build the same table. */
  lemma SameLastSameFold(es: seq<Event>, fs: seq<Event>)
    requires forall k :: LastOf(es, k) == LastOf(fs, k)
    ensures Fold(es) == Fold(fs)
  {
    forall k: ServerId
      ensures k in Fold(es) <==> k in Fold(fs)
      ensures k in Fold(es) ==> Fold(es)[k] == Fold(fs)[k]
    {
      FoldIsLastWriter(es, k);
      FoldIsLastWriter(fs, k);
    }
  }

  lemma {:induction false} LastOfConcat(es: seq<Event>, fs: seq<Event>, k: ServerId)
    ensures LastOf(es + fs, k) == if LastOf(fs, k).Some? then LastOf(fs, k) else LastOf(es, k)
  {
    if fs == [] {
      assert es + fs == es;
    } else {
      assert (es + fs)[..|es + fs| - 1] == es + fs[..|fs| - 1];
      LastOfConcat(es, fs[..|fs| - 1], k);
    }
  }

  /** The last event about `k` is the one at position `n` when no later event is about `k`. */
  lemma {:induction false} LastOfAt(es: seq<Event>, n: nat)
    requires n < |es|
    requires forall m :: n < m < |es| ==> es[m].Key() != es[n].Key()
    ensures LastOf(es, es[n].Key()) == Some(es[n])
  {
    if n < |es| - 1 {
      LastOfAt(es[..|es| - 1], n);
    }
  }

  /** A server without events has no last event. */
  lemma {:induction false} LastOfNone(es: seq<Event>, k: ServerId)
    requires forall n :: 0 <= n < |es| ==> es[n].Key() != k
    ensures LastOf(es, k) == None
  {
    if es != [] {
      LastOfNone(es[..|es| - 1], k);
    }
  }

  lemma LastOfAppend(es: seq<Event>, e: Event, k: ServerId)
    ensures LastOf(es + [e], k) == if k == e.Key() then Some(e) else LastOf(es, k)
  {
    assert (es + [e])[..|es|] == es;
  }

  lemma FoldAppend(es: seq<Event>, e: Event)
    ensures Fold(es + [e]) == Apply(Fold(es), e)
  {
    assert (es + [e])[..|es|] == es;
  }

  /** The position of the last event about `k`. */
  lemma {:induction false} LastIndex(es: seq<Event>, k: ServerId) returns (n: nat)
    requires exists n :: 0 <= n < |es| && es[n].Key() == k
    ensures n < |es| && es[n].Key() == k
    ensures forall m :: n < m < |es| ==> es[m].Key() != k
  {
    n := |es| - 1;
    while es[n].Key() != k
      invariant n < |es|
      invariant forall m :: n < m < |es| ==> es[m].Key() != k
      decreases n
    {
      n := n - 1;
    }
  }

  // ----- Outbox rows -----

  /** A row of the outbox table; its id is its position in commit order. */
  datatype Row = Row(event: Event, createdAt: int)

  function Events(rows: seq<Row>): (es: seq<Event>)
    ensures |es| == |rows|
    ensures forall n :: 0 <= n < |rows| ==> es[n] == rows[n].event
  {
    seq(|rows|, n requires 0 <= n < |rows| => rows[n].event)
  }

  function EventsAt(rows: seq<Row>, ids: seq<nat>): (es: seq<Event>)
    requires forall p :: 0 <= p < |ids| ==> ids[p] < |rows|
    ensures |es| == |ids|
    ensures forall p :: 0 <= p < |ids| ==> es[p] == rows[ids[p]].event
  {
    seq(|ids|, p requires 0 <= p < |ids| => rows[ids[p]].event)
  }

  function KeyAt(rows: seq<Row>, n: nat): ServerId
    requires n < |rows|
  {
    rows[n].event.Key()
  }

  /** Two rows about one server were created in commit order: the row lock is taken before the event. */
  ghost predicate Ordered(rows: seq<Row>) {
    forall m, n :: 0 <= m < n < |rows| && KeyAt(rows, m) == KeyAt(rows, n) ==> rows[m].createdAt < rows[n].createdAt
  }
}
