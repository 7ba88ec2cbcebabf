/**
 The management database: the servers table and the outbox table, changed together by transactions.
 Two facts hold in every committed state of every run: the configuration columns of the table are what the
 committed events say, and names and addresses are trimmed and pairwise distinct.
 */
module ServerTable {
  import opened Collections
  import opened Text
  import opened ServerEvents

  datatype Db = Db(servers: Table, rows: seq<Row>, nextId: ServerId)

  /** A committed transaction. A row's id is assigned by the database when it is inserted. */
  datatype Tx =
    | Insert(list: seq<Server>, times: seq<int>)
    | Update(row: Server, now: int)
    | Delete(id: ServerId, now: int)
    | SetStatus(id: ServerId, status: Status)

  predicate Clash(a: Server, b: Server) {
    a.name == b.name || a.ipv4 == b.ipv4
  }

  /** Another row already has the name or the address: a unique index would be violated. */
  predicate Taken(t: Table, s: Server, except: Option<ServerId>) {
    exists k :: k in t && Some(k) != except && Clash(t[k], s)
  }

  predicate TrimmedRow(s: Server) {
    Trimmed(s.name) && Trimmed(s.ipv4)
  }

  function InsertOne(db: Db, s: Server, now: int): Db {
    var row := s.(id := db.nextId);
    Db(db.servers[row.id := row], db.rows + [Row(ServerCreated(row), now)], db.nextId + 1)
  }

  /** Inserts the rows one after the other, each with its created event. */
  function InsertAll(db: Db, list: seq<Server>, times: seq<int>): Db
    requires |times| == |list|
  {
    if list == [] then db
    else InsertOne(InsertAll(db, list[..|list| - 1], times[..|times| - 1]), list[|list| - 1], times[|times| - 1])
  }

  /** No row clashes with the table or with a row before it. */
  predicate Insertable(db: Db, list: seq<Server>, times: seq<int>)
    requires |times| == |list|
  {
    list == [] ||
    (var front, time := list[..|list| - 1], times[..|times| - 1];
     Insertable(db, front, time) && TrimmedRow(list[|list| - 1]) &&
     !Taken(InsertAll(db, front, time).servers, list[|list| - 1], None))
  }

  /** The clock has moved since the last event about this server. */
  ghost predicate Later(rows: seq<Row>, k: ServerId, now: int) {
    forall n :: 0 <= n < |rows| && KeyAt(rows, n) == k ==> rows[n].createdAt < now
  }

  ghost predicate Enabled(db: Db, tx: Tx) {
    match tx
    case Insert(list, times) => |times| == |list| && Insertable(db, list, times)
    case Update(row, now) =>
      row.id in db.servers && TrimmedRow(row) && !Taken(db.servers, row, Some(row.id)) && Later(db.rows, row.id, now)
    case Delete(id, now) => id in db.servers && Later(db.rows, id, now)
    case SetStatus(id, _) => id in db.servers
  }

  function Do(db: Db, tx: Tx): Db
    requires tx.Insert? ==> |tx.times| == |tx.list|
    requires tx.SetStatus? ==> tx.id in db.servers
  {
    match tx
    case Insert(list, times) => InsertAll(db, list, times)
    case Update(row, now) =>
      db.(servers := db.servers[row.id := row], rows := db.rows + [Row(ServerUpdated(row), now)])
    case Delete(id, now) => db.(servers := db.servers - {id}, rows := db.rows + [Row(ServerDeleted(id), now)])
    case SetStatus(id, status) => db.(servers := db.servers[id := db.servers[id].(status := status)])
  }

  // ----- The invariant -----

  /** All columns of a row but its status. */
  function Config(s: Server): Server {
    s.(status := UNKNOWN)
  }

  ghost predicate SameConfig(t: Table, u: Table) {
    t.Keys == u.Keys && forall k :: k in t ==> Config(t[k]) == Config(u[k])
  }

  ghost predicate Unique(t: Table) {
    && (forall k :: k in t ==> TrimmedRow(t[k]) && t[k].id == k)
    && forall j, k :: j in t && k in t && j != k ==> !Clash(t[j], t[k])
  }

  ghost predicate Inv(db: Db) {
    && SameConfig(db.servers, Fold(Events(db.rows)))
    && Unique(db.servers)
    && Ordered(db.rows)
    && (forall k :: k in db.servers ==> k < db.nextId)
    && (forall n :: 0 <= n < |db.rows| ==> KeyAt(db.rows, n) < db.nextId)
  }

  /** Appending a row about `k` keeps the outbox ordered and folds its event. */
  lemma AppendRow(rows: seq<Row>, row: Row)
    requires Ordered(rows) && Later(rows, row.event.Key(), row.createdAt)
    ensures Ordered(rows + [row])
    ensures Fold(Events(rows + [row])) == Apply(Fold(Events(rows)), row.event)
    ensures forall n :: 0 <= n < |rows| ==> KeyAt(rows + [row], n) == KeyAt(rows, n)
  {
    assert Events(rows + [row]) == Events(rows) + [row.event];
    FoldAppend(Events(rows), row.event);
  }

  /** Storing a row that clashes with no other keeps the table unique. */
  lemma StoreKeepsUnique(t: Table, row: Server)
    requires Unique(t) && TrimmedRow(row) && !Taken(t, row, Some(row.id))
    ensures Unique(t[row.id := row])
  {
    assert forall k :: k in t && k != row.id ==> !Clash(t[k], row);
  }

  /** Storing a row and folding its event keep the configuration columns equal. */
  lemma StoreKeepsConfig(t: Table, u: Table, row: Server)
    requires SameConfig(t, u)
    ensures SameConfig(t[row.id := row], Apply(u, ServerCreated(row)))
    ensures SameConfig(t[row.id := row], Apply(u, ServerUpdated(row)))
  {
  }

  lemma InsertOneKeepsRows(db: Db, row: Server, now: int)
    requires Inv(db) && row.id == db.nextId
    ensures var rows := db.rows + [Row(ServerCreated(row), now)];
            && Ordered(rows) && Fold(Events(rows)) == Apply(Fold(Events(db.rows)), ServerCreated(row))
            && forall n :: 0 <= n < |rows| ==> KeyAt(rows, n) < db.nextId + 1
  {
    AppendRow(db.rows, Row(ServerCreated(row), now));
  }

  lemma InsertOneKeepsInv(db: Db, s: Server, now: int)
    requires Inv(db) && TrimmedRow(s) && !Taken(db.servers, s, None)
    ensures Inv(InsertOne(db, s, now))
  {
    var row := s.(id := db.nextId);
    InsertOneKeepsRows(db, row, now);
    assert forall k :: k in db.servers ==> !Clash(db.servers[k], s);
    StoreKeepsUnique(db.servers, row);
    StoreKeepsConfig(db.servers, Fold(Events(db.rows)), row);
  }

  lemma {:induction false} InsertAllKeepsInv(db: Db, list: seq<Server>, times: seq<int>)
    requires Inv(db) && |times| == |list| && Insertable(db, list, times)
    ensures Inv(InsertAll(db, list, times))
  {
    if list != [] {
      var front, time := list[..|list| - 1], times[..|times| - 1];
      InsertAllKeepsInv(db, front, time);
      InsertOneKeepsInv(InsertAll(db, front, time), list[|list| - 1], times[|times| - 1]);
    }
  }

  lemma UpdateKeepsInv(db: Db, row: Server, now: int)
    requires Inv(db) && Enabled(db, Update(row, now))
    ensures Inv(Do(db, Update(row, now)))
  {
    AppendRow(db.rows, Row(ServerUpdated(row), now));
    StoreKeepsUnique(db.servers, row);
    StoreKeepsConfig(db.servers, Fold(Events(db.rows)), row);
  }

  lemma DeleteKeepsInv(db: Db, id: ServerId, now: int)
    requires Inv(db) && Enabled(db, Delete(id, now))
    ensures Inv(Do(db, Delete(id, now)))
  {
    AppendRow(db.rows, Row(ServerDeleted(id), now));
  }

  lemma TxKeepsInv(db: Db, tx: Tx)
    requires Inv(db) && Enabled(db, tx)
    ensures Inv(Do(db, tx))
  {
    match tx
    case Insert(list, times) => InsertAllKeepsInv(db, list, times);
    case Update(row, now) => UpdateKeepsInv(db, row, now);
    case Delete(id, now) => DeleteKeepsInv(db, id, now);
    case SetStatus(id, status) =>
  }

  /** The rows a transaction adds to the outbox, in commit order. */
  function Added(db: Db, tx: Tx): (added: seq<Row>)
    requires tx.Insert? ==> |tx.times| == |tx.list|
    requires tx.SetStatus? ==> tx.id in db.servers
    ensures Do(db, tx).rows == db.rows + added
  {
    assert tx.Insert? ==> db.rows <= InsertAll(db, tx.list, tx.times).rows by {
      if tx.Insert? {
        InsertAllExtends(db, tx.list, tx.times);
      }
    }
    Do(db, tx).rows[|db.rows|..]
  }

  lemma {:induction false} InsertAllExtends(db: Db, list: seq<Server>, times: seq<int>)
    requires |times| == |list|
    ensures db.rows <= InsertAll(db, list, times).rows
    ensures InsertAll(db, list, times).nextId == db.nextId + |list|
    ensures |InsertAll(db, list, times).rows| == |db.rows| + |list|
  {
    if list != [] {
      InsertAllExtends(db, list[..|list| - 1], times[..|times| - 1]);
    }
  }

  const EMPTY := Db(map[], [], 0)

  ghost predicate Runs(db: Db, txs: seq<Tx>)
    decreases |txs|
  {
    txs == [] || (Enabled(db, txs[0]) && Runs(Do(db, txs[0]), txs[1..]))
  }

  ghost function Exec(db: Db, txs: seq<Tx>): Db
    requires Runs(db, txs)
    decreases |txs|
  {
    if txs == [] then db else Exec(Do(db, txs[0]), txs[1..])
  }

  /** Agreement of table and events, and uniqueness, after any run of transactions. */
  lemma {:induction false} RunKeepsInv(db: Db, txs: seq<Tx>)
    requires Inv(db) && Runs(db, txs)
    ensures Inv(Exec(db, txs))
    decreases |txs|
  {
    if txs != [] {
      TxKeepsInv(db, txs[0]);
      RunKeepsInv(Do(db, txs[0]), txs[1..]);
    }
  }

  lemma {:induction false} RunsConcat(db: Db, a: seq<Tx>, b: seq<Tx>)
    requires Runs(db, a) && Runs(Exec(db, a), b)
    ensures Runs(db, a + b) && Exec(db, a + b) == Exec(Exec(db, a), b)
    decreases |a|
  {
    if a == [] {
      assert a + b == b;
    } else {
      RunsConcat(Do(db, a[0]), a[1..], b);
      assert (a + b)[1..] == a[1..] + b;
    }
  }
}
