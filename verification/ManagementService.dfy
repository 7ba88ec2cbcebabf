/**
 The server service of the management component: each call reads, checks and then commits one transaction
 (an import, one per batch). Every call is proved to be a run of transactions of module ServerTable.
 */
module ManagementService {
  import opened Collections
  import opened Text
  import opened ServerEvents
  import opened ServerTable
  import opened ImportRules
  import M = StatusMachine

  datatype Error =
    | NotFound | NameExists | IPv4Exists
    | InvalidSSHPort | InvalidSSHUser | InvalidSSHKey | InvalidSSHKeyFormat
    | InvalidAgentEndpoint | InvalidAgentEndpointFormat
    | EncryptFailed | UniqueViolation | DbError | TxFailed

  datatype Result<+T> = Ok(value: T) | Err(error: Error)

  datatype Input = Input(
    serverName: string, ipv4: string, healthCheckMethod: string,
    sshPort: int, sshUser: string, sshKey: string, agentEndpoint: string)

  /** The database accesses of a call that can fail; `Commit` stands for the outbox insert and the commit itself. */
  datatype Access = ReadById | ReadByName | ReadByIPv4 | WriteRow | Commit

  /** Code outside the model: SSH key encryption, URL parsing, and which accesses fail during the call. */
  datatype Env = Env(encrypt: string -> Option<string>, parsesUri: string -> bool, failing: set<Access>)

  /** A status event as it arrives; empty fields are absent. */
  datatype StatusPayload = Garbled | StatusOf(id: Option<ServerId>, status: Option<Status>)

  datatype StatusMessage = StatusMessage(eventType: Option<string>, payload: Option<StatusPayload>)

  /** The server and the status a message is about, unless it is to be ignored or cannot be read. */
  predicate Announces(msg: StatusMessage, id: ServerId, status: Status) {
    msg == StatusMessage(Some("ServerStatusChanged"), Some(StatusOf(Some(id), Some(status))))
  }

  predicate Unreadable(msg: StatusMessage) {
    msg.eventType == Some("ServerStatusChanged") && msg.payload == Some(Garbled)
  }

  /** The database accesses of a batch that fail; `commit` stands for the outbox insert and the commit itself. */
  datatype BatchFaults = BatchFaults(lookup: bool, insert: bool, commit: bool)

  const NO_FAULTS := BatchFaults(false, false, false)

  datatype ImportResult = ImportResult(
    successCount: int, successfulServers: seq<string>, failCount: int, failedServers: seq<string>)

  const METHOD_SSH := "SSH"
  const METHOD_AGENT_PULL := "AGENT_PULL"
  const BATCH_SIZE := 100

  /** The connection fields of an input are usable, given the key that is already stored. */
  predicate Acceptable(input: Input, storedKey: string, env: Env) {
    && (input.healthCheckMethod == METHOD_SSH ==>
          && 1 <= input.sshPort <= 65535
          && input.sshUser != ""
          && (if input.sshKey == "" then storedKey != "" else Contains(input.sshKey, "PRIVATE KEY")))
    && (input.healthCheckMethod == METHOD_AGENT_PULL ==>
          input.agentEndpoint != "" && env.parsesUri(input.agentEndpoint))
  }

  predicate NameTaken(t: Table, name: string, except: Option<ServerId>) {
    exists k :: k in t && Some(k) != except && t[k].name == Trim(name)
  }

  predicate IPv4Taken(t: Table, ipv4: string, except: Option<ServerId>) {
    exists k :: k in t && Some(k) != except && t[k].ipv4 == Trim(ipv4)
  }

  /** Fields that the chosen method does not use are cleared on creation. */
  function Cleaned(input: Input): Input {
    var i := if input.healthCheckMethod != METHOD_SSH then input.(sshPort := 0, sshUser := "", sshKey := "") else input;
    if i.healthCheckMethod != METHOD_AGENT_PULL then i.(agentEndpoint := "") else i
  }

  /** Empty connection fields of an update mean the stored ones. */
  function Merged(stored: Server, input: Input): Input {
    input.(sshPort := if input.sshPort == 0 then stored.sshPort else input.sshPort,
           sshUser := if input.sshUser == "" then stored.sshUser else input.sshUser,
           agentEndpoint := if input.agentEndpoint == "" then stored.agentEndpoint else input.agentEndpoint)
  }

  function RowOf(input: Input, id: ServerId, key: string, status: Status, failures: int): Server {
    Server(id, Trim(input.serverName), Trim(input.ipv4), status, input.healthCheckMethod,
           input.sshPort, input.sshUser, key, input.agentEndpoint, failures)
  }

  /** The reads that an update of `stored` needs work. */
  predicate UpdateReads(stored: Server, input: Input, env: Env) {
    && (input.serverName != stored.name ==> ReadByName !in env.failing)
    && (input.ipv4 != stored.ipv4 ==> ReadByIPv4 !in env.failing)
  }

  predicate WritesWork(env: Env) {
    WriteRow !in env.failing && Commit !in env.failing
  }

  predicate UpdateAllowed(t: Table, id: ServerId, input: Input, env: Env)
    requires id in t
  {
    && !NameTaken(t, input.serverName, Some(id))
    && !IPv4Taken(t, input.ipv4, Some(id))
    && Acceptable(Merged(t[id], input), t[id].sshKey, env)
    && (input.sshKey == "" || env.encrypt(input.sshKey).Some?)
  }

  /** The row an allowed update leaves. */
  function UpdatedRow(stored: Server, input: Input, env: Env): Server
    requires input.sshKey == "" || env.encrypt(input.sshKey).Some?
  {
    RowOf(Merged(stored, input), stored.id,
      if input.sshKey == "" then stored.sshKey else env.encrypt(input.sshKey).value,
      if input.healthCheckMethod != stored.healthCheckMethod || input.ipv4 != stored.ipv4 then UNKNOWN
      else stored.status,
      stored.consecutiveFailures)
  }

  /** Sending a row back with its own name, address and method, and nothing else, changes nothing. */
  lemma BlankUpdateKeepsRow(stored: Server, env: Env)
    requires TrimmedRow(stored)
    ensures UpdatedRow(stored, Input(stored.name, stored.ipv4, stored.healthCheckMethod, 0, "", "", ""), env) == stored
  {
    TrimFixesTrimmed(stored.name);
    TrimFixesTrimmed(stored.ipv4);
  }

  /** Sending the same update again changes nothing. */
  lemma RepeatedUpdateChangesNothing(stored: Server, input: Input, env: Env)
    requires TrimmedRow(stored) && (input.sshKey == "" || env.encrypt(input.sshKey).Some?)
    ensures var once := UpdatedRow(stored, input, env); UpdatedRow(once, input, env) == once
  {
    if input.ipv4 == stored.ipv4 {
      TrimFixesTrimmed(stored.ipv4);
    }
  }

  function TrimRow(s: Server): Server {
    s.(name := Trim(s.name), ipv4 := Trim(s.ipv4))
  }

  /** The service's two separate checks together exclude a clash of the trimmed row. */
  lemma NotTaken(t: Table, id: ServerId, name: string, ipv4: string, s: Server)
    requires !NameTaken(t, name, Some(id)) && !IPv4Taken(t, ipv4, Some(id))
    requires s.name == name && s.ipv4 == ipv4
    ensures !Taken(t, TrimRow(s), Some(id))
  {
  }

  /** A server's own stored name and address are not taken by another server. */
  lemma OwnFieldsFree(t: Table, id: ServerId)
    requires Unique(t) && id in t
    ensures !NameTaken(t, t[id].name, Some(id)) && !IPv4Taken(t, t[id].ipv4, Some(id))
  {
    TrimFixesTrimmed(t[id].name);
    TrimFixesTrimmed(t[id].ipv4);
    forall k | k in t && k != id ensures t[k].name != t[id].name && t[k].ipv4 != t[id].ipv4 {
      assert !Clash(t[k], t[id]);
    }
  }

  lemma SingletonInsert(db: Db, s: Server, now: int)
    ensures InsertAll(db, [s], [now]) == InsertOne(db, s, now)
    ensures TrimmedRow(s) && !Taken(db.servers, s, None) ==> Insertable(db, [s], [now])
  {
    assert [s][..0] == [] && [now][..0] == [];
  }

  lemma RunsOne(db: Db, tx: Tx)
    requires Enabled(db, tx)
    ensures Runs(db, [tx]) && Exec(db, [tx]) == Do(db, tx)
  {
    assert [tx][1..] == [];
  }

  /** Writing a stored row back with another status meets no clash and trims nothing. */
  lemma StatusRowFits(t: Table, id: ServerId, status: Status)
    requires Unique(t) && id in t
    ensures var row := t[id].(status := status); TrimRow(row) == row && row.id == id && !Taken(t, row, Some(id))
  {
    var row := t[id];
    TrimFixesTrimmed(row.name);
    TrimFixesTrimmed(row.ipv4);
    assert forall k :: k in t && k != id ==> !Clash(t[k], row);
  }

  /** A handled status message is one step of the status consumer. */
  lemma OneStatusWrite(db: Db, txs: seq<Tx>, id: ServerId, status: Status)
    requires id in db.servers && Runs(db, txs) && (txs == [] || (|txs| == 1 && txs[0].SetStatus?))
    requires txs == [SetStatus(id, status)] <==> db.servers[id].status != status
    requires forall j, other :: txs == [SetStatus(j, other)] ==> j == id && other == status
    ensures var t := Exec(db, txs);
            && id in t.servers && t.servers[id].status == status
            && |txs| == if db.servers[id].status == status then 0 else 1
  {
    if txs != [] {
      assert txs == [SetStatus(txs[0].id, txs[0].status)];
      assert txs[1..] == [];
      assert Exec(db, txs) == Do(db, txs[0]);
    }
  }

  // ----- Bulk import -----

  function TimesFrom(rows: seq<Row>, now: nat -> int, n: nat): (times: seq<int>)
    ensures |times| == n
  {
    seq(n, i requires 0 <= i < n => now(|rows| + i))
  }

  /** The two maps answer for row `s` what the table would. */
  ghost predicate Knows(t: Table, s: Server, names: set<string>, ipv4s: set<string>) {
    && (s.name in names <==> exists k :: k in t && t[k].name == s.name)
    && (s.ipv4 in ipv4s <==> exists k :: k in t && t[k].ipv4 == s.ipv4)
  }

  lemma KnowsIsTaken(t: Table, s: Server, names: set<string>, ipv4s: set<string>)
    requires Knows(t, s, names, ipv4s)
    ensures Taken(t, s, None) <==> s.name in names || s.ipv4 in ipv4s
  {
    assert Taken(t, s, None) <==> exists k :: k in t && Clash(t[k], s);
  }

  function NamesOf(found: set<Server>): set<string> {
    set s | s in found :: s.name
  }

  function IPv4sOf(found: set<Server>): set<string> {
    set s | s in found :: s.ipv4
  }

  /** The lookup returns enough of the table to decide for every row it was asked about. */
  lemma LookupKnows(t: Table, names: seq<string>, ipv4s: seq<string>, found: set<Server>)
    requires found == set k | k in t && (t[k].name in names || t[k].ipv4 in ipv4s) :: t[k]
    ensures forall s: Server :: s.name in names && s.ipv4 in ipv4s ==> Knows(t, s, NamesOf(found), IPv4sOf(found))
  {
    forall s: Server | s.name in names && s.ipv4 in ipv4s ensures Knows(t, s, NamesOf(found), IPv4sOf(found)) {
      if k :| k in t && t[k].name == s.name {
        assert t[k] in found;
      }
      if k :| k in t && t[k].ipv4 == s.ipv4 {
        assert t[k] in found;
      }
    }
  }

  lemma InsertKnows(db: Db, batch: seq<Server>, srv: Server, now: int, names: set<string>, ipv4s: set<string>)
    requires forall s :: s in batch ==> Knows(db.servers, s, names, ipv4s)
    requires db.nextId !in db.servers
    ensures forall s :: s in batch ==> Knows(InsertOne(db, srv, now).servers, s, names + {srv.name}, ipv4s + {srv.ipv4})
  {
    var t := InsertOne(db, srv, now).servers;
    assert t[db.nextId].name == srv.name && t[db.nextId].ipv4 == srv.ipv4;
    forall s | s in batch ensures Knows(t, s, names + {srv.name}, ipv4s + {srv.ipv4}) {
      assert Knows(db.servers, s, names, ipv4s);
      if k :| k in db.servers && db.servers[k].name == s.name {
        assert k in t && t[k].name == s.name;
      }
      if k :| k in db.servers && db.servers[k].ipv4 == s.ipv4 {
        assert k in t && t[k].ipv4 == s.ipv4;
      }
    }
  }

  /** `valid` are the rows accepted so far: inserting them all at once gives the one-by-one outcome's database. */
  ghost predicate Accepted(db: Db, o: Outcome, valid: seq<Server>, now: nat -> int) {
    var times := TimesFrom(db.rows, now, |valid|);
    Insertable(db, valid, times) && o.db == InsertAll(db, valid, times)
  }

  lemma AcceptOneMore(db: Db, o: Outcome, valid: seq<Server>, srv: Server, now: nat -> int)
    requires Accepted(db, o, valid, now) && TrimmedRow(srv) && !Taken(o.db.servers, srv, None)
    ensures Accepted(db, ImportOne(o, srv, now), valid + [srv], now)
  {
    var list, times := valid + [srv], TimesFrom(db.rows, now, |valid| + 1);
    assert list[..|valid|] == valid && times[..|valid|] == TimesFrom(db.rows, now, |valid|);
    InsertAllExtends(db, valid, TimesFrom(db.rows, now, |valid|));
  }

  lemma {:induction false} InsertAllFresh(db: Db, list: seq<Server>, times: seq<int>)
    requires |times| == |list| && forall k :: k in db.servers ==> k < db.nextId
    ensures forall k :: k in InsertAll(db, list, times).servers ==> k < InsertAll(db, list, times).nextId
  {
    if list != [] {
      InsertAllFresh(db, list[..|list| - 1], times[..|times| - 1]);
    }
  }

  /** The state of the filter after a part of the batch: its accepted rows and its two maps fit the outcome `o`. */
  ghost predicate Filtered(db: Db, o: Outcome, batch: seq<Server>, valid: seq<Server>, names: set<string>,
                           ipv4s: set<string>, now: nat -> int)
  {
    Accepted(db, o, valid, now) && forall s :: s in batch ==> Knows(o.db.servers, s, names, ipv4s)
  }

  lemma FilterReject(o: Outcome, srv: Server, names: set<string>, ipv4s: set<string>, now: nat -> int)
    requires Knows(o.db.servers, srv, names, ipv4s) && (srv.name in names || srv.ipv4 in ipv4s)
    ensures ImportOne(o, srv, now) == o.(rejected := o.rejected + [Label(srv.name, srv.ipv4)])
  {
    KnowsIsTaken(o.db.servers, srv, names, ipv4s);
  }

  lemma FilterAccept(db: Db, o: Outcome, batch: seq<Server>, valid: seq<Server>, srv: Server, names: set<string>,
                     ipv4s: set<string>, now: nat -> int)
    requires Filtered(db, o, batch, valid, names, ipv4s, now) && (forall k :: k in db.servers ==> k < db.nextId)
    requires srv in batch && TrimmedRow(srv) && srv.name !in names && srv.ipv4 !in ipv4s
    ensures Filtered(db, ImportOne(o, srv, now), batch, valid + [srv], names + {srv.name}, ipv4s + {srv.ipv4}, now)
    ensures ImportOne(o, srv, now).accepted == o.accepted + [srv.name]
    ensures ImportOne(o, srv, now).rejected == o.rejected
  {
    KnowsIsTaken(o.db.servers, srv, names, ipv4s);
    AcceptOneMore(db, o, valid, srv, now);
    InsertAllFresh(db, valid, TimesFrom(db.rows, now, |valid|));
    InsertKnows(o.db, batch, srv, now(|o.db.rows|), names, ipv4s);
  }

  lemma PrefixOfPrefix<A>(s: seq<A>, n: nat, m: nat)
    requires m <= n <= |s|
    ensures s[..n][..m] == s[..m]
  {
  }

  lemma {:induction false} InsertableAt(db: Db, list: seq<Server>, times: seq<int>, i: nat)
    requires |times| == |list| && Insertable(db, list, times) && i < |list|
    ensures !Taken(InsertAll(db, list[..i], times[..i]).servers, list[i], None) && TrimmedRow(list[i])
    ensures InsertAll(db, list[..i + 1], times[..i + 1])
            == InsertOne(InsertAll(db, list[..i], times[..i]), list[i], times[i])
  {
    if i < |list| - 1 {
      var front, time := list[..|list| - 1], times[..|list| - 1];
      InsertableAt(db, front, time, i);
      PrefixOfPrefix(list, |list| - 1, i);
      PrefixOfPrefix(list, |list| - 1, i + 1);
      PrefixOfPrefix(times, |list| - 1, i);
      PrefixOfPrefix(times, |list| - 1, i + 1);
    } else {
      assert list[..i + 1] == list && times[..i + 1] == times;
    }
  }

  /** The outbox rows of a batch: one created event per row, with the ids that the insert assigns. */
  function CreatedRows(list: seq<Server>, times: seq<int>, first: ServerId): (created: seq<Row>)
    requires |times| == |list|
    ensures |created| == |list|
    ensures forall i :: 0 <= i < |list| ==> created[i] == Row(ServerCreated(list[i].(id := first + i)), times[i])
  {
    seq(|list|, i requires 0 <= i < |list| => Row(ServerCreated(list[i].(id := first + i)), times[i]))
  }

  lemma {:induction false} InsertAllRows(db: Db, list: seq<Server>, times: seq<int>)
    requires |times| == |list|
    ensures InsertAll(db, list, times).rows == db.rows + CreatedRows(list, times, db.nextId)
  {
    if list != [] {
      var front, time := list[..|list| - 1], times[..|list| - 1];
      InsertAllRows(db, front, time);
      InsertAllExtends(db, front, time);
      assert CreatedRows(list, times, db.nextId)[..|front|] == CreatedRows(front, time, db.nextId);
    }
  }

  /** `after` adds the accepted and rejected rows of `o` to `before`. */
  ghost predicate Reports(after: ImportResult, before: ImportResult, o: Outcome) {
    && after.successfulServers == before.successfulServers + o.accepted
    && after.failedServers == before.failedServers + o.rejected
    && after.successCount == before.successCount + |o.accepted|
    && after.failCount == before.failCount + |o.rejected|
  }

  /** Importing the pending batch into the current table would complete the outcome `o` of the rows read so far. */
  ghost predicate Pending(o: Outcome, db: Db, batch: seq<Server>, result: ImportResult, now: nat -> int) {
    var p := ImportList(db, batch, now);
    && o.db == p.db
    && o.accepted == result.successfulServers + p.accepted
    && multiset(o.rejected) == multiset(result.failedServers) + multiset(p.rejected)
    && result.successCount == |result.successfulServers| && result.failCount == |result.failedServers|
  }

  /** Reading one more row keeps the pending outcome, whichever way the row goes. */
  lemma PendingRow(db0: Db, parsed: seq<Parsed>, i: nat, db: Db, batch: seq<Server>, result: ImportResult,
                   now: nat -> int)
    requires i < |parsed| && Pending(ImportRows(db0, parsed[..i], now), db, batch, result, now)
    ensures var o := ImportRows(db0, parsed[..i + 1], now);
            match parsed[i]
            case Blank => Pending(o, db, batch, result, now)
            case Malformed(entry) =>
              Pending(o, db, batch,
                result.(failCount := result.failCount + 1, failedServers := result.failedServers + [entry]), now)
            case Candidate(s) => Pending(o, db, batch + [s], result, now)
  {
    assert parsed[..i + 1][..i] == parsed[..i];
    if parsed[i].Candidate? {
      ImportListAppend(db, batch, parsed[i].server, now);
    }
  }

  /** A processed batch leaves nothing pending. */
  lemma PendingFlushed(o: Outcome, db: Db, batch: seq<Server>, before: ImportResult, after: ImportResult,
                       now: nat -> int)
    requires Pending(o, db, batch, before, now) && Reports(after, before, ImportList(db, batch, now))
    ensures Pending(o, ImportList(db, batch, now).db, [], after, now)
    ensures o.db == ImportList(db, batch, now).db && o.accepted == after.successfulServers
    ensures multiset(o.rejected) == multiset(after.failedServers)
  {
  }

  /** The report of an import that ran to the end. */
  ghost predicate Complete(result: ImportResult, db: Db, parsed: seq<Parsed>, now: nat -> int) {
    var o := ImportRows(db, parsed, now);
    && result.successfulServers == o.accepted && result.successCount == |o.accepted|
    && multiset(result.failedServers) == multiset(o.rejected) && result.failCount == |result.failedServers|
    && result.successCount + result.failCount == Filled(parsed)
  }

  lemma MultisetSize(a: seq<string>, b: seq<string>)
    requires multiset(a) == multiset(b)
    ensures |a| == |b|
  {
    assert |multiset(a)| == |a|;
  }

  /** Once every row is read and nothing is pending, the result is complete. */
  lemma ImportComplete(db0: Db, parsed: seq<Parsed>, db: Db, result: ImportResult, now: nat -> int)
    requires Pending(ImportRows(db0, parsed[..|parsed|], now), db, [], result, now)
    ensures Complete(result, db0, parsed, now)
  {
    assert parsed[..|parsed|] == parsed;
    EveryRowReported(db0, parsed, now);
    MultisetSize(result.failedServers, ImportRows(db0, parsed, now).rejected);
  }

  class ManagementService {
    var servers: Table
    var rows: seq<Row>        // the outbox table
    var nextId: ServerId      // the next fresh server id

    constructor ()
      ensures Current() == EMPTY && Inv(Current())
    {
      servers, rows, nextId := map[], [], 0;
    }

    function Current(): Db
      reads this
    {
      Db(servers, rows, nextId)
    }

    // ----- The repository -----

    method GetByName(name: string, fails: bool) returns (r: Result<Option<Server>>)
      ensures r.Err? <==> fails
      ensures r.Err? ==> r.error == DbError
      ensures r.Ok? && r.value.Some? ==> r.value.value in servers.Values && r.value.value.name == Trim(name)
      ensures r.Ok? && r.value.None? ==> forall k :: k in servers ==> servers[k].name != Trim(name)
    {
      if fails {
        return Err(DbError);
      }
      if k :| k in servers && servers[k].name == Trim(name) {
        r := Ok(Some(servers[k]));
      } else {
        r := Ok(None);
      }
    }

    method GetByIPv4(ipv4: string, fails: bool) returns (r: Result<Option<Server>>)
      ensures r.Err? <==> fails
      ensures r.Err? ==> r.error == DbError
      ensures r.Ok? && r.value.Some? ==> r.value.value in servers.Values && r.value.value.ipv4 == Trim(ipv4)
      ensures r.Ok? && r.value.None? ==> forall k :: k in servers ==> servers[k].ipv4 != Trim(ipv4)
    {
      if fails {
        return Err(DbError);
      }
      if k :| k in servers && servers[k].ipv4 == Trim(ipv4) {
        r := Ok(Some(servers[k]));
      } else {
        r := Ok(None);
      }
    }

    /** One insert statement; the unique indexes on name and address reject a clash. */
    method InsertStatement(row: Server, fails: bool) returns (r: Result<Server>)
      modifies this`servers, this`nextId
      ensures r.Ok? <==> !fails && !Taken(old(servers), row, None)
      ensures r.Ok? ==> r.value == row.(id := old(nextId)) && servers == old(servers)[old(nextId) := r.value]
      ensures r.Ok? ==> nextId == old(nextId) + 1
      ensures r.Err? ==> r.error == (if fails then DbError else UniqueViolation)
      ensures r.Err? ==> servers == old(servers) && nextId == old(nextId)
    {
      if fails {
        return Err(DbError);
      }
      if k :| k in servers && Clash(servers[k], row) {
        return Err(UniqueViolation);
      }
      var stored := row.(id := nextId);
      servers := servers[nextId := stored];
      nextId := nextId + 1;
      r := Ok(stored);
    }

    /** Trims and inserts: whatever is stored is trimmed, and a clash after trimming is reported. */
    method Create(row: Server, fails: bool) returns (r: Result<Server>)
      modifies this`servers, this`nextId
      ensures r.Ok? <==> !fails && !Taken(old(servers), TrimRow(row), None)
      ensures r.Ok? ==> r.value == TrimRow(row).(id := old(nextId)) && TrimmedRow(r.value)
      ensures r.Ok? ==> servers == old(servers)[old(nextId) := r.value] && nextId == old(nextId) + 1
      ensures r.Err? ==> r.error == (if fails then DbError else UniqueViolation)
      ensures r.Err? ==> servers == old(servers) && nextId == old(nextId)
    {
      var s := row.(name := Trim(row.name));
      s := s.(ipv4 := Trim(s.ipv4));
      r := InsertStatement(s, fails);
    }

    /** Trims, writes all columns of an existing row and reports a missing row or a clash. */
    method UpdateRow(row: Server, fails: bool) returns (r: Result<Server>)
      modifies this`servers
      ensures r.Ok? <==> !fails && row.id in old(servers) && !Taken(old(servers), TrimRow(row), Some(row.id))
      ensures r.Ok? ==> r.value == TrimRow(row) && TrimmedRow(r.value) && servers == old(servers)[row.id := r.value]
      ensures r.Err? ==> servers == old(servers)
      ensures r.Err? ==>
                r.error == (if fails then DbError else if row.id !in servers then NotFound else UniqueViolation)
    {
      var s := TrimRow(row);
      if fails {
        return Err(DbError);
      }
      if row.id !in servers {
        return Err(NotFound);
      }
      if k :| k in servers && k != row.id && Clash(servers[k], s) {
        assert Some(k) != Some(row.id);
        return Err(UniqueViolation);
      }
      servers := servers[row.id := s];
      r := Ok(s);
    }

    // ----- Single-server calls -----

    /** The checks that creating and updating make in this order; creation has no stored key. */
    method CheckConnection(input: Input, storedKey: string, env: Env) returns (problem: Option<Error>)
      ensures problem.None? <==> Acceptable(input, storedKey, env)
      ensures problem.None? <==>
                && (input.healthCheckMethod == "SSH" ==>
                      && 1 <= input.sshPort <= 65535 && input.sshUser != ""
                      && (input.sshKey != "" || storedKey != "")
                      && (input.sshKey != "" ==> Contains(input.sshKey, "PRIVATE KEY")))
                && (input.healthCheckMethod == "AGENT_PULL" ==>
                      input.agentEndpoint != "" && env.parsesUri(input.agentEndpoint))
      ensures problem.Some? ==> match problem.value {
                case InvalidSSHPort => !(1 <= input.sshPort <= 65535)
                case InvalidSSHUser => input.sshUser == ""
                case InvalidSSHKey => input.sshKey == "" && storedKey == ""
                case InvalidSSHKeyFormat => input.sshKey != "" && !Contains(input.sshKey, "PRIVATE KEY")
                case InvalidAgentEndpoint => input.agentEndpoint == ""
                case InvalidAgentEndpointFormat => input.agentEndpoint != "" && !env.parsesUri(input.agentEndpoint)
                case _ => false
              }
      ensures problem.Some? && problem.value in {InvalidAgentEndpoint, InvalidAgentEndpointFormat} ==>
                input.healthCheckMethod == "AGENT_PULL"
      ensures problem.Some? && problem.value !in {InvalidAgentEndpoint, InvalidAgentEndpointFormat} ==>
                input.healthCheckMethod == "SSH"
    {
      if input.healthCheckMethod == METHOD_SSH {
        if input.sshPort <= 0 || input.sshPort > 65535 {
          return Some(InvalidSSHPort);
        }
        if input.sshUser == "" {
          return Some(InvalidSSHUser);
        }
        if input.sshKey == "" && storedKey == "" {
          return Some(InvalidSSHKey);
        }
        if input.sshKey != "" && !Contains(input.sshKey, "PRIVATE KEY") {
          return Some(InvalidSSHKeyFormat);
        }
      }
      if input.healthCheckMethod == METHOD_AGENT_PULL {
        if input.agentEndpoint == "" {
          return Some(InvalidAgentEndpoint);
        }
        if !env.parsesUri(input.agentEndpoint) {
          return Some(InvalidAgentEndpointFormat);
        }
      }
      problem := None;
    }

    /** The row that a creation inserts, before trimming and without an id. */
    method NewServer(input: Input, env: Env) returns (row: Option<Server>)
      ensures row.Some? <==> env.encrypt(Cleaned(input).sshKey).Some?
      ensures row.Some? ==> TrimRow(row.value) ==
                            RowOf(Cleaned(input), 0, env.encrypt(Cleaned(input).sshKey).value, UNKNOWN, 0)
    {
      var fields := input;
      if fields.healthCheckMethod != METHOD_SSH {
        fields := fields.(sshPort := 0, sshUser := "", sshKey := "");
      }
      if fields.healthCheckMethod != METHOD_AGENT_PULL {
        fields := fields.(agentEndpoint := "");
      }
      var key := env.encrypt(fields.sshKey);
      if key.None? {
        return None;
      }
      row := Some(Server(0, fields.serverName, fields.ipv4, UNKNOWN, fields.healthCheckMethod,
                         fields.sshPort, fields.sshUser, key.value, fields.agentEndpoint, 0));
    }

    /** The transaction of a creation: the row and its event, or neither. */
    method CommitCreate(row: Server, env: Env, now: int) returns (r: Result<Server>, ghost txs: seq<Tx>)
      requires Inv(Current()) && !Taken(servers, TrimRow(row), None)
      modifies this
      ensures Inv(Current()) && Runs(old(Current()), txs) && Current() == Exec(old(Current()), txs)
      ensures r.Ok? <==> WritesWork(env)
      ensures r.Ok? ==> r.value == TrimRow(row).(id := old(nextId)) && txs == [Insert([r.value], [now])]
      ensures r.Ok? ==> servers == old(servers)[old(nextId) := r.value] && nextId == old(nextId) + 1
      ensures r.Ok? ==> rows == old(rows) + [Row(ServerCreated(r.value), now)]
      ensures r.Err? ==> r.error in {DbError, TxFailed} && txs == [] && Current() == old(Current())
    {
      ghost var before := Current();
      var saved := (servers, rows, nextId);
      txs := [];
      r := Create(row, WriteRow in env.failing);
      if r.Err? {
        return;
      }
      rows := rows + [Row(ServerCreated(r.value), now)];
      if Commit in env.failing {
        servers, rows, nextId := saved.0, saved.1, saved.2;
        return Err(TxFailed), [];
      }
      SingletonInsert(before, r.value, now);
      txs := [Insert([r.value], [now])];
      TxKeepsInv(before, txs[0]);
    }

    /**
     A server is created exactly when neither its trimmed name nor its trimmed address is stored, its connection
     fields are acceptable, its key can be encrypted and no access fails; the unique indexes are never hit. Row and
     event are then in the tables, the columns that the method does not use empty.
     */
    method CreateServer(input: Input, env: Env, now: int) returns (r: Result<Server>, ghost txs: seq<Tx>)
      requires Inv(Current())
      modifies this
      ensures Inv(Current()) && Runs(old(Current()), txs) && Current() == Exec(old(Current()), txs)
      ensures r == Err(NameExists) <==> ReadByName !in env.failing && NameTaken(old(servers), input.serverName, None)
      ensures r == Err(IPv4Exists) <==>
                ReadByName !in env.failing && !NameTaken(old(servers), input.serverName, None) &&
                ReadByIPv4 !in env.failing && IPv4Taken(old(servers), input.ipv4, None)
      ensures r.Ok? <==> !NameTaken(old(servers), input.serverName, None) &&
                         !IPv4Taken(old(servers), input.ipv4, None) &&
                         Acceptable(input, "", env) && env.encrypt(Cleaned(input).sshKey).Some? &&
                         ReadByName !in env.failing && ReadByIPv4 !in env.failing && WritesWork(env)
      ensures r.Ok? ==> r.value ==
                        RowOf(Cleaned(input), old(nextId), env.encrypt(Cleaned(input).sshKey).value, UNKNOWN, 0)
      ensures r.Ok? ==> txs == [Insert([r.value], [now])]
      ensures r.Ok? ==> servers == old(servers)[old(nextId) := r.value] && nextId == old(nextId) + 1
      ensures r.Ok? ==> rows == old(rows) + [Row(ServerCreated(r.value), now)]
      ensures r.Ok? ==>
                var ssh, pull := input.healthCheckMethod == "SSH", input.healthCheckMethod == "AGENT_PULL";
                env.encrypt(if ssh then input.sshKey else "") == Some(r.value.sshKey) &&
                r.value == Server(old(nextId), Trim(input.serverName), Trim(input.ipv4), UNKNOWN,
                  input.healthCheckMethod, if ssh then input.sshPort else 0, if ssh then input.sshUser else "",
                  r.value.sshKey, if pull then input.agentEndpoint else "", 0)
      ensures r == Err(NameExists) <==>
                ReadByName !in env.failing &&
                exists k :: k in old(servers) && old(servers)[k].name == Trim(input.serverName)
      ensures r == Err(IPv4Exists) ==> exists k :: k in old(servers) && old(servers)[k].ipv4 == Trim(input.ipv4)
      ensures r == Err(EncryptFailed) ==> env.encrypt(Cleaned(input).sshKey).None?
      ensures r.Err? ==> txs == [] && r.error != UniqueViolation && Current() == old(Current())
    {
      txs := [];
      var existing := GetByName(input.serverName, ReadByName in env.failing);
      if existing.Err? {
        return Err(existing.error), [];
      }
      if existing.value.Some? {
        return Err(NameExists), [];
      }
      existing := GetByIPv4(input.ipv4, ReadByIPv4 in env.failing);
      if existing.Err? {
        return Err(existing.error), [];
      }
      if existing.value.Some? {
        return Err(IPv4Exists), [];
      }
      var problem := CheckConnection(input, "", env);
      if problem.Some? {
        return Err(problem.value), [];
      }
      var row := NewServer(input, env);
      if row.None? {
        return Err(EncryptFailed), [];
      }
      r, txs := CommitCreate(row.value, env, now);
    }

    /** The transaction of an update: the row and its event, or neither. */
    method CommitUpdate(server: Server, env: Env, now: int) returns (r: Result<Server>, ghost txs: seq<Tx>)
      requires Inv(Current()) && server.id in servers && Later(rows, server.id, now)
      requires !Taken(servers, TrimRow(server), Some(server.id))
      modifies this
      ensures Inv(Current()) && Runs(old(Current()), txs) && Current() == Exec(old(Current()), txs)
      ensures r.Ok? <==> WritesWork(env)
      ensures r.Ok? ==> r.value == TrimRow(server) && txs == [Update(r.value, now)]
      ensures r.Ok? ==> servers == old(servers)[server.id := r.value] && nextId == old(nextId)
      ensures r.Ok? ==> rows == old(rows) + [Row(ServerUpdated(r.value), now)]
      ensures r.Err? ==> r.error in {DbError, TxFailed} && txs == [] && Current() == old(Current())
    {
      ghost var before := Current();
      var saved := (servers, rows);
      txs := [];
      r := UpdateRow(server, WriteRow in env.failing);
      if r.Err? {
        return;
      }
      rows := rows + [Row(ServerUpdated(r.value), now)];
      if Commit in env.failing {
        servers, rows := saved.0, saved.1;
        return Err(TxFailed), [];
      }
      txs := [Update(r.value, now)];
      TxKeepsInv(before, txs[0]);
    }

    method MergeInput(stored: Server, input: Input) returns (fields: Input)
      ensures fields == Merged(stored, input)
    {
      fields := input;
      if fields.sshPort == 0 {
        fields := fields.(sshPort := stored.sshPort);
      }
      if fields.sshUser == "" {
        fields := fields.(sshUser := stored.sshUser);
      }
      if fields.agentEndpoint == "" {
        fields := fields.(agentEndpoint := stored.agentEndpoint);
      }
    }

    method RekeyedInput(stored: Server, fields: Input, env: Env) returns (key: Option<string>)
      ensures key == if fields.sshKey == "" then Some(stored.sshKey) else env.encrypt(fields.sshKey)
    {
      key := Some(stored.sshKey);
      if fields.sshKey != "" {
        key := env.encrypt(fields.sshKey);
      }
    }

    /** The name check of an update, skipped for the stored text, which is sound because the table is unique. */
    method NameFreeFor(id: ServerId, name: string, env: Env) returns (r: Result<bool>)
      requires Unique(servers) && id in servers
      ensures r.Err? <==> name != servers[id].name && ReadByName in env.failing
      ensures if r.Err? then r.error == DbError else r.value <==> !NameTaken(servers, name, Some(id))
      ensures r.Ok? ==>
                (r.value <==> forall k :: k in servers && k != id ==> servers[k].name != Trim(name))
    {
      OwnFieldsFree(servers, id);
      if name == servers[id].name {
        return Ok(true);
      }
      var existing := GetByName(name, ReadByName in env.failing);
      if existing.Err? {
        return Err(existing.error);
      }
      r := Ok(existing.value.None? || existing.value.value.id == id);
      if !r.value {
        assert servers[existing.value.value.id].name == Trim(name);
      }
    }

    /** The address check of an update, likewise. */
    method IPv4FreeFor(id: ServerId, ipv4: string, env: Env) returns (r: Result<bool>)
      requires Unique(servers) && id in servers
      ensures r.Err? <==> ipv4 != servers[id].ipv4 && ReadByIPv4 in env.failing
      ensures if r.Err? then r.error == DbError else r.value <==> !IPv4Taken(servers, ipv4, Some(id))
      ensures r.Ok? ==>
                (r.value <==> forall k :: k in servers && k != id ==> servers[k].ipv4 != Trim(ipv4))
    {
      OwnFieldsFree(servers, id);
      if ipv4 == servers[id].ipv4 {
        return Ok(true);
      }
      var existing := GetByIPv4(ipv4, ReadByIPv4 in env.failing);
      if existing.Err? {
        return Err(existing.error);
      }
      r := Ok(existing.value.None? || existing.value.value.id == id);
      if !r.value {
        assert servers[existing.value.value.id].ipv4 == Trim(ipv4);
      }
    }

    /** The reading half of an update: the checks in their order, and the row to be written. */
    method PrepareUpdate(id: ServerId, input: Input, env: Env) returns (r: Result<Server>)
      requires Unique(servers)
      ensures r.Ok? <==> ReadById !in env.failing && id in servers && UpdateReads(servers[id], input, env) &&
                         UpdateAllowed(servers, id, input, env)
      ensures r.Ok? ==> !Taken(servers, TrimRow(r.value), Some(id)) &&
                        TrimRow(r.value) == UpdatedRow(servers[id], input, env) && r.value.id == id
      ensures r == Err(NameExists) ==> id in servers && NameTaken(servers, input.serverName, Some(id))
      ensures r == Err(IPv4Exists) ==> id in servers && IPv4Taken(servers, input.ipv4, Some(id))
      ensures r == Err(EncryptFailed) ==> input.sshKey != "" && env.encrypt(input.sshKey).None?
      ensures r == Err(NotFound) <==> ReadById !in env.failing && id !in servers
      ensures r.Err? ==> r.error != UniqueViolation
    {
      if ReadById in env.failing {
        return Err(DbError);
      }
      if id !in servers {
        return Err(NotFound);
      }
      var server := servers[id];
      var nameFree := NameFreeFor(id, input.serverName, env);
      if nameFree.Err? {
        return Err(nameFree.error);
      }
      if !nameFree.value {
        return Err(NameExists);
      }
      server := server.(name := input.serverName);
      var fields := MergeInput(server, input);
      var problem := CheckConnection(fields, server.sshKey, env);
      if problem.Some? {
        return Err(problem.value);
      }
      var key := RekeyedInput(server, fields, env);
      if key.None? {
        return Err(EncryptFailed);
      }
      var statusReset := server.healthCheckMethod != fields.healthCheckMethod;
      server := server.(name := fields.serverName, healthCheckMethod := fields.healthCheckMethod,
                        sshPort := fields.sshPort, sshUser := fields.sshUser, sshKey := key.value,
                        agentEndpoint := fields.agentEndpoint);
      var ipv4Free := IPv4FreeFor(id, fields.ipv4, env);
      if ipv4Free.Err? {
        return Err(ipv4Free.error);
      }
      if !ipv4Free.value {
        return Err(IPv4Exists);
      }
      if server.ipv4 != fields.ipv4 {
        server := server.(ipv4 := fields.ipv4);
        statusReset := true;
      }
      if statusReset {
        server := server.(status := UNKNOWN);
      }
      NotTaken(servers, id, fields.serverName, fields.ipv4, server);
      r := Ok(server);
    }

    /**
     An update stores what is sent, but for empty connection fields and an empty key, which keep what is stored; it
     resets the status exactly when the method or the address text changes, and it never hits a unique index.
     */
    method UpdateServer(id: ServerId, input: Input, env: Env, now: int) returns (r: Result<Server>, ghost txs: seq<Tx>)
      requires Inv(Current()) && Later(rows, id, now)
      modifies this
      ensures Inv(Current()) && Runs(old(Current()), txs) && Current() == Exec(old(Current()), txs)
      ensures r == Err(NotFound) <==> ReadById !in env.failing && id !in old(servers)
      ensures r.Ok? <==> ReadById !in env.failing && id in old(servers) && UpdateReads(old(servers)[id], input, env) &&
                         UpdateAllowed(old(servers), id, input, env) && WritesWork(env)
      ensures r.Ok? ==> r.value == UpdatedRow(old(servers)[id], input, env) && txs == [Update(r.value, now)]
      ensures r.Ok? <==>
                && id in old(servers) && ReadById !in env.failing && WriteRow !in env.failing && Commit !in env.failing
                && (input.serverName != old(servers)[id].name ==> ReadByName !in env.failing)
                && (input.ipv4 != old(servers)[id].ipv4 ==> ReadByIPv4 !in env.failing)
                && (forall k :: k in old(servers) && k != id ==>
                      old(servers)[k].name != Trim(input.serverName) && old(servers)[k].ipv4 != Trim(input.ipv4))
                && (input.sshKey == "" || env.encrypt(input.sshKey).Some?)
                && Acceptable(
                     input.(sshPort := if input.sshPort != 0 then input.sshPort else old(servers)[id].sshPort,
                            sshUser := if input.sshUser != "" then input.sshUser else old(servers)[id].sshUser,
                            agentEndpoint := if input.agentEndpoint != "" then input.agentEndpoint
                                             else old(servers)[id].agentEndpoint),
                     old(servers)[id].sshKey, env)
      ensures r.Ok? ==>
                var stored := old(servers)[id];
                && r.value.id == id && r.value.name == Trim(input.serverName) && r.value.ipv4 == Trim(input.ipv4)
                && r.value.healthCheckMethod == input.healthCheckMethod
                && r.value.sshPort == (if input.sshPort != 0 then input.sshPort else stored.sshPort)
                && r.value.sshUser == (if input.sshUser != "" then input.sshUser else stored.sshUser)
                && r.value.agentEndpoint ==
                     (if input.agentEndpoint != "" then input.agentEndpoint else stored.agentEndpoint)
                && (if input.sshKey != "" then env.encrypt(input.sshKey) == Some(r.value.sshKey)
                    else r.value.sshKey == stored.sshKey)
                && r.value.status ==
                     (if input.healthCheckMethod == stored.healthCheckMethod && input.ipv4 == stored.ipv4
                      then stored.status else UNKNOWN)
                && r.value.consecutiveFailures == stored.consecutiveFailures
      ensures r.Ok? ==> servers == old(servers)[id := r.value] && nextId == old(nextId)
      ensures r.Ok? ==> rows == old(rows) + [Row(ServerUpdated(r.value), now)]
      ensures r.Err? ==> txs == [] && r.error != UniqueViolation && Current() == old(Current())
      ensures r == Err(NameExists) ==> id in old(servers) && exists k ::
                k in old(servers) && k != id && old(servers)[k].name == Trim(input.serverName)
      ensures r == Err(IPv4Exists) ==> id in old(servers) && exists k ::
                k in old(servers) && k != id && old(servers)[k].ipv4 == Trim(input.ipv4)
      ensures r == Err(EncryptFailed) ==> input.sshKey != "" && env.encrypt(input.sshKey).None?
    {
      txs := [];
      r := PrepareUpdate(id, input, env);
      if r.Ok? {
        r, txs := CommitUpdate(r.value, env, now);
      }
    }

    method DeleteServer(id: ServerId, env: Env, now: int) returns (r: Result<()>, ghost txs: seq<Tx>)
      requires Inv(Current()) && Later(rows, id, now)
      modifies this
      ensures Inv(Current()) && Runs(old(Current()), txs) && Current() == Exec(old(Current()), txs)
      ensures r == Err(NotFound) <==> ReadById !in env.failing && id !in old(servers)
      ensures txs == if id in old(servers) && ReadById !in env.failing && WritesWork(env) then [Delete(id, now)] else []
      ensures r.Ok? <==> txs != []
      ensures r.Ok? <==>
                id in old(servers) && ReadById !in env.failing && WriteRow !in env.failing && Commit !in env.failing
      ensures r.Ok? ==> servers == old(servers) - {id} && rows == old(rows) + [Row(ServerDeleted(id), now)]
      ensures r.Ok? ==> nextId == old(nextId)
      ensures r.Err? ==> Current() == old(Current())
    {
      if ReadById in env.failing {
        return Err(DbError), [];
      }
      if id !in servers {
        return Err(NotFound), [];
      }
      if WriteRow in env.failing {
        return Err(DbError), [];
      }
      ghost var before := Current();
      var saved := (servers, rows);
      servers := servers - {id};
      rows := rows + [Row(ServerDeleted(id), now)];
      if Commit in env.failing {
        servers, rows := saved.0, saved.1;
        return Err(TxFailed), [];
      }
      r := Ok(());
      txs := [Delete(id, now)];
      TxKeepsInv(before, txs[0]);
    }

    /**
     Reads the row and writes it back with the new status. Writing the whole row changes no other column, because
     stored rows are trimmed; a row that cannot be read is skipped without an error.
     */
    method StoreStatus(id: ServerId, newStatus: Status, readFails: bool, writeFails: bool)
      returns (ok: bool, ghost txs: seq<Tx>)
      requires Inv(Current())
      modifies this`servers
      ensures Inv(Current()) && Runs(old(Current()), txs) && Current() == Exec(old(Current()), txs)
      ensures ok <==> readFails || id !in old(servers) || old(servers)[id].status == newStatus || !writeFails
      ensures txs == if !readFails && id in old(servers) && old(servers)[id].status != newStatus && !writeFails
                     then [SetStatus(id, newStatus)] else []
      ensures servers == if !readFails && id in old(servers) && !writeFails
                         then old(servers)[id := old(servers)[id].(status := newStatus)] else old(servers)
    {
      if readFails || id !in servers {
        return true, [];
      }
      var server := servers[id];
      if server.status == newStatus {
        return true, [];
      }
      server := server.(status := newStatus);
      if writeFails {
        return false, [];
      }
      StatusRowFits(servers, id, newStatus);
      RunsOne(Current(), SetStatus(id, newStatus));
      TxKeepsInv(Current(), SetStatus(id, newStatus));
      var r := UpdateRow(server, false);
      ok := r.Ok?;
      txs := [SetStatus(id, newStatus)];
    }

    /**
     The status consumer's handler: writes at most the status column of the server the message is about, once, and
     reports an error exactly for an unreadable payload or a failing write.
     */
    method ProcessStatusMessage(msg: StatusMessage, readFails: bool, writeFails: bool)
      returns (ok: bool, ghost txs: seq<Tx>)
      requires Inv(Current())
      modifies this`servers
      ensures Inv(Current()) && Runs(old(Current()), txs) && Current() == Exec(old(Current()), txs)
      ensures txs == [] || (|txs| == 1 && txs[0].SetStatus?)
      ensures forall id, status :: txs == [SetStatus(id, status)] <==>
                Announces(msg, id, status) && id in old(servers) && old(servers)[id].status != status &&
                !readFails && !writeFails
      ensures forall id, status :: Announces(msg, id, status) ==>
                servers == if !readFails && id in old(servers) && !writeFails
                           then old(servers)[id := old(servers)[id].(status := status)] else old(servers)
      ensures (forall id, status :: !Announces(msg, id, status)) ==> servers == old(servers)
      ensures !ok <==> Unreadable(msg) || (writeFails && !readFails && exists id, status ::
                Announces(msg, id, status) && id in old(servers) && old(servers)[id].status != status)
    {
      ok, txs := true, [];
      if msg.eventType.None? || msg.eventType.value != "ServerStatusChanged" || msg.payload.None? {
        return;
      }
      var payload := msg.payload.value;
      if payload.Garbled? {
        return false, [];
      }
      if payload.id.None? || payload.status.None? {
        return;
      }
      assert Announces(msg, payload.id.value, payload.status.value);
      ok, txs := StoreStatus(payload.id.value, payload.status.value, readFails, writeFails);
    }

    /** A status event for a stored server that is handled without a fault. */
    method ConsumeStatus(id: ServerId, status: Status) returns (ghost txs: seq<Tx>)
      requires Inv(Current()) && id in servers
      modifies this`servers
      ensures Inv(Current()) && Runs(old(Current()), txs) && Current() == Exec(old(Current()), txs)
      ensures id in servers && servers[id].status == status
      ensures servers == old(servers)[id := old(servers)[id].(status := status)]
      ensures |txs| == if old(servers)[id].status == status then 0 else 1
    {
      ghost var before := Current();
      var msg := StatusMessage(Some("ServerStatusChanged"), Some(StatusOf(Some(id), Some(status))));
      var ok;
      ok, txs := ProcessStatusMessage(msg, false, false);
      assert Announces(msg, id, status);
      OneStatusWrite(before, txs, id, status);
    }

    /** `after` is `before` with another status at `id` at most. */
    ghost predicate OnlyStatus(before: map<ServerId, Server>, after: map<ServerId, Server>, id: ServerId) {
      id in before && id in after && after == before[id := before[id].(status := after[id].status)]
    }

    lemma OnlyStatusAgain(a: map<ServerId, Server>, b: map<ServerId, Server>, id: ServerId, status: Status)
      requires OnlyStatus(a, b, id)
      ensures OnlyStatus(a, b[id := b[id].(status := status)], id)
    {
    }

    ghost predicate Reached(before: Db, txs: seq<Tx>)
      reads this
    {
      Inv(Current()) && Runs(before, txs) && Current() == Exec(before, txs)
    }

    /** One turn of the consumer's loop, with the transactions so far. */
    method ConsumeNext(id: ServerId, status: Status, ghost before: Db, ghost txs: seq<Tx>) returns (ghost more: seq<Tx>)
      requires Reached(before, txs) && OnlyStatus(before.servers, servers, id)
      modifies this`servers
      ensures Reached(before, more) && OnlyStatus(before.servers, servers, id) && servers[id].status == status
      ensures |more| == |txs| + if old(servers)[id].status == status then 0 else 1
    {
      ghost var one := ConsumeStatus(id, status);
      RunsConcat(before, txs, one);
      OnlyStatusAgain(before.servers, old(servers), id, status);
      more := txs + one;
    }

    /** The consumer's loop over the statuses delivered for one server: it stores what module StatusMachine says. */
    method ConsumeStatuses(id: ServerId, deliveries: seq<Status>) returns (ghost txs: seq<Tx>)
      requires Inv(Current()) && id in servers
      modifies this`servers
      ensures Inv(Current()) && Runs(old(Current()), txs) && Current() == Exec(old(Current()), txs)
      ensures id in servers && (servers[id].status, |txs|) == M.Consume(old(servers)[id].status, deliveries)
      ensures servers == old(servers)[id := old(servers)[id].(status := servers[id].status)]
    {
      txs := [];
      ghost var before, stored := Current(), servers[id].status;
      for i := 0 to |deliveries|
        invariant Reached(before, txs)
        invariant OnlyStatus(before.servers, servers, id)
        invariant (servers[id].status, |txs|) == M.Consume(stored, deliveries[..i])
      {
        M.ConsumeNext(stored, deliveries, i);
        txs := ConsumeNext(id, deliveries[i], before, txs);
      }
      assert deliveries[..|deliveries|] == deliveries;
    }

    // ----- Bulk import -----

    /** What the query finds answers for every asked-for name and address what the whole table would. */
    method FindByNamesOrIPv4s(names: seq<string>, ipv4s: seq<string>, fails: bool) returns (r: Result<set<Server>>)
      ensures r.Err? <==> fails
      ensures if r.Err? then r.error == DbError else r.value <= servers.Values
      ensures r.Ok? ==> forall s: Server :: s.name in names && s.ipv4 in ipv4s ==>
                Knows(servers, s, NamesOf(r.value), IPv4sOf(r.value))
    {
      if fails {
        return Err(DbError);
      }
      var found := set k | k in servers && (servers[k].name in names || servers[k].ipv4 in ipv4s) :: servers[k];
      LookupKnows(servers, names, ipv4s, found);
      r := Ok(found);
    }

    /**
     One statement that inserts every row or none: it fails on its own or if a unique index objects to a row, which
     does not happen to insertable ones. Ids are assigned in order.
     */
    method BatchCreate(list: seq<Server>, fails: bool, ghost db: Db, ghost times: seq<int>)
      returns (r: Result<ServerId>)
      requires db == Current() && |times| == |list| && Insertable(db, list, times)
      modifies this`servers, this`nextId
      ensures r == if fails then Err(DbError) else Ok(db.nextId)
      ensures r.Ok? ==> servers == InsertAll(db, list, times).servers && nextId == db.nextId + |list|
      ensures r.Err? ==> servers == old(servers) && nextId == old(nextId)
    {
      if fails {
        return Err(DbError);
      }
      var first := nextId;
      for i := 0 to |list|
        invariant servers == InsertAll(db, list[..i], times[..i]).servers && nextId == db.nextId + i
      {
        InsertableAt(db, list, times, i);
        InsertAllExtends(db, list[..i], times[..i]);
        var one := InsertStatement(list[i], false);
        if one.Err? {
          return Err(UniqueViolation);
        }
      }
      assert list[..|list|] == list && times[..|list|] == times;
      r := Ok(first);
    }

    /** Appends the created event of every inserted row to the outbox. */
    method CreateEvents(list: seq<Server>, first: ServerId, now: nat -> int)
      modifies this`rows
      ensures rows == old(rows) + CreatedRows(list, TimesFrom(old(rows), now, |list|), first)
    {
      ghost var created := CreatedRows(list, TimesFrom(rows, now, |list|), first);
      for i := 0 to |list|
        invariant rows == old(rows) + created[..i]
      {
        rows := rows + [Row(ServerCreated(list[i].(id := first + i)), now(|rows|))];
      }
      assert created[..|list|] == created;
    }

    /** Inserts the valid rows with their events in one transaction. */
    method CommitBatch(list: seq<Server>, now: nat -> int, faults: BatchFaults) returns (ok: bool)
      requires Insertable(Current(), list, TimesFrom(rows, now, |list|))
      modifies this
      ensures ok <==> !faults.insert && !faults.commit
      ensures Current() == if ok then InsertAll(old(Current()), list, TimesFrom(old(rows), now, |list|))
                           else old(Current())
    {
      ghost var db, times := Current(), TimesFrom(rows, now, |list|);
      var saved := (servers, rows, nextId);
      var first := BatchCreate(list, faults.insert, db, times);
      if first.Err? {
        return false;
      }
      CreateEvents(list, first.value, now);
      InsertAllRows(db, list, times);
      InsertAllExtends(db, list, times);
      if faults.commit {
        servers, rows, nextId := saved.0, saved.1, saved.2;
      }
      ok := !faults.commit;
    }

    /** The stored names and addresses that decide about the rows of a batch. */
    method Lookup(batch: seq<Server>, fails: bool) returns (r: Result<(set<string>, set<string>)>)
      ensures r.Err? <==> fails
      ensures if r.Err? then r.error == DbError
              else forall s :: s in batch ==> Knows(servers, s, r.value.0, r.value.1)
    {
      var names, ipv4s := [], [];
      for i := 0 to |batch|
        invariant |names| == |ipv4s| == i
        invariant forall j :: 0 <= j < i ==> names[j] == batch[j].name && ipv4s[j] == batch[j].ipv4
      {
        names, ipv4s := names + [batch[i].name], ipv4s + [batch[i].ipv4];
      }
      var found := FindByNamesOrIPv4s(names, ipv4s, fails);
      if found.Err? {
        return Err(found.error);
      }
      forall s | s in batch ensures Knows(servers, s, NamesOf(found.value), IPv4sOf(found.value)) {
        var j :| 0 <= j < |batch| && batch[j] == s;
        assert names[j] in names && ipv4s[j] in ipv4s;
      }
      r := Ok((NamesOf(found.value), IPv4sOf(found.value)));
    }

    /** Sorts one row of a batch to the valid or the failed ones, remembering a valid one in the maps. */
    method FilterOne(srv: Server, valid: seq<Server>, names: set<string>, ipv4s: set<string>, updated: ImportResult,
                     now: nat -> int, ghost batch: seq<Server>, ghost o: Outcome, ghost result: ImportResult)
      returns (validNow: seq<Server>, namesNow: set<string>, ipv4sNow: set<string>, updatedNow: ImportResult)
      requires Filtered(Current(), o, batch, valid, names, ipv4s, now) && srv in batch && TrimmedRow(srv)
      requires (forall k :: k in servers ==> k < nextId) && Reports(updated, result, o)
      ensures Filtered(Current(), ImportOne(o, srv, now), batch, validNow, namesNow, ipv4sNow, now)
      ensures Reports(updatedNow, result, ImportOne(o, srv, now))
    {
      validNow, namesNow, ipv4sNow, updatedNow := valid, names, ipv4s, updated;
      if srv.name in names || srv.ipv4 in ipv4s {
        FilterReject(o, srv, names, ipv4s, now);
        updatedNow := updated.(failCount := updated.failCount + 1,
                               failedServers := updated.failedServers + [Label(srv.name, srv.ipv4)]);
      } else {
        FilterAccept(Current(), o, batch, valid, srv, names, ipv4s, now);
        validNow := valid + [srv];
        updatedNow := updated.(successCount := updated.successCount + 1,
                               successfulServers := updated.successfulServers + [srv.name]);
        namesNow, ipv4sNow := names + {srv.name}, ipv4s + {srv.ipv4};
      }
    }

    /** Sorts the rows of a batch into valid and failed ones. */
    method FilterBatch(batch: seq<Server>, names: set<string>, ipv4s: set<string>, result: ImportResult,
                       now: nat -> int)
      returns (valid: seq<Server>, updated: ImportResult)
      requires forall s :: s in batch ==> TrimmedRow(s) && Knows(servers, s, names, ipv4s)
      requires forall k :: k in servers ==> k < nextId
      ensures Accepted(Current(), ImportList(Current(), batch, now), valid, now)
      ensures Reports(updated, result, ImportList(Current(), batch, now))
    {
      ghost var db := Current();
      var existingNames, existingIPv4s := names, ipv4s;
      valid, updated := [], result;
      ghost var o := ImportList(db, [], now);
      for i := 0 to |batch|
        invariant o == ImportList(db, batch[..i], now)
        invariant Filtered(db, o, batch, valid, existingNames, existingIPv4s, now)
        invariant Reports(updated, result, o)
      {
        assert batch[i] in batch;
        ImportListAppend(db, batch[..i], batch[i], now);
        assert batch[..i + 1] == batch[..i] + [batch[i]];
        valid, existingNames, existingIPv4s, updated :=
          FilterOne(batch[i], valid, existingNames, existingIPv4s, updated, now, batch, o, result);
        o := ImportList(db, batch[..i + 1], now);
      }
      assert batch[..|batch|] == batch;
    }

    /**
     One batch: a lookup of the stored names and addresses it mentions, then in-batch maps. The outcome is that of
     checking and inserting its rows one at a time.
     */
    method ProcessBatch(batch: seq<Server>, result: ImportResult, now: nat -> int, faults: BatchFaults)
      returns (ok: bool, updated: ImportResult, ghost txs: seq<Tx>)
      requires Inv(Current()) && forall s :: s in batch ==> TrimmedRow(s)
      modifies this
      ensures Inv(Current()) && Runs(old(Current()), txs) && Current() == Exec(old(Current()), txs)
      ensures !ok ==> Current() == old(Current())
      ensures ok ==> Reports(updated, result, ImportList(old(Current()), batch, now)) &&
                     Current() == ImportList(old(Current()), batch, now).db
      ensures ok <==> batch == [] ||
                      (!faults.lookup && ((!faults.insert && !faults.commit) ||
                                          ImportList(old(Current()), batch, now).db == old(Current())))
    {
      ghost var db := Current();
      txs := [];
      updated := result;
      if |batch| == 0 {
        return true, updated, [];
      }
      var existing := Lookup(batch, faults.lookup);
      if existing.Err? {
        return false, updated, [];
      }
      var valid;
      valid, updated := FilterBatch(batch, existing.value.0, existing.value.1, result, now);
      ok := true;
      InsertAllExtends(db, valid, TimesFrom(db.rows, now, |valid|));
      if |valid| > 0 {
        InsertAllKeepsInv(db, valid, TimesFrom(db.rows, now, |valid|));
        ok := CommitBatch(valid, now, faults);
        txs := if ok then [Insert(valid, TimesFrom(db.rows, now, |valid|))] else [];
      }
    }

    /**
     Where an import of `parsed` into `db` stands after `read` rows: the batches of the first `done` rows are in the
     table through the transactions `txs`, and the rows since then are in the pending batch or the result.
     */
    ghost predicate Importing(db: Db, parsed: seq<Parsed>, now: nat -> int, read: nat, done: nat, txs: seq<Tx>,
                              batch: seq<Server>, result: ImportResult)
      reads this
    {
      && Imported(db, parsed, now, done, txs) && done <= read <= |parsed|
      && (forall s :: s in batch ==> TrimmedRow(s))
      && Pending(ImportRows(db, parsed[..read], now), Current(), batch, result, now)
    }

    /** The table holds what the first `done` rows give. */
    ghost predicate Imported(db: Db, parsed: seq<Parsed>, now: nat -> int, done: nat, txs: seq<Tx>)
      reads this
    {
      && Inv(Current()) && Runs(db, txs) && Current() == Exec(db, txs)
      && done <= |parsed| && Current() == ImportRows(db, parsed[..done], now).db
    }

    /** Processes the pending batch and keeps the account of what the rows read so far mean. */
    method FlushBatch(batch: seq<Server>, result: ImportResult, now: nat -> int, faults: BatchFaults,
                      ghost db: Db, ghost parsed: seq<Parsed>, ghost read: nat, ghost done: nat, ghost txs: seq<Tx>)
      returns (ok: bool, updated: ImportResult, ghost doneNow: nat, ghost txsNow: seq<Tx>)
      requires Importing(db, parsed, now, read, done, txs, batch, result)
      modifies this
      ensures Imported(db, parsed, now, doneNow, txsNow)
      ensures ok ==> doneNow == read && Importing(db, parsed, now, read, read, txsNow, [], updated)
      ensures faults == NO_FAULTS ==> ok
    {
      ghost var before, sub := Current(), [];
      ok, updated, sub := ProcessBatch(batch, result, now, faults);
      txsNow, doneNow := txs + sub, if ok then read else done;
      RunsConcat(db, txs, sub);
      if ok {
        PendingFlushed(ImportRows(db, parsed[..read], now), before, batch, result, updated, now);
      }
    }

    /** Takes one row into the result or into the batch, and processes the batch when it is full. */
    method TakeRow(row: Parsed, batch: seq<Server>, result: ImportResult, now: nat -> int, faults: BatchFaults,
                   ghost db: Db, ghost parsed: seq<Parsed>, ghost i: nat, ghost done: nat, ghost txs: seq<Tx>)
      returns (ok: bool, pending: seq<Server>, updated: ImportResult, flushed: bool,
               ghost doneNow: nat, ghost txsNow: seq<Tx>)
      requires Importing(db, parsed, now, i, done, txs, batch, result) && i < |parsed| && row == parsed[i]
      requires row.Candidate? ==> TrimmedRow(row.server)
      modifies this
      ensures Imported(db, parsed, now, doneNow, txsNow)
      ensures ok ==> Importing(db, parsed, now, i + 1, doneNow, txsNow, pending, updated)
      ensures faults == NO_FAULTS ==> ok
    {
      PendingRow(db, parsed, i, Current(), batch, result, now);
      ok, pending, updated, flushed, doneNow, txsNow := true, batch, result, false, done, txs;
      if row.Blank? {
        return;
      }
      if row.Malformed? {
        updated := result.(failCount := result.failCount + 1, failedServers := result.failedServers + [row.entry]);
        return;
      }
      pending := batch + [row.server];
      if |pending| >= BATCH_SIZE {
        ok, updated, doneNow, txsNow :=
          FlushBatch(pending, result, now, faults, db, parsed, i + 1, done, txs);
        pending, flushed := [], true;
      }
    }

    method ReadRow(cols: seq<string>, nameIdx: nat, ipIdx: nat, isIPv4: string -> bool) returns (row: Parsed)
      ensures row == Parse(cols, nameIdx, ipIdx, isIPv4)
    {
      var name, ipv4 := "", "";
      if nameIdx < |cols| {
        name := Trim(cols[nameIdx]);
      }
      if ipIdx < |cols| {
        ipv4 := Trim(cols[ipIdx]);
      }
      if name == "" && ipv4 == "" {
        return Blank;
      }
      if name == "" || ipv4 == "" || ByteLength(name) > 255 || !isIPv4(ipv4) {
        return Malformed(Label(name, ipv4) + " - Invalid Format");
      }
      row := Candidate(Server(0, name, ipv4, UNKNOWN, "ICMP", 0, "", "", "", 0));
    }

    /**
     An import accepts exactly the rows, in order, that checking and inserting one row at a time accepts, whatever
     the batch size; its counts cover every row that is not blank. If a batch cannot be looked up or committed, the
     table holds what the rows before that batch's first candidate give.
     */
    method ImportServers(file: seq<seq<string>>, nameIdx: nat, ipIdx: nat, isIPv4: string -> bool, now: nat -> int,
                         faults: nat -> BatchFaults)
      returns (ok: bool, result: ImportResult, ghost done: nat, ghost txs: seq<Tx>)
      requires Inv(Current())
      modifies this
      ensures Imported(old(Current()), ParseAll(file, nameIdx, ipIdx, isIPv4), now, done, txs)
      ensures FromFile(old(Current()), Current(), file, nameIdx, ipIdx, now, done)
      ensures (forall i :: faults(i) == NO_FAULTS) ==> ok
      ensures ok ==> done == |file| && Complete(result, old(Current()), ParseAll(file, nameIdx, ipIdx, isIPv4), now)
    {
      ghost var db := Current();
      ghost var parsed := ParseAll(file, nameIdx, ipIdx, isIPv4);
      result := ImportResult(0, [], 0, []);
      ok, txs, done := true, [], 0;
      var batch: seq<Server> := [];
      var batches: nat := 0;
      assert parsed[..0] == [];
      for i := 0 to |file|
        invariant Importing(db, parsed, now, i, done, txs, batch, result)
      {
        var row := ReadRow(file[i], nameIdx, ipIdx, isIPv4);
        var flushed;
        ok, batch, result, flushed, done, txs :=
          TakeRow(row, batch, result, now, faults(batches), db, parsed, i, done, txs);
        if !ok {
          ImportedFromFile(db, file, nameIdx, ipIdx, isIPv4, now, done);
          return;
        }
        batches := batches + if flushed then 1 else 0;
      }
      ok, result, done, txs :=
        FlushBatch(batch, result, now, faults(batches), db, parsed, |file|, done, txs);
      ImportedFromFile(db, file, nameIdx, ipIdx, isIPv4, now, done);
      if ok {
        ImportComplete(db, parsed, Current(), result, now);
      }
    }
  }
}
