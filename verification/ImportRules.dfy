/**
 What importing a file means, one row at a time: a row that is not blank is rejected if it is malformed or if
 its name or address is in the table by then, and is inserted otherwise.
 */
module ImportRules {
  import opened Collections
  import opened Text
  import opened ServerEvents
  import opened ServerTable

  datatype Parsed = Blank | Malformed(entry: string) | Candidate(server: Server)

  datatype Outcome = Outcome(db: Db, accepted: seq<string>, rejected: seq<string>)

  function Cell(cols: seq<string>, idx: nat): string {
    if idx < |cols| then Trim(cols[idx]) else ""
  }

  function Label(name: string, ipv4: string): string {
    name + " (" + ipv4 + ")"
  }

  /** `isIPv4` stands for parsing with Go's net package. */
  function Parse(cols: seq<string>, nameIdx: nat, ipIdx: nat, isIPv4: string -> bool): (p: Parsed)
    ensures p.Candidate? ==> TrimmedRow(p.server)
  {
    var name, ipv4 := Cell(cols, nameIdx), Cell(cols, ipIdx);
    if name == "" && ipv4 == "" then Blank
    else if name == "" || ipv4 == "" || ByteLength(name) > 255 || !isIPv4(ipv4) then
      Malformed(Label(name, ipv4) + " - Invalid Format")
    else Candidate(Server(0, name, ipv4, UNKNOWN, "ICMP", 0, "", "", "", 0))
  }

  function ParseAll(file: seq<seq<string>>, nameIdx: nat, ipIdx: nat, isIPv4: string -> bool): (parsed: seq<Parsed>)
    ensures |parsed| == |file|
    ensures forall i :: 0 <= i < |file| ==> parsed[i] == Parse(file[i], nameIdx, ipIdx, isIPv4)
  {
    seq(|file|, i requires 0 <= i < |file| => Parse(file[i], nameIdx, ipIdx, isIPv4))
  }

  /** Check, then insert; `now` gives the creation time of the event at each outbox position. */
  function ImportOne(o: Outcome, s: Server, now: nat -> int): Outcome {
    if Taken(o.db.servers, s, None) then o.(rejected := o.rejected + [Label(s.name, s.ipv4)])
    else Outcome(InsertOne(o.db, s, now(|o.db.rows|)), o.accepted + [s.name], o.rejected)
  }

  /** The candidates of a list, one by one. */
  function ImportList(db: Db, list: seq<Server>, now: nat -> int): Outcome {
    if list == [] then Outcome(db, [], [])
    else ImportOne(ImportList(db, list[..|list| - 1], now), list[|list| - 1], now)
  }

  /** The rows of a file, one by one. */
  function ImportRows(db: Db, rows: seq<Parsed>, now: nat -> int): Outcome {
    if rows == [] then Outcome(db, [], []) else
      var o := ImportRows(db, rows[..|rows| - 1], now);
      match rows[|rows| - 1]
      case Blank => o
      case Malformed(entry) => o.(rejected := o.rejected + [entry])
      case Candidate(s) => ImportOne(o, s, now)
  }

  function Filled(rows: seq<Parsed>): nat {
    if rows == [] then 0 else Filled(rows[..|rows| - 1]) + (if rows[|rows| - 1].Blank? then 0 else 1)
  }

  /** Every row that is not blank is reported exactly once. */
  lemma {:induction false} EveryRowReported(db: Db, rows: seq<Parsed>, now: nat -> int)
    ensures var o := ImportRows(db, rows, now); |o.accepted| + |o.rejected| == Filled(rows)
  {
    if rows != [] {
      EveryRowReported(db, rows[..|rows| - 1], now);
    }
  }

  /** A row of the file that names a server: a name of at most 255 bytes and an IPv4 address, after trimming. */
  predicate NamesServer(name: string, ipv4: string, isIPv4: string -> bool) {
    name != "" && ipv4 != "" && ByteLength(name) <= 255 && isIPv4(ipv4)
  }

  predicate Stored(t: Table, name: string, ipv4: string) {
    exists k :: k in t && (t[k].name == name || t[k].ipv4 == ipv4)
  }

  lemma TakenIffStored(t: Table, s: Server)
    ensures Taken(t, s, None) <==> Stored(t, s.name, s.ipv4)
  {
    if Taken(t, s, None) {
      var k :| k in t && Clash(t[k], s);
    }
    if Stored(t, s.name, s.ipv4) {
      var k :| k in t && (t[k].name == s.name || t[k].ipv4 == s.ipv4);
      assert Clash(t[k], s);
    }
  }

  /** The row that an import stores for a server it accepts: unknown, and checked by ICMP. */
  predicate ImportedAs(s: Server, id: ServerId, name: string, ipv4: string) {
    s == Server(id, name, ipv4, UNKNOWN, "ICMP", 0, "", "", "", 0)
  }

  /** One server was inserted, with its created event, under the next id. */
  predicate Inserted(before: Db, after: Db, name: string, ipv4: string, time: int) {
    var k := before.nextId;
    && after.nextId == k + 1 && k in after.servers && ImportedAs(after.servers[k], k, name, ipv4)
    && after.servers == before.servers[k := after.servers[k]]
    && after.rows == before.rows + [Row(ServerCreated(after.servers[k]), time)]
  }

  /** What a row with these trimmed cells does: it is skipped, reported as malformed or as stored, or inserted. */
  ghost predicate Effect(o: Outcome, p: Outcome, name: string, ipv4: string, isIPv4: string -> bool, now: nat -> int) {
    if name == "" && ipv4 == "" then p == o
    else if name == "" || ipv4 == "" || ByteLength(name) > 255 || !isIPv4(ipv4) then
      p == o.(rejected := o.rejected + [name + " (" + ipv4 + ")" + " - Invalid Format"])
    else if exists j :: j in o.db.servers && (o.db.servers[j].name == name || o.db.servers[j].ipv4 == ipv4) then
      p == o.(rejected := o.rejected + [name + " (" + ipv4 + ")"])
    else
      && p.accepted == o.accepted + [name] && p.rejected == o.rejected
      && Inserted(o.db, p.db, name, ipv4, now(|o.db.rows|))
  }

  lemma ImportStep(db: Db, rows: seq<Parsed>, i: nat, now: nat -> int)
    requires i < |rows|
    ensures var o, p := ImportRows(db, rows[..i], now), ImportRows(db, rows[..i + 1], now);
            match rows[i]
            case Blank => p == o
            case Malformed(entry) => p == o.(rejected := o.rejected + [entry])
            case Candidate(s) => p == ImportOne(o, s, now)
  {
    assert rows[..i + 1][..i] == rows[..i];
  }

  lemma CandidateEffect(o: Outcome, s: Server, isIPv4: string -> bool, now: nat -> int)
    requires NamesServer(s.name, s.ipv4, isIPv4) && ImportedAs(s, 0, s.name, s.ipv4)
    ensures Effect(o, ImportOne(o, s, now), s.name, s.ipv4, isIPv4, now)
  {
    TakenIffStored(o.db.servers, s);
  }

  /** What row `i` of a file does is decided by its trimmed cells and what is stored by then. */
  lemma RowEffect(db: Db, file: seq<seq<string>>, nameIdx: nat, ipIdx: nat, isIPv4: string -> bool, now: nat -> int,
                  i: nat)
    requires i < |file|
    ensures var parsed := ParseAll(file, nameIdx, ipIdx, isIPv4);
            Effect(ImportRows(db, parsed[..i], now), ImportRows(db, parsed[..i + 1], now),
              if nameIdx < |file[i]| then Trim(file[i][nameIdx]) else "",
              if ipIdx < |file[i]| then Trim(file[i][ipIdx]) else "", isIPv4, now)
  {
    var parsed := ParseAll(file, nameIdx, ipIdx, isIPv4);
    ImportStep(db, parsed, i, now);
    if parsed[i].Candidate? {
      CandidateEffect(ImportRows(db, parsed[..i], now), parsed[i].server, isIPv4, now);
    }
  }

  lemma EffectCounts(o: Outcome, p: Outcome, name: string, ipv4: string, isIPv4: string -> bool, now: nat -> int)
    requires Effect(o, p, name, ipv4, isIPv4, now)
    ensures var accepted := NamesServer(name, ipv4, isIPv4) && !Stored(o.db.servers, name, ipv4);
            && (|p.accepted| == |o.accepted| + 1 <==> accepted)
            && (accepted ==> p.accepted == o.accepted + [name])
            && (|p.rejected| == |o.rejected| + 1 <==> (name != "" || ipv4 != "") && !accepted)
  {
  }

  /**
   Row `i` of a file is accepted exactly if its trimmed cells name a server and neither its name nor its address is
   stored by then, be it from before or from an earlier row; it is rejected exactly if it is neither accepted nor blank.
   */
  lemma RowAcceptedIff(db: Db, file: seq<seq<string>>, nameIdx: nat, ipIdx: nat, isIPv4: string -> bool,
                       now: nat -> int, i: nat)
    requires i < |file|
    ensures var parsed := ParseAll(file, nameIdx, ipIdx, isIPv4);
            var o, p := ImportRows(db, parsed[..i], now), ImportRows(db, parsed[..i + 1], now);
            var name, ipv4 := Cell(file[i], nameIdx), Cell(file[i], ipIdx);
            var accepted := NamesServer(name, ipv4, isIPv4) && !Stored(o.db.servers, name, ipv4);
            && (|p.accepted| == |o.accepted| + 1 <==> accepted)
            && (|p.accepted| == |o.accepted| + 1 ==> p.accepted == o.accepted + [name])
            && (|p.rejected| == |o.rejected| + 1 <==> (name != "" || ipv4 != "") && !accepted)
  {
    var parsed := ParseAll(file, nameIdx, ipIdx, isIPv4);
    RowEffect(db, file, nameIdx, ipIdx, isIPv4, now, i);
    EffectCounts(ImportRows(db, parsed[..i], now), ImportRows(db, parsed[..i + 1], now),
      Cell(file[i], nameIdx), Cell(file[i], ipIdx), isIPv4, now);
  }

  // ----- The whole file -----

  /** Server `s` comes from one of the first `n` rows of the file. */
  ghost predicate FromRow(s: Server, id: ServerId, file: seq<seq<string>>, nameIdx: nat, ipIdx: nat, n: nat)
    requires n <= |file|
  {
    exists i :: 0 <= i < n && nameIdx < |file[i]| && ipIdx < |file[i]| &&
                ImportedAs(s, id, Trim(file[i][nameIdx]), Trim(file[i][ipIdx]))
  }

  /** The added server `k` comes from a row of the file and has its created event. */
  ghost predicate AddedFromFile(db: Db, t: Db, file: seq<seq<string>>, nameIdx: nat, ipIdx: nat, now: nat -> int,
                                n: nat, k: ServerId)
    requires n <= |file| && db.nextId <= k < t.nextId && |t.rows| == |db.rows| + (t.nextId - db.nextId)
  {
    var at := |db.rows| + (k - db.nextId);
    && k in t.servers && FromRow(t.servers[k], k, file, nameIdx, ipIdx, n)
    && t.rows[at] == Row(ServerCreated(t.servers[k]), now(at))
  }

  /**
   The servers and events that the first `n` rows of a file add to `db`: every added server comes from a row and has its
   created event, in order, and everything that was there is still there.
   */
  ghost predicate FromFile(db: Db, t: Db, file: seq<seq<string>>, nameIdx: nat, ipIdx: nat, now: nat -> int, n: nat)
    requires n <= |file|
  {
    && db.nextId <= t.nextId && |t.rows| == |db.rows| + (t.nextId - db.nextId) && db.rows <= t.rows
    && (forall k :: k in db.servers ==> k in t.servers && t.servers[k] == db.servers[k])
    && (forall k :: k in t.servers ==> k in db.servers || db.nextId <= k < t.nextId)
    && forall k :: db.nextId <= k < t.nextId ==> AddedFromFile(db, t, file, nameIdx, ipIdx, now, n, k)
  }

  lemma FromRowLater(s: Server, id: ServerId, file: seq<seq<string>>, nameIdx: nat, ipIdx: nat, n: nat)
    requires n < |file| && FromRow(s, id, file, nameIdx, ipIdx, n)
    ensures FromRow(s, id, file, nameIdx, ipIdx, n + 1)
  {
    var i :| 0 <= i < n && nameIdx < |file[i]| && ipIdx < |file[i]| &&
             ImportedAs(s, id, Trim(file[i][nameIdx]), Trim(file[i][ipIdx]));
  }

  lemma FromFileLater(db: Db, t: Db, file: seq<seq<string>>, nameIdx: nat, ipIdx: nat, now: nat -> int, n: nat)
    requires n < |file| && FromFile(db, t, file, nameIdx, ipIdx, now, n)
    ensures FromFile(db, t, file, nameIdx, ipIdx, now, n + 1)
  {
    var m := n + 1;
    forall k: nat | db.nextId <= k < t.nextId ensures AddedFromFile(db, t, file, nameIdx, ipIdx, now, m, k) {
      assert AddedFromFile(db, t, file, nameIdx, ipIdx, now, n, k);
      FromRowLater(t.servers[k], k, file, nameIdx, ipIdx, n);
    }
  }

  lemma FromFileInserted(db: Db, t: Db, u: Db, file: seq<seq<string>>, nameIdx: nat, ipIdx: nat, now: nat -> int,
                         n: nat)
    requires n < |file| && FromFile(db, t, file, nameIdx, ipIdx, now, n + 1)
    requires forall k :: k in db.servers ==> k < db.nextId
    requires nameIdx < |file[n]| && ipIdx < |file[n]|
    requires Inserted(t, u, Trim(file[n][nameIdx]), Trim(file[n][ipIdx]), now(|t.rows|))
    ensures FromFile(db, u, file, nameIdx, ipIdx, now, n + 1)
  {
    var m := n + 1;
    forall k: nat | db.nextId <= k < u.nextId ensures AddedFromFile(db, u, file, nameIdx, ipIdx, now, m, k) {
      if k < t.nextId {
        assert AddedFromFile(db, t, file, nameIdx, ipIdx, now, n + 1, k);
      } else {
        assert FromRow(u.servers[k], k, file, nameIdx, ipIdx, n + 1);
      }
    }
  }

  lemma {:induction false} ImportedFromFile(db: Db, file: seq<seq<string>>, nameIdx: nat, ipIdx: nat,
                                            isIPv4: string -> bool, now: nat -> int, n: nat)
    requires n <= |file| && forall k :: k in db.servers ==> k < db.nextId
    ensures var t := ImportRows(db, ParseAll(file, nameIdx, ipIdx, isIPv4)[..n], now).db;
            FromFile(db, t, file, nameIdx, ipIdx, now, n)
    decreases n
  {
    if n > 0 {
      var parsed := ParseAll(file, nameIdx, ipIdx, isIPv4);
      ImportedFromFile(db, file, nameIdx, ipIdx, isIPv4, now, n - 1);
      RowEffect(db, file, nameIdx, ipIdx, isIPv4, now, n - 1);
      FromFileNext(db, ImportRows(db, parsed[..n - 1], now), ImportRows(db, parsed[..n], now), file, nameIdx, ipIdx,
        isIPv4, now, n - 1);
    }
  }

  lemma FromFileNext(db: Db, o: Outcome, p: Outcome, file: seq<seq<string>>, nameIdx: nat, ipIdx: nat,
                     isIPv4: string -> bool, now: nat -> int, n: nat)
    requires n < |file| && FromFile(db, o.db, file, nameIdx, ipIdx, now, n)
    requires forall k :: k in db.servers ==> k < db.nextId
    requires Effect(o, p, if nameIdx < |file[n]| then Trim(file[n][nameIdx]) else "",
               if ipIdx < |file[n]| then Trim(file[n][ipIdx]) else "", isIPv4, now)
    ensures FromFile(db, p.db, file, nameIdx, ipIdx, now, n + 1)
  {
    FromFileLater(db, o.db, file, nameIdx, ipIdx, now, n);
    if p.db != o.db {
      FromFileInserted(db, o.db, p.db, file, nameIdx, ipIdx, now, n);
    }
  }

  /** What `o` added to `db` and nothing else: one row and one created event per accepted name, in order. */
  ghost predicate Extends(o: Outcome, db: Db) {
    && |o.db.rows| == |db.rows| + |o.accepted| && db.rows <= o.db.rows
    && o.db.nextId == db.nextId + |o.accepted|
    && (forall i :: 0 <= i < |o.accepted| ==> InsertedAt(o, db, i))
    && (forall k :: k < db.nextId ==> (k in o.db.servers <==> k in db.servers))
    && (forall k :: k < db.nextId && k in db.servers ==> o.db.servers[k] == db.servers[k])
  }

  ghost predicate InsertedAt(o: Outcome, db: Db, i: nat)
    requires i < |o.accepted| && |o.db.rows| == |db.rows| + |o.accepted|
  {
    var k := db.nextId + i;
    && k in o.db.servers && o.db.servers[k].name == o.accepted[i]
    && o.db.rows[|db.rows| + i].event == ServerCreated(o.db.servers[k])
  }

  lemma ImportOneExtends(o: Outcome, db: Db, s: Server, now: nat -> int)
    requires Extends(o, db)
    ensures Extends(ImportOne(o, s, now), db)
  {
    var p := ImportOne(o, s, now);
    forall i | 0 <= i < |p.accepted| ensures InsertedAt(p, db, i) {
      if i < |o.accepted| {
        assert InsertedAt(o, db, i);
        assert p.db.rows[|db.rows| + i] == o.db.rows[|db.rows| + i];
      }
    }
  }

  /** The accepted servers are exactly what the import added to the table and to the outbox. */
  lemma {:induction false} AcceptedAreInserted(db: Db, rows: seq<Parsed>, now: nat -> int)
    ensures Extends(ImportRows(db, rows, now), db)
  {
    if rows != [] {
      var o := ImportRows(db, rows[..|rows| - 1], now);
      AcceptedAreInserted(db, rows[..|rows| - 1], now);
      if rows[|rows| - 1].Candidate? {
        ImportOneExtends(o, db, rows[|rows| - 1].server, now);
      } else {
        var p := ImportRows(db, rows, now);
        assert p.db == o.db && p.accepted == o.accepted;
        assert forall i :: 0 <= i < |o.accepted| ==> InsertedAt(o, db, i) ==> InsertedAt(p, db, i);
      }
    }
  }

  lemma ImportListAppend(db: Db, list: seq<Server>, s: Server, now: nat -> int)
    ensures ImportList(db, list + [s], now) == ImportOne(ImportList(db, list, now), s, now)
  {
    assert (list + [s])[..|list|] == list;
  }
}
