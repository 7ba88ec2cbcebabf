/**
 The reporting component's replica of the servers table and its two message handlers.
 */
module Replica {
  import opened Collections
  import opened ServerEvents

  datatype ReplicaRow = ReplicaRow(name: string, ipv4: string, status: string)

  type ReplicaTable = map<ServerId, ReplicaRow>

  /** The JSON payload of a message: unreadable, or its fields with absent ones empty. */
  datatype Payload = Garbled | Fields(id: ServerId, name: string, ipv4: string, status: string)

  /** The values of a stream entry that the handlers look at; either may be absent. */
  datatype Message = Message(eventType: Option<string>, payload: Option<Payload>)

  function StatusText(s: Status): string {
    match s
    case ONLINE => "ONLINE"
    case OFFLINE => "OFFLINE"
    case UNKNOWN => "UNKNOWN"
  }

  /** The entry that the relay appends for an outbox event. */
  function Encode(e: Event): Message {
    match e
    case ServerCreated(row) =>
      Message(Some("ServerCreated"), Some(Fields(row.id, row.name, row.ipv4, StatusText(row.status))))
    case ServerUpdated(row) =>
      Message(Some("ServerUpdated"), Some(Fields(row.id, row.name, row.ipv4, StatusText(row.status))))
    case ServerDeleted(id) => Message(Some("ServerDeleted"), Some(Fields(id, "", "", "")))
  }

  /** What an outbox event does to the replica. */
  function Replicate(t: ReplicaTable, e: Event): ReplicaTable {
    if e.ServerDeleted? then t - {e.id}
    else t[e.row.id := ReplicaRow(e.row.name, e.row.ipv4, StatusText(e.row.status))]
  }

  /** The columns that only server events write. */
  function Columns(t: ReplicaTable): map<ServerId, (string, string)> {
    map k | k in t :: (t[k].name, t[k].ipv4)
  }

  /** The same columns of the servers table. */
  function TableColumns(t: Table): map<ServerId, (string, string)> {
    map k | k in t :: (t[k].name, t[k].ipv4)
  }

  /** The replica's columns follow the table's event by event. */
  lemma ReplicateFollowsApply(r: ReplicaTable, t: Table, e: Event)
    requires Columns(r) == TableColumns(t)
    ensures Columns(Replicate(r, e)) == TableColumns(Apply(t, e))
  {
    assert r.Keys == t.Keys by {
      assert r.Keys == Columns(r).Keys && t.Keys == TableColumns(t).Keys;
    }
    forall k | k in Replicate(r, e) ensures Columns(Replicate(r, e))[k] == TableColumns(Apply(t, e))[k] {
      if k in r && k != e.Key() {
        assert Columns(r)[k] == TableColumns(t)[k];
      }
    }
  }

  /**
   An event travels with all that the replica stores of it, the name of its status included, and replaces or removes
   the row of its own server only.
   */
  lemma EventOwnsItsRow(r: ReplicaTable, e: Event, k: ServerId)
    ensures var t := Replicate(r, e);
            && (k != e.Key() ==> (k in t <==> k in r) && (k in t ==> t[k] == r[k]))
            && (e.ServerDeleted? && k == e.id ==> k !in t)
    ensures !e.ServerDeleted? ==>
              var row := e.row;
              var status := if row.status == ONLINE then "ONLINE" else if row.status == OFFLINE then "OFFLINE"
                            else "UNKNOWN";
              row.id in Replicate(r, e) && Replicate(r, e)[row.id] == ReplicaRow(row.name, row.ipv4, status)
    ensures Encode(e).eventType in {Some("ServerCreated"), Some("ServerUpdated"), Some("ServerDeleted")}
    ensures Encode(e).eventType == Some("ServerDeleted") <==> e.ServerDeleted?
    ensures Encode(e).payload.Some? && Encode(e).payload.value.Fields?
    ensures var p := Encode(e).payload.value;
            p.id == e.Key() &&
            (!e.ServerDeleted? ==> ReplicaRow(p.name, p.ipv4, p.status) == Replicate(r, e)[e.row.id])
  {
  }

  class ReportingReplica {
    var servers: ReplicaTable

    constructor ()
      ensures servers == map[]
    {
      servers := map[];
    }

    method Upsert(id: ServerId, row: ReplicaRow, fails: bool) returns (ok: bool)
      modifies this
      ensures ok == !fails && servers == if ok then old(servers)[id := row] else old(servers)
    {
      if !fails {
        servers := servers[id := row];
      }
      ok := !fails;
    }

    method Delete(id: ServerId, fails: bool) returns (ok: bool)
      modifies this
      ensures ok == !fails && servers == if ok then old(servers) - {id} else old(servers)
    {
      if !fails {
        servers := servers - {id};
      }
      ok := !fails;
    }

    /** Returns whether a row was updated, or nothing on a database error. */
    method UpdateStatus(id: ServerId, status: string, fails: bool) returns (found: Option<bool>)
      modifies this
      ensures found == if fails then None else Some(id in old(servers))
      ensures servers == if found == Some(true) then old(servers)[id := old(servers)[id].(status := status)]
                         else old(servers)
    {
      if fails {
        return None;
      }
      if id in servers {
        servers := servers[id := servers[id].(status := status)];
        return Some(true);
      }
      found := Some(false);
    }

    /**
     The entry of every outbox event is handled as the event says; an error is reported exactly for an unreadable
     payload of a known type or a database error there, and then nothing changes.
     */
    method HandleServerEvent(msg: Message, dbFails: bool) returns (ok: bool)
      modifies this
      ensures forall e :: msg == Encode(e) && !dbFails ==> ok && servers == Replicate(old(servers), e)
      ensures !ok <==> msg.eventType in {Some("ServerCreated"), Some("ServerUpdated"), Some("ServerDeleted")} &&
                       msg.payload.Some? && (msg.payload.value.Garbled? || dbFails)
      ensures ok && msg.eventType in {Some("ServerCreated"), Some("ServerUpdated")} && msg.payload.Some? ==>
                var p := msg.payload.value;
                servers == old(servers)[
                  p.id := ReplicaRow(p.name, p.ipv4, if p.status == "" then "UNKNOWN" else p.status)]
      ensures ok && msg.eventType == Some("ServerDeleted") && msg.payload.Some? ==>
                servers == old(servers) - {msg.payload.value.id}
      ensures msg.eventType !in {Some("ServerCreated"), Some("ServerUpdated"), Some("ServerDeleted")} ==>
                servers == old(servers)
      ensures !ok || msg.payload.None? ==> servers == old(servers)
    {
      if msg.eventType.None? || msg.payload.None? {
        return true;
      }
      var payload := msg.payload.value;
      if msg.eventType.value == "ServerCreated" || msg.eventType.value == "ServerUpdated" {
        if payload.Garbled? {
          return false;
        }
        var status := if payload.status == "" then "UNKNOWN" else payload.status;
        ok := Upsert(payload.id, ReplicaRow(payload.name, payload.ipv4, status), dbFails);
      } else if msg.eventType.value == "ServerDeleted" {
        if payload.Garbled? {
          return false;
        }
        ok := Delete(payload.id, dbFails);
      } else {
        ok := true;
      }
    }

    /** A status event writes the status column of a known server only; an unknown server is not an error. */
    method HandleStatusEvent(msg: Message, dbFails: bool) returns (ok: bool)
      modifies this
      ensures Columns(servers) == Columns(old(servers))
      ensures !ok <==> msg.eventType == Some("ServerStatusChanged") && msg.payload.Some? &&
                       (msg.payload.value.Garbled? || dbFails)
      ensures ok && msg.eventType == Some("ServerStatusChanged") && msg.payload.Some? ==>
                var p := msg.payload.value;
                servers == if p.id in old(servers) then old(servers)[p.id := old(servers)[p.id].(status := p.status)]
                           else old(servers)
      ensures msg.eventType != Some("ServerStatusChanged") || msg.payload.None? || !ok ==> servers == old(servers)
    {
      if msg.eventType.None? || msg.payload.None? {
        return true;
      }
      if msg.eventType.value == "ServerStatusChanged" {
        var payload := msg.payload.value;
        if payload.Garbled? {
          return false;
        }
        var found := UpdateStatus(payload.id, payload.status, dbFails);
        if found.Some? && !found.value {
          return true;
        }
        return found.Some?;
      }
      ok := true;
    }
  }
}
