/**
 The monitoring status machine with its failure threshold, and the status changes it publishes.
 */
module StatusMachine {
  import opened ServerEvents

  datatype Health = Health(status: Status, retries: nat)

  /** What one check result makes of a stored state. */
  function Next(h: Health, threshold: nat, success: bool): Health {
    if success then Health(ONLINE, 0)
    else match h.status
      case UNKNOWN => Health(OFFLINE, threshold)
      case ONLINE => if h.retries + 1 >= threshold then Health(OFFLINE, threshold) else Health(ONLINE, h.retries + 1)
      case OFFLINE => Health(OFFLINE, if h.retries < threshold then h.retries + 1 else threshold)
  }

  function Run(h: Health, threshold: nat, history: seq<bool>): Health {
    if history == [] then h else Next(Run(h, threshold, history[..|history| - 1]), threshold, history[|history| - 1])
  }

  /** The number of failures since the last success. */
  function Trailing(history: seq<bool>): (f: nat)
    ensures f <= |history|
    ensures forall i :: |history| - f <= i < |history| ==> !history[i]
    ensures f < |history| ==> history[|history| - f - 1]
  {
    if history == [] || history[|history| - 1] then 0 else Trailing(history[..|history| - 1]) + 1
  }

  /**
   The state as a function of what was stored and of the whole history: a success in it, or one failure of a server
   that was unknown, decides everything up to the failures at the end.
   */
  lemma {:induction false} RunIsClosed(h: Health, threshold: nat, history: seq<bool>)
    ensures var t, f := Run(h, threshold, history), Trailing(history);
            && (history == [] ==> t == h)
            && (history != [] && f == 0 ==> t == Health(ONLINE, 0))
            && (0 < f < |history| ==> t == if f < threshold then Health(ONLINE, f) else Health(OFFLINE, threshold))
    ensures history != [] && true !in history ==>
              var t, n := Run(h, threshold, history), |history|;
              match h.status
              case UNKNOWN => t == Health(OFFLINE, threshold)
              case ONLINE =>
                t == if h.retries + n < threshold then Health(ONLINE, h.retries + n) else Health(OFFLINE, threshold)
              case OFFLINE => t == Health(OFFLINE, if h.retries + n < threshold then h.retries + n else threshold)
  {
    if history != [] {
      RunIsClosed(h, threshold, history[..|history| - 1]);
    }
  }

  lemma {:induction false} RunConcat(h: Health, threshold: nat, a: seq<bool>, b: seq<bool>)
    ensures Run(h, threshold, a + b) == Run(Run(h, threshold, a), threshold, b)
  {
    if b == [] {
      assert a + b == a;
    } else {
      assert (a + b)[..|a + b| - 1] == a + b[..|b| - 1];
      RunConcat(h, threshold, a, b[..|b| - 1]);
    }
  }

  /** One success makes everything before it irrelevant, whatever was stored. */
  lemma SuccessForgetsPast(h: Health, h': Health, threshold: nat, past: seq<bool>, past': seq<bool>, future: seq<bool>)
    ensures Run(h, threshold, past + [true] + future) == Run(h', threshold, past' + [true] + future)
  {
    RunConcat(h, threshold, past + [true], future);
    RunConcat(h', threshold, past' + [true], future);
    assert (past + [true])[..|past|] == past && (past' + [true])[..|past'|] == past';
  }

  /** From any stored count, even one above a lowered threshold, every check leaves a count within the threshold. */
  lemma CountCapped(h: Health, threshold: nat, history: seq<bool>)
    requires history != []
    ensures Run(h, threshold, history).retries <= threshold
  {
  }

  // ----- Published changes -----

  /** The statuses published over a history. */
  function Changes(h: Health, threshold: nat, history: seq<bool>): seq<Status> {
    if history == [] then [] else
      var front := history[..|history| - 1];
      var before, after := Run(h, threshold, front).status, Run(h, threshold, history).status;
      Changes(h, threshold, front) + (if before != after then [after] else [])
  }

  function LastStatus(initial: Status, changes: seq<Status>): Status {
    if changes == [] then initial else changes[|changes| - 1]
  }

  /** Each status differs from the one before it, the first from the initial one. */
  predicate Alternates(initial: Status, changes: seq<Status>) {
    changes == [] ||
    (var front := changes[..|changes| - 1];
     Alternates(initial, front) && changes[|changes| - 1] != LastStatus(initial, front))
  }

  /** Consecutive published statuses differ, and the last one is the stored status. */
  lemma {:induction false} ChangesAreTheLog(h: Health, threshold: nat, history: seq<bool>)
    ensures var c := Changes(h, threshold, history);
            LastStatus(h.status, c) == Run(h, threshold, history).status && Alternates(h.status, c)
  {
    if history != [] {
      var front := history[..|history| - 1];
      ChangesAreTheLog(h, threshold, front);
      var c, d := Changes(h, threshold, front), Changes(h, threshold, history);
      assert d != c ==> d[..|d| - 1] == c;
    }
  }

  /** Every published status delivered once or more, in order: `counts[i]` extra deliveries of the i-th. */
  function Delivered(changes: seq<Status>, counts: seq<nat>): seq<Status>
    requires |counts| == |changes|
  {
    if changes == [] then [] else
      Delivered(changes[..|changes| - 1], counts[..|counts| - 1]) +
      seq(counts[|counts| - 1] + 1, _ => changes[|changes| - 1])
  }

  /** The status consumer: a status that is already stored is not written again. Counts the writes. */
  function Consume(stored: Status, deliveries: seq<Status>): (Status, nat) {
    if deliveries == [] then (stored, 0) else
      var (s, n) := Consume(stored, deliveries[..|deliveries| - 1]);
      var d := deliveries[|deliveries| - 1];
      if s == d then (s, n) else (d, n + 1)
  }

  lemma ConsumeNext(stored: Status, deliveries: seq<Status>, i: nat)
    requires i < |deliveries|
    ensures var (s, n) := Consume(stored, deliveries[..i]);
            Consume(stored, deliveries[..i + 1]) == (deliveries[i], if s == deliveries[i] then n else n + 1)
  {
    assert deliveries[..i + 1][..i] == deliveries[..i];
  }

  lemma {:induction false} ConsumeRepeats(stored: Status, deliveries: seq<Status>, d: Status, extra: nat)
    ensures var (s, n) := Consume(stored, deliveries);
            Consume(stored, deliveries + seq(extra + 1, _ => d)) == (d, if s == d then n else n + 1)
    decreases extra
  {
    var more := deliveries + seq(extra + 1, _ => d);
    if extra == 0 {
      assert more[..|more| - 1] == deliveries;
    } else {
      assert more[..|more| - 1] == deliveries + seq(extra, _ => d);
      ConsumeRepeats(stored, deliveries, d, extra - 1);
    }
  }

  lemma {:induction false} ConsumeChanges(initial: Status, changes: seq<Status>, counts: seq<nat>)
    requires |counts| == |changes|
    requires Alternates(initial, changes)
    ensures Consume(initial, Delivered(changes, counts)) == (LastStatus(initial, changes), |changes|)
  {
    if changes != [] {
      var front := changes[..|changes| - 1];
      ConsumeChanges(initial, front, counts[..|counts| - 1]);
      ConsumeRepeats(initial, Delivered(front, counts[..|counts| - 1]), changes[|changes| - 1], counts[|counts| - 1]);
    }
  }

  /**
   The published statuses, however often each is redelivered before the next, bring the management table from the
   initial to the monitored status with exactly one write per change.
   */
  lemma TableFollowsMonitoring(h: Health, threshold: nat, history: seq<bool>, counts: seq<nat>)
    requires |counts| == |Changes(h, threshold, history)|
    ensures Consume(h.status, Delivered(Changes(h, threshold, history), counts))
            == (Run(h, threshold, history).status, |Changes(h, threshold, history)|)
  {
    ChangesAreTheLog(h, threshold, history);
    ConsumeChanges(h.status, Changes(h, threshold, history), counts);
  }

  // ----- The service -----

  function Tagged(id: ServerId, changes: seq<Status>): seq<(ServerId, Status)> {
    seq(|changes|, i requires 0 <= i < |changes| => (id, changes[i]))
  }

  function Observed(id: ServerId, history: seq<bool>): seq<(ServerId, bool)> {
    seq(|history|, i requires 0 <= i < |history| => (id, history[i]))
  }

  class MonitoringService {
    var store: map<ServerId, Health>
    var published: seq<(ServerId, Status)>
    var observations: seq<(ServerId, bool)>
    var storeWrites: nat
    const failureThreshold: nat

    constructor (failureThreshold: nat)
      ensures store == map[] && published == [] && observations == [] && storeWrites == 0
      ensures this.failureThreshold == failureThreshold
    {
      store, published, observations, storeWrites := map[], [], [], 0;
      this.failureThreshold := failureThreshold;
    }

    method SetServerState(id: ServerId, h: Health, fails: bool) returns (ok: bool)
      modifies this`store, this`storeWrites
      ensures ok == !fails && store == if ok then old(store)[id := h] else old(store)
      ensures storeWrites == old(storeWrites) + if ok then 1 else 0
    {
      if !fails {
        store, storeWrites := store[id := h], storeWrites + 1;
      }
      ok := !fails;
    }

    /**
     One evaluation logs its observation and stores the next state, writing only when it differs, and publishes exactly
     the changes of status that were stored; a server without stored state is an error, like a failing read or write.
     */
    method Evaluate(id: ServerId, pingSuccess: bool, readFails: bool, writeFails: bool, publishFails: bool)
      returns (ok: bool)
      modifies this
      ensures observations == old(observations) + [(id, pingSuccess)]
      ensures !ok <==> readFails || id !in old(store) ||
                       (writeFails && old(store)[id] != Next(old(store)[id], failureThreshold, pingSuccess))
      ensures !ok ==> store == old(store) && published == old(published) && storeWrites == old(storeWrites)
      ensures ok ==> id in store && store == old(store)[id := Next(old(store)[id], failureThreshold, pingSuccess)]
      ensures ok && pingSuccess ==> store[id] == Health(ONLINE, 0)
      ensures ok && !pingSuccess ==>
                var r, limit := old(store)[id].retries, failureThreshold;
                match old(store)[id].status
                case UNKNOWN => store[id] == Health(OFFLINE, limit)
                case ONLINE => store[id] == if r + 1 < limit then Health(ONLINE, r + 1) else Health(OFFLINE, limit)
                case OFFLINE => store[id] == Health(OFFLINE, if r < limit then r + 1 else limit)
      ensures ok ==> storeWrites == old(storeWrites) + (if store[id] != old(store)[id] then 1 else 0)
      ensures ok ==> published == old(published) +
                       (if store[id].status != old(store)[id].status && !publishFails then [(id, store[id].status)]
                        else [])
    {
      observations := observations + [(id, pingSuccess)];
      if readFails || id !in store {
        return false;
      }
      var current := store[id].status;
      var retryCount: int := store[id].retries;
      var newStatus := current;
      var statusChanged, retryChanged := false, false;
      if pingSuccess {
        if current == OFFLINE || current == UNKNOWN {
          newStatus, statusChanged := ONLINE, true;
          retryCount, retryChanged := 0, true;
        } else if retryCount > 0 {
          retryCount, retryChanged := 0, true;
        }
      } else if current == ONLINE || current == UNKNOWN {
        retryCount, retryChanged := retryCount + 1, true;
        if retryCount >= failureThreshold || current == UNKNOWN {
          newStatus, statusChanged := OFFLINE, true;
          retryCount := failureThreshold;
        }
      } else if retryCount < failureThreshold {
        retryCount, retryChanged := retryCount + 1, true;
      } else if retryCount > failureThreshold {
        retryCount, retryChanged := failureThreshold, true;
      }
      if statusChanged || retryChanged {
        ok := SetServerState(id, Health(newStatus, retryCount), writeFails);
        if !ok {
          return;
        }
      }
      if statusChanged && !publishFails {
        published := published + [(id, newStatus)];
      }
      ok := true;
    }

    /** What the workers' checks of one server make of it, when nothing fails: the run, and its changes published. */
    method CheckRepeatedly(id: ServerId, history: seq<bool>)
      requires id in store
      modifies this
      ensures store == old(store)[id := Run(old(store)[id], failureThreshold, history)]
      ensures published == old(published) + Tagged(id, Changes(old(store)[id], failureThreshold, history))
      ensures observations == old(observations) + Observed(id, history)
    {
      ghost var h := store[id];
      for i := 0 to |history|
        invariant store == old(store)[id := Run(h, failureThreshold, history[..i])]
        invariant published == old(published) + Tagged(id, Changes(h, failureThreshold, history[..i]))
        invariant observations == old(observations) + Observed(id, history[..i])
      {
        assert history[..i + 1][..i] == history[..i];
        assert Observed(id, history[..i + 1]) == Observed(id, history[..i]) + [(id, history[i])];
        var ok := Evaluate(id, history[i], false, false, false);
      }
      assert history[..|history|] == history;
    }
  }
}
