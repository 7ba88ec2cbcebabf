/**
 Push-style monitoring: agents register and send heartbeats, which keep them in a sorted set by time, and a sweeper
 evaluates a failure for every member that has been silent too long and removes it.

 A heartbeat and its evaluation are one step, without the evaluation if the heartbeat was not published; a sweep
 fetches its list, and then evaluates and removes each listed server in separate steps, of which the evaluation may
 fail. The threshold is 1. `last` and `failures` are history: the time of each server's last registration or heartbeat
 and the failures evaluated since then.
 */
module Sweeper {
  import opened Collections
  import opened ServerEvents
  import opened StatusMachine

  datatype Entry = Entry(push: bool, health: Health)

  datatype Sweep = NoSweep | Sweeping(since: int, rest: set<ServerId>, evaluated: Option<ServerId>)

  datatype State = State(
    now: int, timeout: nat, info: map<ServerId, Entry>, beats: map<ServerId, int>, sweep: Sweep,
    last: map<ServerId, int>, failures: map<ServerId, nat>)

  datatype Step =
    | Register(id: ServerId, status: Status, push: bool)
    | Deregister(id: ServerId)
    | Heartbeat(id: ServerId, published: bool)
    | SweepStart
    | SweepEvaluate(id: ServerId, works: bool)
    | SweepRemove
    | SweepEnd
    | Tick(elapsed: nat)

  const THRESHOLD := 1

  function Expired(beats: map<ServerId, int>, limit: int): set<ServerId> {
    set id | id in beats && beats[id] <= limit
  }

  function Failures(s: State, id: ServerId): nat {
    if id in s.failures then s.failures[id] else 0
  }

  /** `Evaluate`: an error without effect for a server that has no cached entry. */
  function Evaluated(info: map<ServerId, Entry>, id: ServerId, success: bool): map<ServerId, Entry> {
    if id in info then info[id := info[id].(health := Next(info[id].health, THRESHOLD, success))] else info
  }

  /** A registration keeps the cached retry count and overwrites the cached status. */
  function Registered(info: map<ServerId, Entry>, id: ServerId, status: Status, push: bool): map<ServerId, Entry> {
    info[id := Entry(push, Health(status, if id in info then info[id].health.retries else 0))]
  }

  predicate Enabled(s: State, step: Step) {
    match step
    case SweepStart => s.sweep.NoSweep?
    case SweepEvaluate(id, _) => s.sweep.Sweeping? && id in s.sweep.rest && s.sweep.evaluated.None?
    case SweepRemove => s.sweep.Sweeping? && s.sweep.evaluated.Some?
    case SweepEnd => s.sweep.Sweeping? && s.sweep.rest == {} && s.sweep.evaluated.None?
    case _ => true
  }

  function Do(s: State, step: Step): State
    requires Enabled(s, step)
  {
    match step
    case Register(id, status, push) =>
      var t := s.(info := Registered(s.info, id, status, push));
      if push then t.(beats := s.beats[id := s.now], last := s.last[id := s.now], failures := s.failures[id := 0])
      else t
    case Deregister(id) => s.(info := s.info - {id})
    case Heartbeat(id, published) =>
      s.(info := if published then Evaluated(s.info, id, true) else s.info, beats := s.beats[id := s.now],
         last := s.last[id := s.now], failures := s.failures[id := 0])
    case SweepStart => s.(sweep := Sweeping(s.now, Expired(s.beats, s.now - s.timeout), None))
    case SweepEvaluate(id, works) =>
      var t := s.(sweep := s.sweep.(evaluated := Some(id)));
      if works then t.(info := Evaluated(s.info, id, false), failures := s.failures[id := Failures(s, id) + 1]) else t
    case SweepRemove =>
      var id := s.sweep.evaluated.value;
      s.(beats := s.beats - {id}, sweep := s.sweep.(rest := s.sweep.rest - {id}, evaluated := None))
    case SweepEnd => s.(sweep := NoSweep)
    case Tick(elapsed) => s.(now := s.now + elapsed)
  }

  /** Registered as a push server. */
  predicate Pushes(s: State, id: ServerId) {
    id in s.info && s.info[id].push
  }

  predicate Offline(s: State, id: ServerId) {
    Pushes(s, id) ==> s.info[id].health.status == OFFLINE
  }

  /** A push server that the sorted set does not watch is offline. */
  predicate Reported(s: State, id: ServerId) {
    id !in s.beats ==> Offline(s, id)
  }

  /**
   Between a server's evaluation by the sweep and its removal, no heartbeat and no registration brings it back unless
   it is no push server or stays offline; and the evaluation does not fail for a push server that is not offline.
   */
  predicate Undisturbed(s: State, step: Step) {
    match step
    case Heartbeat(id, published) =>
      s.sweep.Sweeping? && s.sweep.evaluated == Some(id) && published ==> !Pushes(s, id)
    case Register(id, status, push) =>
      s.sweep.Sweeping? && s.sweep.evaluated == Some(id) && push ==> status == OFFLINE
    case SweepEvaluate(id, works) => works || Offline(s, id)
    case _ => true
  }

  ghost predicate IdOk(s: State, id: ServerId) {
    && Reported(s, id)
    && (id in s.beats ==> id in s.last && s.last[id] == s.beats[id] && s.beats[id] <= s.now)
    && Failures(s, id) <= 1
    && (id in s.beats && (s.sweep.NoSweep? || s.sweep.evaluated != Some(id)) ==> Failures(s, id) == 0)
    && (Pushes(s, id) ==> id in s.last)
    && (s.sweep.Sweeping? ==> ListOk(s, id))
  }

  /** The list holds every member silent since before the fetch, and else only members heard after it. */
  ghost predicate ListOk(s: State, id: ServerId)
    requires s.sweep.Sweeping?
  {
    && (id in s.beats && s.beats[id] <= s.sweep.since - s.timeout ==> id in s.sweep.rest)
    && (id in s.sweep.rest ==>
          id in s.beats && (s.beats[id] <= s.sweep.since - s.timeout || s.beats[id] >= s.sweep.since))
    && (s.sweep.evaluated == Some(id) ==> id in s.sweep.rest && Offline(s, id))
  }

  ghost predicate Inv(s: State) {
    && s.timeout > 0 && (s.sweep.Sweeping? ==> s.sweep.since <= s.now)
    && forall id :: IdOk(s, id)
  }

  lemma StepKeepsId(s: State, step: Step, id: ServerId)
    requires s.timeout > 0 && (s.sweep.Sweeping? ==> s.sweep.since <= s.now)
    requires IdOk(s, id) && Enabled(s, step) && Undisturbed(s, step)
    ensures IdOk(Do(s, step), id)
  {
  }

  lemma StepKeepsInv(s: State, step: Step)
    requires Inv(s) && Enabled(s, step) && Undisturbed(s, step)
    ensures Inv(Do(s, step))
  {
    forall id ensures IdOk(Do(s, step), id) {
      assert IdOk(s, id);
      StepKeepsId(s, step, id);
    }
  }

  ghost predicate Runs(s: State, steps: seq<Step>)
    decreases |steps|
  {
    steps == [] || (Enabled(s, steps[0]) && Runs(Do(s, steps[0]), steps[1..]))
  }

  ghost function Exec(s: State, steps: seq<Step>): State
    requires Runs(s, steps)
    decreases |steps|
  {
    if steps == [] then s else Exec(Do(s, steps[0]), steps[1..])
  }

  ghost predicate UndisturbedRun(s: State, steps: seq<Step>)
    requires Runs(s, steps)
    decreases |steps|
  {
    steps == [] || (Undisturbed(s, steps[0]) && UndisturbedRun(Do(s, steps[0]), steps[1..]))
  }

  function Start(now: int, timeout: nat): State {
    State(now, timeout, map[], map[], NoSweep, map[], map[])
  }

  lemma {:induction false} RunKeepsInv(s: State, steps: seq<Step>)
    requires Inv(s) && Runs(s, steps) && UndisturbedRun(s, steps)
    ensures Inv(Exec(s, steps))
    decreases |steps|
  {
    if steps != [] {
      StepKeepsInv(s, steps[0]);
      RunKeepsInv(Do(s, steps[0]), steps[1..]);
    }
  }

  /**
   In every undisturbed run: push servers absent from the sorted set are offline; at most one failure is evaluated
   per silence; when a sweep that started at time t ends, every push server whose last registration or heartbeat is
   at or before t - timeout is offline; and a sweep fails only servers that were silent for the timeout when it
   started or were heard of since.
   */
  lemma EachSilenceReportedOnce(now: int, timeout: nat, steps: seq<Step>, id: ServerId)
    requires timeout > 0 && Runs(Start(now, timeout), steps) && UndisturbedRun(Start(now, timeout), steps)
    ensures var s := Exec(Start(now, timeout), steps);
            && Failures(s, id) <= 1
            && Reported(s, id)
            && (Enabled(s, SweepEnd) && id in s.last && s.last[id] <= s.sweep.since - timeout ==> Offline(s, id))
            && (Enabled(s, SweepEvaluate(id, true)) ==>
                  id in s.last && (s.last[id] <= s.sweep.since - timeout || s.sweep.since <= s.last[id]))
  {
    RunKeepsInv(Start(now, timeout), steps);
    KeepsTimeout(Start(now, timeout), steps);
    assert IdOk(Exec(Start(now, timeout), steps), id);
  }

  lemma {:induction false} KeepsTimeout(s: State, steps: seq<Step>)
    requires Runs(s, steps)
    ensures Exec(s, steps).timeout == s.timeout
    decreases |steps|
  {
    if steps != [] {
      KeepsTimeout(Do(s, steps[0]), steps[1..]);
    }
  }

  /**
   The hypothesis is exact: whatever the step before a removal is, the removed server is a push server left online
   and unwatched precisely if that step was a disturbance.
   */
  lemma ReportedIffUndisturbed(s: State, step: Step)
    requires Inv(s) && Enabled(s, step) && Enabled(Do(s, step), SweepRemove)
    ensures var t := Do(s, step); Reported(Do(t, SweepRemove), t.sweep.evaluated.value) <==> Undisturbed(s, step)
  {
    assert IdOk(s, Do(s, step).sweep.evaluated.value);
  }

  lemma {:induction false} RunsSnoc(s: State, steps: seq<Step>, step: Step)
    requires Runs(s, steps) && Enabled(Exec(s, steps), step)
    ensures Runs(s, steps + [step]) && Exec(s, steps + [step]) == Do(Exec(s, steps), step)
    ensures UndisturbedRun(s, steps) && Undisturbed(Exec(s, steps), step) ==> UndisturbedRun(s, steps + [step])
    decreases |steps|
  {
    if steps != [] {
      RunsSnoc(Do(s, steps[0]), steps[1..], step);
      assert (steps + [step])[1..] == steps[1..] + [step];
    }
  }

  lemma Take(s: State, steps: seq<Step>, step: Step) returns (more: seq<Step>)
    requires Runs(s, steps) && Enabled(Exec(s, steps), step)
    ensures Runs(s, more) && Exec(s, more) == Do(Exec(s, steps), step)
    ensures UndisturbedRun(s, steps) && Undisturbed(Exec(s, steps), step) ==> UndisturbedRun(s, more)
  {
    RunsSnoc(s, steps, step);
    more := steps + [step];
  }

  /**
   A disturbance can happen: a heartbeat that arrives between a sweep's evaluation and its removal leaves the server
   online and out of the sorted set, so its next silence would go unnoticed.
   */
  lemma HeartbeatDuringSweepIsLost(timeout: nat, id: ServerId) returns (steps: seq<Step>)
    requires timeout > 0
    ensures Runs(Start(0, timeout), steps)
    ensures var s := Exec(Start(0, timeout), steps);
            Pushes(s, id) && id !in s.beats && s.info[id].health.status == ONLINE
  {
    var s := Start(0, timeout);
    steps := Take(s, [], Register(id, UNKNOWN, true));
    steps := Take(s, steps, Tick(timeout));
    steps := Take(s, steps, SweepStart);
    steps := Take(s, steps, SweepEvaluate(id, true));
    steps := Take(s, steps, Heartbeat(id, true));
    steps := Take(s, steps, SweepRemove);
  }

  /** One failure takes a server offline from every stored state exactly with a threshold of at most 1. */
  lemma ThresholdOneIsNeeded(threshold: nat)
    ensures (forall h: Health :: Next(h, threshold, false).status == OFFLINE) <==> threshold <= 1
  {
    if threshold > 1 {
      assert Next(Health(ONLINE, 0), threshold, false).status == ONLINE;
    }
  }

  // ----- The sweep and its two feeders -----

  /** Every server in `swept` evaluated as failed, but for those whose evaluation fails. */
  function AfterSweep(info: map<ServerId, Entry>, swept: set<ServerId>, evalFails: ServerId -> bool):
    map<ServerId, Entry>
  {
    map id | id in info ::
      if id in swept && !evalFails(id) then info[id].(health := Next(info[id].health, THRESHOLD, false)) else info[id]
  }

  /** The sweeper's attempt to evaluate one server. */
  function Attempted(info: map<ServerId, Entry>, id: ServerId, fails: bool): map<ServerId, Entry> {
    if fails then info else Evaluated(info, id, false)
  }

  lemma SweepOneMore(info: map<ServerId, Entry>, swept: set<ServerId>, evalFails: ServerId -> bool, id: ServerId)
    requires id !in swept
    ensures AfterSweep(info, swept + {id}, evalFails) ==
            Attempted(AfterSweep(info, swept, evalFails), id, evalFails(id))
  {
  }

  lemma SweepNone(info: map<ServerId, Entry>, evalFails: ServerId -> bool)
    ensures AfterSweep(info, {}, evalFails) == info
  {
  }

  lemma RemoveOneMore(beats: map<ServerId, int>, swept: set<ServerId>, id: ServerId)
    ensures beats - swept - {id} == beats - (swept + {id})
  {
  }

  /** What a sweep leaves of the sorted set and of the cache, member by member. */
  lemma SweepOutcome(info: map<ServerId, Entry>, beats: map<ServerId, int>, limit: int, evalFails: ServerId -> bool,
                     id: ServerId)
    ensures var left := beats - Expired(beats, limit);
            (id in left <==> id in beats && beats[id] > limit) && (id in left ==> left[id] == beats[id])
    ensures var after := AfterSweep(info, Expired(beats, limit), evalFails);
            && (id in after <==> id in info)
            && (id in info ==> after[id] == if id in beats && beats[id] <= limit && !evalFails(id)
                                            then info[id].(health := Health(OFFLINE, 1)) else info[id])
  {
  }

  /** A run to `t`, undisturbed if `clean`. */
  ghost predicate Reaches(start: State, steps: seq<Step>, t: State, clean: bool) {
    Runs(start, steps) && Exec(start, steps) == t && (clean ==> UndisturbedRun(start, steps))
  }

  class AgentMonitor {
    var info: map<ServerId, Entry>
    var beats: map<ServerId, int>
    const timeout: nat

    constructor (timeout: nat)
      ensures info == map[] && beats == map[] && this.timeout == timeout
    {
      info, beats := map[], map[];
      this.timeout := timeout;
    }

    /** The cache and the sorted set of state `s`. */
    ghost predicate Shows(s: State)
      reads this
    {
      s.info == info && s.beats == beats && s.timeout == timeout
    }

    /**
     The sorted set is written first; if that fails nothing else happens. Then the heartbeat is published, which may
     fail unnoticed, and evaluated by its consumer.
     */
    method HandleHeartbeat(id: ServerId, now: int, zaddFails: bool, xaddFails: bool) returns (ok: bool)
      modifies this
      ensures ok == !zaddFails
      ensures !ok ==> info == old(info) && beats == old(beats)
      ensures ok ==> beats == old(beats)[id := now]
      ensures ok ==> info == if xaddFails || id !in old(info) then old(info)
                             else old(info)[id := old(info)[id].(health := Health(ONLINE, 0))]
      ensures ok ==> forall s :: old(Shows(s)) && s.now == now ==> Shows(Do(s, Heartbeat(id, !xaddFails)))
    {
      if zaddFails {
        return false;
      }
      beats := beats[id := now];
      if !xaddFails && id in info {
        info := info[id := info[id].(health := Next(info[id].health, THRESHOLD, true))];
      }
      ok := true;
    }

    /** A created or updated server enters the cache, and the sorted set if it pushes; no status means unknown. */
    method SyncServer(id: ServerId, status: Option<Status>, healthCheckMethod: string, now: int)
      modifies this
      ensures info == old(info)[id := Entry(healthCheckMethod == "AGENT_PUSH",
                                            Health(if status.None? then UNKNOWN else status.value,
                                                   if id in old(info) then old(info)[id].health.retries else 0))]
      ensures beats == if healthCheckMethod == "AGENT_PUSH" then old(beats)[id := now] else old(beats)
      ensures forall s :: old(Shows(s)) && s.now == now ==>
                Shows(Do(s, Register(id, if status.None? then UNKNOWN else status.value,
                                     healthCheckMethod == "AGENT_PUSH")))
    {
      var retries := if id in info then info[id].health.retries else 0;
      info := info[id := Entry(false, Health(if status.None? then UNKNOWN else status.value, retries))];
      if healthCheckMethod == "AGENT_PUSH" {
        info := info[id := info[id].(push := true)];
        beats := beats[id := now];
      }
    }

    /** A deleted server leaves the cache and stays in the sorted set. */
    method RemoveServer(id: ServerId)
      modifies this
      ensures info == old(info) - {id} && beats == old(beats)
      ensures forall s :: old(Shows(s)) ==> Shows(Do(s, Deregister(id)))
    {
      info := info - {id};
    }

    /** Evaluates one listed server as failed and removes it, whether or not the evaluation works. */
    method SweepOne(id: ServerId, fails: bool, ghost start: State, ghost steps: seq<Step>, ghost t: State,
                    ghost clean: bool)
      returns (ghost more: seq<Step>, ghost u: State)
      requires Reaches(start, steps, t, clean) && Enabled(t, SweepEvaluate(id, !fails)) && Shows(t)
      modifies this
      ensures Reaches(start, more, u, clean && !fails) && Shows(u)
      ensures u.sweep == Sweeping(t.sweep.since, t.sweep.rest - {id}, None)
      ensures beats == old(beats) - {id} && info == Attempted(old(info), id, fails)
    {
      more := Take(start, steps, SweepEvaluate(id, !fails));
      if !fails && id in info {
        info := info[id := info[id].(health := Next(info[id].health, THRESHOLD, false))];
      }
      more := Take(start, more, SweepRemove);
      u := Exec(start, more);
      beats := beats - {id};
    }

    /** The loop over the expired members. */
    method SweepAll(expired: set<ServerId>, evalFails: ServerId -> bool, ghost start: State, ghost steps: seq<Step>,
                    ghost t: State)
      returns (ghost more: seq<Step>, ghost u: State, ghost clean: bool)
      requires Reaches(start, steps, t, true) && Shows(t) && t.sweep == Sweeping(t.now, expired, None)
      modifies this
      ensures Reaches(start, more, u, clean) && Shows(u) && u.sweep == Sweeping(t.now, {}, None)
      ensures clean <==> forall id :: id in expired ==> !evalFails(id)
      ensures beats == old(beats) - expired && info == AfterSweep(old(info), expired, evalFails)
    {
      more, u, clean := steps, t, true;
      var rest := expired;
      ghost var done := {};
      SweepNone(info, evalFails);
      while rest != {}
        invariant done + rest == expired && done !! rest
        invariant beats == old(beats) - done && info == AfterSweep(old(info), done, evalFails)
        invariant Reaches(start, more, u, clean) && Shows(u) && u.sweep == Sweeping(t.now, rest, None)
        invariant clean <==> forall id :: id in done ==> !evalFails(id)
        decreases |rest|
      {
        var id :| id in rest;
        SweepOneMore(old(info), done, evalFails, id);
        RemoveOneMore(old(beats), done, id);
        more, u := SweepOne(id, evalFails(id), start, more, u, clean);
        rest, done, clean := rest - {id}, done + {id}, clean && !evalFails(id);
      }
    }

    /**
     A sweep on its own is a run of the sweep steps, undisturbed if its evaluations work. It removes exactly the
     expired members and evaluates exactly them as failed; if the range query fails it does nothing.
     */
    method Sweep(now: int, rangeFails: bool, evalFails: ServerId -> bool, ghost start: State)
      returns (ghost steps: seq<Step>)
      requires Shows(start) && start.sweep.NoSweep? && start.now == now
      modifies this
      ensures Runs(start, steps) && Shows(Exec(start, steps)) && Exec(start, steps).sweep.NoSweep?
      ensures (forall id :: id in Expired(old(beats), now - timeout) ==> !evalFails(id)) ==>
                UndisturbedRun(start, steps)
      ensures rangeFails ==> steps == [] && beats == old(beats) && info == old(info)
      ensures !rangeFails ==> forall id ::
                && (id in beats <==> id in old(beats) && old(beats)[id] > now - timeout)
                && (id in beats ==> beats[id] == old(beats)[id])
      ensures !rangeFails ==> forall id ::
                && (id in info <==> id in old(info))
                && (id in info ==>
                      info[id] == if id in old(beats) && old(beats)[id] <= now - timeout && !evalFails(id)
                                  then old(info)[id].(health := Health(OFFLINE, 1)) else old(info)[id])
    {
      steps := [];
      if rangeFails {
        return;
      }
      forall id {
        SweepOutcome(info, beats, now - timeout, evalFails, id);
      }
      steps := Take(start, steps, SweepStart);
      ghost var t, clean;
      steps, t, clean := SweepAll(Expired(beats, now - timeout), evalFails, start, steps, Exec(start, steps));
      steps := Take(start, steps, SweepEnd);
    }
  }
}
