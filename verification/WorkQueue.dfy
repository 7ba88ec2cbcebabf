/**
 The polling work queue: producers elected by a lock that is never released but expires, and workers that pop.

 A producer's section runs from taking the lock to its push; the length check and the push are separate commands.
 The hypothesis on timing is that a section is shorter than the lock's lifetime `ttl`. `pushed` and `popped` are
 history.
 */
module WorkQueue {
  import opened Collections
  import opened ServerEvents

  datatype Section = Acquired(since: int) | Checked(since: int)

  datatype State = State(
    now: int, ttl: int, lock: Option<int>, sections: map<nat, Section>,
    queue: seq<ServerId>, pushed: seq<seq<ServerId>>, popped: seq<ServerId>)

  datatype Step =
    | Acquire(producer: nat)
    | CheckLength(producer: nat)
    | CheckFails(producer: nat)
    | Push(producer: nat, ids: seq<ServerId>)
    | Leave(producer: nat)
    | Pop
    | Tick(elapsed: nat)

  /** `SetNX` succeeds: the key is absent or has expired. */
  predicate LockFree(s: State) {
    s.lock.None? || s.now >= s.lock.value
  }

  /** Time passes only while every section stays shorter than the lock's lifetime. */
  predicate Enabled(s: State, step: Step) {
    match step
    case Acquire(p) => p !in s.sections
    case CheckLength(p) => p in s.sections && s.sections[p].Acquired?
    case CheckFails(p) => p in s.sections && s.sections[p].Acquired?
    case Push(p, ids) => p in s.sections && s.sections[p].Checked? && ids != [] && Distinct(ids)
    case Leave(p) => p in s.sections
    case Pop => s.queue != []
    case Tick(elapsed) => forall p :: p in s.sections ==> s.now + elapsed < s.sections[p].since + s.ttl
  }

  function Do(s: State, step: Step): State
    requires Enabled(s, step)
  {
    match step
    case Acquire(p) =>
      if LockFree(s) then s.(lock := Some(s.now + s.ttl), sections := s.sections[p := Acquired(s.now)]) else s
    case CheckLength(p) =>
      if |s.queue| > 0 then s.(sections := s.sections - {p})
      else s.(sections := s.sections[p := Checked(s.sections[p].since)])
    case CheckFails(p) => s.(sections := s.sections[p := Checked(s.sections[p].since)])
    case Push(p, ids) => s.(queue := s.queue + ids, pushed := s.pushed + [ids], sections := s.sections - {p})
    case Leave(p) => s.(sections := s.sections - {p})
    case Pop => s.(queue := s.queue[1..], popped := s.popped + [s.queue[0]])
    case Tick(elapsed) => s.(now := s.now + elapsed)
  }

  /** At most one producer is in its section, and the lock is its own. */
  ghost predicate Exclusive(s: State) {
    && (forall p, q :: p in s.sections && q in s.sections ==> p == q)
    && forall p :: p in s.sections ==>
         s.now < s.sections[p].since + s.ttl && s.lock == Some(s.sections[p].since + s.ttl)
  }

  /** The queue is what is left of the last push; everything pushed before was popped, each once and in order. */
  ghost predicate NoSnowball(s: State) {
    if s.pushed == [] then s.queue == [] && s.popped == [] else
      var last := s.pushed[|s.pushed| - 1];
      && |s.queue| <= |last| && Distinct(last)
      && s.queue == last[|last| - |s.queue|..]
      && s.popped == Flatten(s.pushed[..|s.pushed| - 1]) + last[..|last| - |s.queue|]
  }

  /** A checked section has seen the empty queue, and nobody else pushes meanwhile. */
  ghost predicate CheckedEmpty(s: State) {
    forall p :: p in s.sections && s.sections[p].Checked? ==> s.queue == []
  }

  ghost predicate Inv(s: State) {
    s.ttl > 0 && Exclusive(s) && NoSnowball(s) && CheckedEmpty(s)
  }

  lemma PopKeepsNoSnowball(s: State)
    requires NoSnowball(s) && s.queue != []
    ensures NoSnowball(Do(s, Pop))
  {
    var last := s.pushed[|s.pushed| - 1];
    var k := |last| - |s.queue|;
    assert s.queue[0] == last[k] && last[..k + 1] == last[..k] + [last[k]];
  }

  lemma PushKeepsNoSnowball(s: State, p: nat, ids: seq<ServerId>)
    requires NoSnowball(s) && s.queue == [] && Enabled(s, Push(p, ids))
    ensures NoSnowball(Do(s, Push(p, ids)))
  {
    var t := Do(s, Push(p, ids));
    assert t.pushed[..|t.pushed| - 1] == s.pushed;
    assert t.queue == ids && ids[..0] == [];
    if s.pushed != [] {
      var last := s.pushed[|s.pushed| - 1];
      assert last[..|last|] == last;
    }
  }

  /** A length check fails only while the queue is empty. */
  predicate Safe(s: State, step: Step) {
    step.CheckFails? ==> s.queue == []
  }

  lemma StepKeepsExclusive(s: State, step: Step)
    requires s.ttl > 0 && Exclusive(s) && Enabled(s, step)
    ensures Exclusive(Do(s, step))
  {
  }

  lemma StepKeepsNoSnowball(s: State, step: Step)
    requires Inv(s) && Enabled(s, step)
    ensures NoSnowball(Do(s, step))
  {
    match step
    case Pop => PopKeepsNoSnowball(s);
    case Push(p, ids) => PushKeepsNoSnowball(s, p, ids);
    case _ => SameQueueKeepsNoSnowball(s, Do(s, step));
  }

  lemma SameQueueKeepsNoSnowball(s: State, t: State)
    requires NoSnowball(s) && t.queue == s.queue && t.pushed == s.pushed && t.popped == s.popped
    ensures NoSnowball(t)
  {
  }

  lemma StepKeepsChecked(s: State, step: Step)
    requires Exclusive(s) && CheckedEmpty(s) && Enabled(s, step) && Safe(s, step)
    ensures CheckedEmpty(Do(s, step))
  {
  }

  lemma StepKeepsInv(s: State, step: Step)
    requires Inv(s) && Enabled(s, step) && Safe(s, step)
    ensures Inv(Do(s, step))
  {
    StepKeepsExclusive(s, step);
    StepKeepsNoSnowball(s, step);
    StepKeepsChecked(s, step);
  }

  ghost predicate Runs(s: State, steps: seq<Step>)
    decreases |steps|
  {
    steps == [] || (Enabled(s, steps[0]) && Runs(Do(s, steps[0]), steps[1..]))
  }

  ghost function Exec(s: State, steps: seq<Step>): State
    requires Runs(s, steps)
    decreases |steps|
  {
    if steps == [] then s else Exec(Do(s, steps[0]), steps[1..])
  }

  function Start(now: int, ttl: int): State {
    State(now, ttl, None, map[], [], [], [])
  }

  ghost predicate SafeRun(s: State, steps: seq<Step>)
    requires Runs(s, steps)
    decreases |steps|
  {
    steps == [] || (Safe(s, steps[0]) && SafeRun(Do(s, steps[0]), steps[1..]))
  }

  lemma {:induction false} RunKeepsInv(s: State, steps: seq<Step>)
    requires Inv(s) && Runs(s, steps) && SafeRun(s, steps)
    ensures Inv(Exec(s, steps))
    decreases |steps|
  {
    if steps != [] {
      StepKeepsInv(s, steps[0]);
      RunKeepsInv(Do(s, steps[0]), steps[1..]);
    }
  }

  /**
   With any number of producers and workers, as long as length checks fail over an empty queue only: at most one
   producer is in its section, the queue never holds a server twice, and before each push every server pushed before
   has been popped, exactly once and in order.
   */
  lemma QueueNeverSnowballs(now: int, ttl: int, steps: seq<Step>)
    requires ttl > 0 && Runs(Start(now, ttl), steps) && SafeRun(Start(now, ttl), steps)
    ensures var s := Exec(Start(now, ttl), steps);
            && (forall p, q :: p in s.sections && q in s.sections ==> p == q)
            && Distinct(s.queue)
            && Flatten(s.pushed) == s.popped + s.queue
            && (s.pushed != [] ==> Flatten(s.pushed[..|s.pushed| - 1]) <= s.popped)
  {
    RunKeepsInv(Start(now, ttl), steps);
    var s := Exec(Start(now, ttl), steps);
    if s.pushed != [] {
      var last := s.pushed[|s.pushed| - 1];
      assert last == last[..|last| - |s.queue|] + s.queue;
    }
  }

  /** In every such run whoever gets the lock finds no other producer in its section. */
  lemma AcquirerIsAlone(now: int, ttl: int, steps: seq<Step>, p: nat)
    requires ttl > 0 && Runs(Start(now, ttl), steps) && SafeRun(Start(now, ttl), steps)
    requires Enabled(Exec(Start(now, ttl), steps), Acquire(p))
    ensures var s := Exec(Start(now, ttl), steps); var t := Do(s, Acquire(p));
            && (p in t.sections <==> LockFree(s))
            && (p in t.sections ==> t.sections == map[p := Section.Acquired(s.now)])
  {
    RunKeepsInv(Start(now, ttl), steps);
    var s := Exec(Start(now, ttl), steps);
    if LockFree(s) {
      assert s.sections == map[];
    }
  }

  /** A failing length check is harmless exactly over an empty queue: otherwise some push repeats a server. */
  lemma FailedCheckIsHarmlessIff(s: State, p: nat)
    requires Inv(s) && Enabled(s, CheckFails(p))
    ensures var t := Do(s, CheckFails(p));
            (forall ids :: Enabled(t, Push(p, ids)) ==> Distinct(Do(t, Push(p, ids)).queue)) <==> s.queue == []
  {
    var t := Do(s, CheckFails(p));
    if s.queue != [] {
      var step := Push(p, [s.queue[0]]);
      assert Enabled(t, step);
      assert Do(t, step).queue[0] == Do(t, step).queue[|s.queue|];
    }
  }

  lemma {:induction false} Take(s: State, steps: seq<Step>, step: Step)
    requires Runs(s, steps) && Enabled(Exec(s, steps), step)
    ensures Runs(s, steps + [step]) && Exec(s, steps + [step]) == Do(Exec(s, steps), step)
    ensures SafeRun(s, steps) && Safe(Exec(s, steps), step) ==> SafeRun(s, steps + [step])
    decreases |steps|
  {
    if steps != [] {
      Take(Do(s, steps[0]), steps[1..], step);
      assert (steps + [step])[1..] == steps[1..] + [step];
    }
  }

  /** It does happen: a length check that fails is taken for an empty queue, and then a server is queued twice. */
  lemma FailedCheckSnowballs(ttl: int, id: ServerId) returns (steps: seq<Step>)
    requires ttl > 0
    ensures Runs(Start(0, ttl), steps) && Exec(Start(0, ttl), steps).queue == [id, id]
  {
    var s := Start(0, ttl);
    steps := [];
    var plan := [Acquire(0), CheckLength(0), Push(0, [id]), Tick(ttl), Acquire(0), CheckFails(0), Push(0, [id])];
    for i := 0 to |plan|
      invariant Runs(s, steps) && |plan| == 7
      invariant var t := Exec(s, steps);
        && t.ttl == ttl && t.now == (if i <= 3 then 0 else ttl)
        && t.lock == (if i == 0 then None else if i <= 4 then Some(ttl) else Some(2 * ttl))
        && t.queue == (if i <= 2 then [] else if i <= 6 then [id] else [id, id])
        && t.sections == (match i
             case 1 => map[0 := Acquired(0)] case 2 => map[0 := Checked(0)]
             case 5 => map[0 := Acquired(ttl)] case 6 => map[0 := Checked(ttl)]
             case _ => map[])
    {
      Take(s, steps, plan[i]);
      steps := steps + [plan[i]];
    }
  }

  // ----- One cycle of a producer and one pop of a worker -----

  const AGENT_PUSH := "AGENT_PUSH"
  const SECOND := 1_000_000_000

  /** Slightly less than the tick interval, or all of it if that leaves nothing. */
  function LockExpiration(tickInterval: int): int {
    if tickInterval - 2 * SECOND <= 0 then tickInterval else tickInterval - 2 * SECOND
  }

  /**
   Whoever gets the lock at one tick keeps all others out until two seconds before the next, or until the next one if
   ticks are no further apart than that; at the next tick the lock has expired.
   */
  lemma LockExpiresByNextTick(s: State, p: nat, tickInterval: int, elapsed: nat)
    requires tickInterval > 0 && s.ttl == LockExpiration(tickInterval) && Enabled(s, Acquire(p))
    requires p in Do(s, Acquire(p)).sections
    ensures var t := Do(s, Acquire(p)).(now := s.now + elapsed);
            && (LockFree(t) <==> t.lock.None? || t.lock.value <= t.now)
            && (LockFree(t) <==>
                elapsed >= if tickInterval > 2_000_000_000 then tickInterval - 2_000_000_000 else tickInterval)
            && (elapsed >= tickInterval ==> LockFree(t))
  {
  }

  class MonitoringApp {
    var now: int
    var lock: Option<int>
    var queue: seq<ServerId>
    var allIds: set<ServerId>
    var methods: map<ServerId, string>    // health check method, where the cached server has one

    constructor (now: int)
      ensures this.now == now && lock == None && queue == [] && allIds == {} && methods == map[]
    {
      this.now, lock, queue, allIds, methods := now, None, [], {}, map[];
    }

    ghost predicate Polled(id: ServerId)
      reads this
    {
      id in allIds && id in methods && methods[id] != AGENT_PUSH
    }

    /** The lock and the queue of state `s`. */
    ghost predicate Shows(s: State)
      reads this
    {
      s.now == now && s.lock == lock && s.queue == queue
    }

    method AcquireLock(expiration: int, ghost s: State, ghost p: nat) returns (acquired: bool)
      requires Shows(s) && s.ttl == expiration && p !in s.sections
      modifies this`lock
      ensures Shows(Do(s, Acquire(p))) && (acquired <==> p in Do(s, Acquire(p)).sections)
      ensures acquired <==> old(lock).None? || old(lock).value <= now
      ensures lock == if acquired then Some(now + expiration) else old(lock)
    {
      acquired := lock.None? || now >= lock.value;
      if acquired {
        lock := Some(now + expiration);
      }
    }

    /** The servers to poll, once each, in the arbitrary order in which a map is walked. */
    method PollingServers() returns (ids: seq<ServerId>)
      ensures Distinct(ids)
      ensures forall id :: id in ids <==> (id in allIds && id in methods && methods[id] != "AGENT_PUSH")
    {
      ids := [];
      var rest := allIds;
      while rest != {}
        invariant rest <= allIds && Distinct(ids)
        invariant forall id :: id in ids <==> Polled(id) && id !in rest
        decreases |rest|
      {
        var id :| id in rest;
        rest := rest - {id};
        if id in methods && methods[id] != AGENT_PUSH {
          ids := ids + [id];
        }
      }
    }

    /** The section of a producer behind the length check: fetch, filter, push. */
    method PushAll(membersFail: bool, pushFails: bool, ghost start: State, ghost steps: seq<Step>, ghost p: nat)
      returns (pushed: seq<ServerId>, ghost more: seq<Step>)
      requires Runs(start, steps) && Shows(Exec(start, steps))
      requires p in Exec(start, steps).sections && Exec(start, steps).sections[p].Checked?
      modifies this`queue
      ensures Runs(start, more) && Shows(Exec(start, more)) && (SafeRun(start, steps) ==> SafeRun(start, more))
      ensures Exec(start, more).sections == Exec(start, steps).sections - {p}
      ensures queue == old(queue) + pushed && Distinct(pushed)
      ensures if membersFail || pushFails then pushed == [] else forall id :: id in pushed <==> Polled(id)
    {
      pushed := [];
      if !membersFail && !pushFails {
        pushed := PollingServers();
        queue := queue + pushed;
      }
      ghost var step := if pushed == [] then Leave(p) else Push(p, pushed);
      Take(start, steps, step);
      more := steps + [step];
    }

    /**
     A cycle is a run of one producer's steps. It pushes only with the lock, over an empty queue or one whose length
     is unknown, and then pushes every polled server exactly once, unless a command fails.
     */
    method RunProducerCycle(tickInterval: int, lengthFails: bool, membersFail: bool, pushFails: bool,
                            ghost start: State, ghost p: nat)
      returns (pushed: seq<ServerId>, ghost steps: seq<Step>)
      requires Shows(start) && start.ttl == LockExpiration(tickInterval) && p !in start.sections
      modifies this`lock, this`queue
      ensures Runs(start, steps) && Shows(Exec(start, steps)) && Exec(start, steps).sections == start.sections
      ensures !lengthFails || start.queue == [] ==> SafeRun(start, steps)
      ensures queue == old(queue) + pushed && Distinct(pushed)
      ensures lock == if old(lock).Some? && now < old(lock).value then old(lock)
                      else Some(now + (if tickInterval > 2_000_000_000 then tickInterval - 2_000_000_000
                                       else tickInterval))
      ensures if (old(lock).None? || old(lock).value <= now) && !membersFail && !pushFails &&
                 (lengthFails || old(queue) == [])
              then forall id :: id in pushed <==> (id in allIds && id in methods && methods[id] != "AGENT_PUSH")
              else queue == old(queue)
    {
      pushed, steps := [], [];
      var lockExpiration := tickInterval - 2 * SECOND;
      if lockExpiration <= 0 {
        lockExpiration := tickInterval;
      }
      var acquired := AcquireLock(lockExpiration, start, p);
      Take(start, steps, Acquire(p));
      steps := steps + [Acquire(p)];
      if !acquired {
        return;
      }
      ghost var check := if lengthFails then CheckFails(p) else CheckLength(p);
      Take(start, steps, check);
      steps := steps + [check];
      if !lengthFails && |queue| > 0 {
        return;
      }
      pushed, steps := PushAll(membersFail, pushFails, start, steps, p);
    }

    method PopServer() returns (id: Option<ServerId>)
      modifies this`queue
      ensures old(queue) == (if id.Some? then [id.value] + queue else [])
      ensures id.None? ==> queue == []
      ensures id.Some? ==> forall s :: old(Shows(s)) ==> Shows(Do(s, Pop))
    {
      if queue == [] {
        return None;
      }
      id := Some(queue[0]);
      queue := queue[1..];
    }
  }
}
