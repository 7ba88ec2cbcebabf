/**
 The buffered observation logger: senders that never block, a flusher that receives from the channel one
 observation at a time and flushes full batches, ticks that flush partial ones, and a shutdown that closes the channel.
 */
module Flusher {
  import opened Collections

  type Observation = int

  /** `flushed`, `accepted`, `dropped` and `logged` are what has happened so far. */
  datatype State = State(
    capacity: nat, batchSize: nat, channel: seq<Observation>, closed: bool, batch: seq<Observation>, done: bool,
    flushed: seq<seq<Observation>>, accepted: seq<Observation>, dropped: nat, logged: nat)

  /** Sending on the closed channel would panic, so nothing is logged after the shutdown began. */
  datatype Step = Log(obs: Observation) | Receive | FlushTick | Close | Finish

  predicate Enabled(s: State, step: Step) {
    match step
    case Log(_) => !s.closed
    case Receive => !s.done && s.channel != []
    case FlushTick => !s.done
    case Close => true
    case Finish => !s.done && s.closed && s.channel == []
  }

  function Flush(s: State): State {
    s.(flushed := s.flushed + [s.batch], batch := [])
  }

  function Do(s: State, step: Step): State
    requires Enabled(s, step)
  {
    match step
    case Log(obs) =>
      if |s.channel| < s.capacity then
        s.(channel := s.channel + [obs], accepted := s.accepted + [obs], logged := s.logged + 1)
      else s.(dropped := s.dropped + 1, logged := s.logged + 1)
    case Receive =>
      var t := s.(channel := s.channel[1..], batch := s.batch + [s.channel[0]]);
      if |t.batch| >= s.batchSize then Flush(t) else t
    case FlushTick => if s.batch != [] then Flush(s) else s
    case Close => s.(closed := true)
    case Finish => (if s.batch != [] then Flush(s) else s).(done := true)
  }

  /** Every batch has between one and `batchSize` observations. */
  ghost predicate Sized(flushed: seq<seq<Observation>>, batchSize: nat) {
    forall i :: 0 <= i < |flushed| ==> 1 <= |flushed[i]| <= batchSize
  }

  ghost predicate Inv(s: State) {
    && s.batchSize >= 1 && |s.batch| < s.batchSize && |s.channel| <= s.capacity
    && Flatten(s.flushed) + s.batch + s.channel == s.accepted
    && Sized(s.flushed, s.batchSize)
    && |s.accepted| + s.dropped == s.logged
    && (s.done ==> s.closed && s.channel == [] && s.batch == [])
  }

  /** Moving the first queued observation behind the batch keeps their sequence. */
  lemma MoveFirst(front: seq<Observation>, batch: seq<Observation>, obs: Observation, rest: seq<Observation>)
    ensures front + (batch + [obs]) + rest == front + batch + ([obs] + rest)
  {
  }

  lemma FlushOrder(flushed: seq<seq<Observation>>, batch: seq<Observation>, channel: seq<Observation>)
    ensures Flatten(flushed + [batch]) + [] + channel == Flatten(flushed) + batch + channel
  {
    FlattenAppend(flushed, batch);
    var front := Flatten(flushed) + batch;
    assert front + [] == front;
  }

  lemma ReceiveKeepsOrder(s: State)
    requires Enabled(s, Receive)
    ensures var t := Do(s, Receive);
            Flatten(t.flushed) + t.batch + t.channel == Flatten(s.flushed) + s.batch + s.channel
  {
    var obs, rest := s.channel[0], s.channel[1..];
    assert s.channel == [obs] + rest;
    MoveFirst(Flatten(s.flushed), s.batch, obs, rest);
    FlushOrder(s.flushed, s.batch + [obs], rest);
  }

  lemma ReceiveKeepsInv(s: State)
    requires Inv(s) && Enabled(s, Receive)
    ensures Inv(Do(s, Receive))
  {
    ReceiveKeepsOrder(s);
  }

  lemma LogKeepsInv(s: State, obs: Observation)
    requires Inv(s) && Enabled(s, Log(obs))
    ensures Inv(Do(s, Log(obs)))
  {
    assert Flatten(s.flushed) + s.batch + (s.channel + [obs]) == Flatten(s.flushed) + s.batch + s.channel + [obs];
  }

  /** Flushing moves the batch behind what was flushed before. */
  lemma FlushKeepsInv(s: State)
    requires Inv(s) && s.batch != []
    ensures Inv(Flush(s))
  {
    FlushOrder(s.flushed, s.batch, s.channel);
  }

  lemma StepKeepsInv(s: State, step: Step)
    requires Inv(s) && Enabled(s, step)
    ensures Inv(Do(s, step))
  {
    match step
    case Log(obs) => LogKeepsInv(s, obs);
    case Receive => ReceiveKeepsInv(s);
    case FlushTick => if s.batch != [] { FlushKeepsInv(s); }
    case Finish => if s.batch != [] { FlushKeepsInv(s); }
    case Close =>
  }

  ghost predicate Runs(s: State, steps: seq<Step>)
    decreases |steps|
  {
    steps == [] || (Enabled(s, steps[0]) && Runs(Do(s, steps[0]), steps[1..]))
  }

  ghost function Exec(s: State, steps: seq<Step>): State
    requires Runs(s, steps)
    decreases |steps|
  {
    if steps == [] then s else Exec(Do(s, steps[0]), steps[1..])
  }

  ghost predicate Reaches(s: State, steps: seq<Step>, t: State) {
    Runs(s, steps) && Exec(s, steps) == t
  }

  lemma {:induction false} RunsSnoc(s: State, steps: seq<Step>, step: Step)
    requires Runs(s, steps) && Enabled(Exec(s, steps), step)
    ensures Reaches(s, steps + [step], Do(Exec(s, steps), step))
    decreases |steps|
  {
    if steps != [] {
      RunsSnoc(Do(s, steps[0]), steps[1..], step);
      assert (steps + [step])[1..] == steps[1..] + [step];
    }
  }

  lemma Take(s: State, steps: seq<Step>, t: State, step: Step) returns (more: seq<Step>)
    requires Reaches(s, steps, t) && Enabled(t, step)
    ensures Reaches(s, more, Do(t, step))
  {
    RunsSnoc(s, steps, step);
    more := steps + [step];
  }

  function Start(capacity: nat, batchSize: nat): State {
    State(capacity, batchSize, [], false, [], false, [], [], 0, 0)
  }

  lemma {:induction false} RunKeepsInv(s: State, steps: seq<Step>)
    requires Inv(s) && Runs(s, steps)
    ensures Inv(Exec(s, steps))
    decreases |steps|
  {
    if steps != [] {
      StepKeepsInv(s, steps[0]);
      RunKeepsInv(Do(s, steps[0]), steps[1..]);
    }
  }

  /**
   For every interleaving: accepted observations are flushed, batched or still queued, once each and in order;
   batches have between one and `batchSize` entries; what is not accepted is dropped; and when the flusher has
   finished, everything accepted has been flushed.
   */
  lemma Conservation(capacity: nat, batchSize: nat, steps: seq<Step>)
    requires batchSize >= 1 && Runs(Start(capacity, batchSize), steps)
    ensures var s := Exec(Start(capacity, batchSize), steps);
            && Flatten(s.flushed) + s.batch + s.channel == s.accepted
            && Sized(s.flushed, batchSize)
            && |s.accepted| + s.dropped == s.logged
            && (s.done ==> Flatten(s.flushed) == s.accepted)
  {
    RunKeepsInv(Start(capacity, batchSize), steps);
    KeepsSize(Start(capacity, batchSize), steps);
  }

  lemma {:induction false} KeepsSize(s: State, steps: seq<Step>)
    requires Runs(s, steps)
    ensures Exec(s, steps).batchSize == s.batchSize && Exec(s, steps).capacity == s.capacity
    decreases |steps|
  {
    if steps != [] {
      KeepsSize(Do(s, steps[0]), steps[1..]);
    }
  }

  /** After the channel is closed the flusher can always finish, in as many receives as are queued. */
  lemma {:induction false} ShutdownCompletes(s: State) returns (steps: seq<Step>)
    requires Inv(s) && s.closed && !s.done
    ensures Runs(s, steps) && |steps| == |s.channel| + 1
    ensures var t := Exec(s, steps); t.done && t.accepted == s.accepted && Flatten(t.flushed) == s.accepted
    decreases |s.channel|
  {
    if s.channel == [] {
      StepKeepsInv(s, Finish);
      steps := [Finish];
      assert steps[1..] == [];
    } else {
      StepKeepsInv(s, Receive);
      var rest := ShutdownCompletes(Do(s, Receive));
      steps := [Receive] + rest;
      assert steps[1..] == rest;
    }
  }

  /**
   The flusher empties its batch at every tick and when it fills up, and only then: each observation received joins the
   batch, and what it flushes is the whole batch, never an empty one.
   */
  lemma FlushesFullOrOnTick(s: State, step: Step)
    requires Inv(s) && Enabled(s, step)
    ensures var t := Do(s, step);
            match step
            case Receive =>
              if |s.batch| + 1 == s.batchSize then t.batch == [] && t.flushed == s.flushed + [s.batch + [s.channel[0]]]
              else t.batch == s.batch + [s.channel[0]] && t.flushed == s.flushed
            case FlushTick => t.batch == [] && t.flushed == s.flushed + (if s.batch == [] then [] else [s.batch])
            case Finish => t.batch == [] && t.flushed == s.flushed + (if s.batch == [] then [] else [s.batch])
            case Log(_) => t.batch == s.batch && t.flushed == s.flushed
            case Close => t.batch == s.batch && t.flushed == s.flushed
  {
  }

  /** A tick at any point of any run leaves only the queued observations unflushed. */
  lemma TickFlushesAll(capacity: nat, batchSize: nat, steps: seq<Step>)
    requires batchSize >= 1 && Runs(Start(capacity, batchSize), steps)
    requires Enabled(Exec(Start(capacity, batchSize), steps), FlushTick)
    ensures var t := Do(Exec(Start(capacity, batchSize), steps), FlushTick);
            Flatten(t.flushed) + t.channel == t.accepted
  {
    var s := Exec(Start(capacity, batchSize), steps);
    RunKeepsInv(Start(capacity, batchSize), steps);
    StepKeepsInv(s, FlushTick);
    FlushesFullOrOnTick(s, FlushTick);
    var t := Do(s, FlushTick);
    assert Flatten(t.flushed) + [] == Flatten(t.flushed);
  }

  /**
   In every run an observation is dropped exactly when the flusher is behind by the whole channel: as many accepted
   ones as the channel holds are neither flushed nor in the batch.
   */
  lemma DroppedIffBehind(capacity: nat, batchSize: nat, steps: seq<Step>, obs: Observation)
    requires batchSize >= 1 && Runs(Start(capacity, batchSize), steps)
    requires Enabled(Exec(Start(capacity, batchSize), steps), Log(obs))
    ensures var s := Exec(Start(capacity, batchSize), steps); var t := Do(s, Log(obs));
            var behind := |s.accepted| - |Flatten(s.flushed)| - |s.batch|;
            && 0 <= behind <= capacity
            && (t.accepted == s.accepted + [obs] <==> behind < capacity)
            && (t.dropped == s.dropped + 1 <==> behind == capacity)
  {
    RunKeepsInv(Start(capacity, batchSize), steps);
    KeepsSize(Start(capacity, batchSize), steps);
  }

  /** The logger with its channel and the flusher with its batch; what happened so far is ghost. */
  class BufferedLogger {
    const capacity: nat
    const batchSize: nat
    var channel: seq<Observation>
    var closed: bool
    var batch: seq<Observation>
    var done: bool
    var flushed: seq<seq<Observation>>
    ghost var accepted: seq<Observation>
    ghost var dropped: nat
    ghost var logged: nat

    constructor (capacity: nat, batchSize: nat)
      ensures Current() == Start(capacity, batchSize)
    {
      this.capacity, this.batchSize := capacity, batchSize;
      channel, closed, batch, done, flushed := [], false, [], false, [];
      accepted, dropped, logged := [], 0, 0;
    }

    ghost function Current(): State
      reads this
    {
      State(capacity, batchSize, channel, closed, batch, done, flushed, accepted, dropped, logged)
    }

    /** Sends if the channel has room and otherwise drops, without waiting either way. */
    method LogObservation(obs: Observation)
      requires !closed
      modifies this
      ensures Current() == Do(old(Current()), Log(obs))
      ensures channel == old(channel) + if |old(channel)| < capacity then [obs] else []
      ensures batch == old(batch) && flushed == old(flushed) && closed == old(closed) && done == old(done)
    {
      if |channel| < capacity {
        channel := channel + [obs];
        accepted := accepted + [obs];
      } else {
        dropped := dropped + 1;
      }
      logged := logged + 1;
    }

    method CloseChannel()
      modifies this
      ensures Current() == Do(old(Current()), Close)
    {
      closed := true;
    }

    method FlushBatch()
      modifies this
      ensures Current() == Flush(old(Current()))
    {
      flushed := flushed + [batch];
      batch := [];
    }

    /** The flusher's case of a received observation. */
    method OnObservation()
      requires Enabled(Current(), Receive)
      modifies this
      ensures Current() == Do(old(Current()), Receive)
      ensures channel == old(channel)[1..] && closed == old(closed) && done == old(done)
      ensures if |old(batch)| + 1 >= batchSize
              then batch == [] && flushed == old(flushed) + [old(batch) + [old(channel)[0]]]
              else batch == old(batch) + [old(channel)[0]] && flushed == old(flushed)
    {
      batch, channel := batch + [channel[0]], channel[1..];
      if |batch| >= batchSize {
        FlushBatch();
      }
    }

    /** Its case of a tick. */
    method OnTick()
      requires Enabled(Current(), FlushTick)
      modifies this
      ensures Current() == Do(old(Current()), FlushTick)
      ensures batch == [] && flushed == old(flushed) + if old(batch) == [] then [] else [old(batch)]
      ensures channel == old(channel) && closed == old(closed) && done == old(done)
    {
      if |batch| > 0 {
        FlushBatch();
      }
    }

    /** Its case of the closed and empty channel. */
    method OnClosed()
      requires Enabled(Current(), Finish)
      modifies this
      ensures Current() == Do(old(Current()), Finish)
      ensures batch == [] && flushed == old(flushed) + if old(batch) == [] then [] else [old(batch)]
      ensures channel == old(channel) && done
    {
      if |batch| > 0 {
        FlushBatch();
      }
      done := true;
    }

    /**
     The flusher's loop, with whatever the senders and the shutdown do meanwhile, in any order that the channel and the
     select statement permit: the logger does exactly what the step model says.
     */
    method RunFlusher(schedule: seq<Step>)
      requires Runs(Current(), schedule)
      modifies this
      ensures Current() == Exec(old(Current()), schedule)
    {
      ghost var start := Current();
      assert schedule[0..] == schedule;
      for i := 0 to |schedule|
        invariant Runs(Current(), schedule[i..]) && Exec(Current(), schedule[i..]) == Exec(start, schedule)
      {
        assert schedule[i..][0] == schedule[i] && schedule[i..][1..] == schedule[i + 1..];
        match schedule[i] {
          case Log(obs) => LogObservation(obs);
          case Receive => OnObservation();
          case FlushTick => OnTick();
          case Close => CloseChannel();
          case Finish => OnClosed();
        }
      }
    }

    /** One turn of the flusher over a non-empty channel, with a tick first or not. */
    method Turn(tick: bool, ghost start: State, ghost steps: seq<Step>) returns (ghost more: seq<Step>)
      requires Reaches(start, steps, Current()) && channel != [] && !done
      modifies this
      ensures Reaches(start, more, Current())
      ensures channel == old(channel)[1..] && !done && closed == old(closed) && accepted == old(accepted)
    {
      more := steps;
      if tick {
        more := Take(start, more, Current(), FlushTick);
        OnTick();
      }
      more := Take(start, more, Current(), Receive);
      OnObservation();
    }

    /**
     The flusher's loop from the close on, with a tick wherever `ticks` says: a run of its steps at whose end all that
     was ever accepted has been flushed, each observation once and in order.
     */
    method DrainAfterClose(ticks: nat -> bool) returns (ghost steps: seq<Step>)
      requires Inv(Current()) && closed && !done
      modifies this
      ensures Reaches(old(Current()), steps, Current())
      ensures done && accepted == old(accepted) && Flatten(flushed) == accepted
    {
      ghost var start := Current();
      steps := [];
      var n: nat := 0;
      while channel != []
        invariant Reaches(start, steps, Current()) && closed && !done && accepted == old(accepted)
        decreases |channel|
      {
        steps := Turn(ticks(n), start, steps);
        n := n + 1;
      }
      steps := Take(start, steps, Current(), Finish);
      OnClosed();
      RunKeepsInv(start, steps);
    }
  }
}
