/**
 What becomes of the replica when a pending entry is left behind, because a recovery read or a handler fails or an
 acknowledgement is lost: newer entries overtake it, and its later replay can undo them for good.
 */
module Overtaking {
  import opened ServerEvents
  import opened Replica
  import opened Recovery
  import opened Consumer

  ghost predicate Drained(s: State) {
    s.delivered == |s.stream| && s.pending == []
  }

  ghost predicate Agrees(s: State) {
    Columns(s.replica) == TableColumns(Fold(s.stream))
  }

  /** Every clean continuation that delivers and acknowledges everything ends with the right replica. */
  ghost predicate Heals(s: State) {
    forall steps :: Runs(s, steps) && CleanRun(s, steps) && Drained(Exec(s, steps)) ==> Agrees(Exec(s, steps))
  }

  // ----- Extending a clean run -----

  ghost predicate Reaches(s: State, steps: seq<Step>, t: State) {
    Runs(s, steps) && CleanRun(s, steps) && Exec(s, steps) == t
  }

  lemma {:induction false} RunsSnoc(s: State, steps: seq<Step>, step: Step)
    requires Runs(s, steps) && Enabled(Exec(s, steps), step)
    ensures Runs(s, steps + [step]) && Exec(s, steps + [step]) == Do(Exec(s, steps), step)
    ensures CleanRun(s, steps) && Clean(Exec(s, steps), step) ==> CleanRun(s, steps + [step])
    decreases |steps|
  {
    if steps != [] {
      RunsSnoc(Do(s, steps[0]), steps[1..], step);
      assert (steps + [step])[1..] == steps[1..] + [step];
    }
  }

  lemma Take(s: State, steps: seq<Step>, t: State, step: Step) returns (more: seq<Step>, u: State)
    requires Reaches(s, steps, t) && Enabled(t, step) && Clean(t, step)
    ensures u == Do(t, step) && Reaches(s, more, u)
  {
    RunsSnoc(s, steps, step);
    more, u := steps + [step], Do(t, step);
  }

  // ----- Reading on with entries left behind, and recovering them at last -----

  lemma {:induction false} WithoutLast(s: seq<nat>, x: nat)
    requires x !in s
    ensures Without(s + [x], x) == s
  {
    if s != [] {
      assert (s + [x])[1..] == s[1..] + [x];
      WithoutLast(s[1..], x);
    }
  }

  /** Between two reads, with only delivered entries pending. */
  ghost predicate Waiting(s: State) {
    && s.mode.Reading? && s.work == [] && !s.handled && s.delivered <= |s.stream|
    && forall m :: m in s.pending ==> m < s.delivered
  }

  /** The undelivered entries are read, handled and acknowledged one by one; what was pending stays so. */
  lemma ReadOn(s: State, steps: seq<Step>, t: State) returns (more: seq<Step>, u: State)
    requires Reaches(s, steps, t) && Waiting(t)
    ensures Reaches(s, more, u) && Waiting(u)
    ensures u.delivered == |u.stream| && u.stream == t.stream && u.pending == t.pending
  {
    more, u := steps, t;
    while u.delivered < |u.stream|
      invariant Reaches(s, more, u) && Waiting(u) && u.stream == t.stream && u.pending == t.pending
      decreases |u.stream| - u.delivered
    {
      WithoutLast(u.pending, u.delivered);
      more, u := Take(s, more, u, ReadNew(1));
      assert u.pending == t.pending + [u.work[0]];
      more, u := Take(s, more, u, Handle);
      more, u := Take(s, more, u, Ack(true));
    }
  }

  /** The replica has a row for the event's server unless the event deleted it. */
  predicate Shows(r: ReplicaTable, e: Event) {
    e.Key() in r <==> !e.ServerDeleted?
  }

  /** A recovery that still has entries pending, the last of them `last`. */
  ghost predicate Recovers(s: State, last: nat) {
    && s.mode.Recovering? && s.delivered <= |s.stream| && last < |s.stream|
    && s.work <= s.pending && !s.handled && (s.mode == Recovering(true) ==> s.work == s.pending)
    && (forall m :: m in s.pending ==> m < |s.stream|)
    && (if s.pending == [] then Shows(s.replica, s.stream[last]) else s.pending[|s.pending| - 1] == last)
  }

  lemma HandleNext(s: State, steps: seq<Step>, t: State, last: nat) returns (more: seq<Step>, u: State)
    requires Reaches(s, steps, t) && Recovers(t, last) && t.work != []
    ensures Reaches(s, more, u) && Recovers(u, last)
    ensures u.stream == t.stream && u.delivered == t.delivered && |u.pending| < |t.pending|
  {
    assert t.work[0] == t.pending[0] && t.pending[0] in t.pending;
    assert Without(t.pending, t.work[0]) == t.pending[1..];
    assert forall m :: m in t.pending[1..] ==> m in t.pending;
    more, u := Take(s, steps, t, Handle);
    more, u := Take(s, more, u, Ack(true));
  }

  /** Recovery can handle and acknowledge every pending entry, the last one last. */
  lemma RecoverAll(s: State, steps: seq<Step>, t: State, last: nat) returns (more: seq<Step>, u: State)
    requires Reaches(s, steps, t) && Recovers(t, last)
    ensures Reaches(s, more, u) && Recovers(u, last) && u.pending == []
    ensures u.stream == t.stream && u.delivered == t.delivered
  {
    more, u := steps, t;
    while u.pending != []
      invariant Reaches(s, more, u) && Recovers(u, last) && u.stream == t.stream && u.delivered == t.delivered
      decreases |u.pending|, u.work == []
    {
      if u.work == [] {
        more, u := Take(s, more, u, ReadPending);
      } else {
        more, u := HandleNext(s, more, u, last);
      }
    }
  }

  // ----- The entry left behind wins -----

  /** An event after which the server exists exactly if it did not exist after `e`. */
  function Opposite(e: Event): (o: Event)
    ensures o.Key() == e.Key() && (o.ServerDeleted? <==> !e.ServerDeleted?)
  {
    if e.ServerDeleted? then ServerCreated(Server(e.id, "", "", UNKNOWN, "", 0, "", "", "", 0))
    else ServerDeleted(e.row.id)
  }

  /** A consumer that reads on past a pending entry may end, drained and without another fault, with a wrong replica. */
  lemma LeftBehindWins(s: State, steps: seq<Step>, t: State)
    requires Reaches(s, steps, t) && Waiting(t) && t.pending != []
    ensures !Heals(s)
  {
    var last := t.pending[|t.pending| - 1];
    assert last in t.pending;
    var e := t.stream[last];
    var more, u := Take(s, steps, t, Append(Opposite(e)));
    more, u := ReadOn(s, more, u);
    more, u := Take(s, more, u, Crash);
    more, u := RecoverAll(s, more, u, last);
    FoldAppend(t.stream, Opposite(e));
    assert e.Key() in Columns(u.replica) <==> e.Key() !in TableColumns(Fold(u.stream));
  }

  /** Without a fault every continuation leads to the right replica. */
  lemma CleanHeals(s: State, n: nat)
    requires Inv(s, n)
    ensures Heals(s)
  {
    forall steps | Runs(s, steps) && CleanRun(s, steps) && Drained(Exec(s, steps)) ensures Agrees(Exec(s, steps)) {
      var n' := PrefixConsistent(s, n, steps);
      DrainedReplica(Exec(s, steps), n');
    }
  }

  /**
   A failed recovery read does no harm exactly when nothing is pending: otherwise some continuation without any
   further fault drains the stream and leaves the replica wrong.
   */
  lemma FailedRecoveryHealsIff(s: State, n: nat)
    requires Inv(s, n) && Enabled(s, ReadPendingFails)
    ensures Heals(Do(s, ReadPendingFails)) <==> s.pending == []
  {
    var t := Do(s, ReadPendingFails);
    if s.pending == [] {
      CleanHeals(t, n);
    } else {
      LeftBehindWins(t, [], t);
    }
  }

  /** A lost reply to a read of new entries does no harm exactly when the read took none. */
  lemma LostReplyHealsIff(s: State, n: nat, count: nat)
    requires Inv(s, n) && Enabled(s, ReadNewLost(count))
    ensures Heals(Do(s, ReadNewLost(count))) <==> count == 0
  {
    var t := Do(s, ReadNewLost(count));
    if count == 0 {
      assert t.pending == s.pending;
      CleanHeals(t, n);
    } else {
      LeftBehindWins(t, [], t);
    }
  }

  /** The rest of a read can be handled and acknowledged around the entry left behind in front of it. */
  lemma FinishRead(s: State, a: nat) returns (steps: seq<Step>, t: State)
    requires s.mode != Recovering(false) && !s.handled && a < s.delivered <= |s.stream|
    requires s.work == Range(a + 1, s.delivered) && s.pending == [a] + s.work
    ensures Reaches(s, steps, t) && Waiting(t) && t.pending == [a]
  {
    steps, t := [], s;
    var x: nat := a + 1;
    while t.work != []
      invariant Reaches(s, steps, t) && t.mode == s.mode && t.stream == s.stream && t.delivered == s.delivered
      invariant a < x <= s.delivered && !t.handled && t.work == Range(x, s.delivered) && t.pending == [a] + t.work
      decreases |t.work|
    {
      assert t.work[0] == x && ([a] + t.work)[1..] == t.work;
      assert Without(t.pending, x) == [a] + Without(t.work, x) == [a] + t.work[1..];
      steps, t := Take(s, steps, t, Handle);
      steps, t := Take(s, steps, t, Ack(true));
      x := x + 1;
    }
    if t.mode == Recovering(true) {
      steps, t := Take(s, steps, t, EndRecovery);
    }
  }

  /** A handler error or a lost acknowledgement does the same harm, but in a full recovery page, which is read again. */
  lemma EntryLeftBehind(s: State, n: nat, step: Step)
    requires Inv(s, n) && Enabled(s, step) && (step == HandlerFails || step == Ack(false))
    requires s.mode != Recovering(false)
    ensures !Heals(Do(s, step))
  {
    var t := Do(s, step);
    var steps, u := FinishRead(t, Acked(s));
    LeftBehindWins(t, steps, u);
  }

  /** A run from the start in which handlers succeed and acknowledgements arrive. */
  ghost predicate Careful(steps: seq<Step>, t: State) {
    && Runs(START, steps) && Exec(START, steps) == t
    && forall i :: 0 <= i < |steps| ==> !steps[i].HandlerFails? && !steps[i].ReadNewLost? && steps[i] != Ack(false)
  }

  lemma Go(steps: seq<Step>, t: State, step: Step) returns (more: seq<Step>, u: State)
    requires Careful(steps, t) && Enabled(t, step)
    requires !step.HandlerFails? && !step.ReadNewLost? && step != Ack(false)
    ensures u == Do(t, step) && Careful(more, u)
  {
    RunsSnoc(START, steps, step);
    more, u := steps + [step], Do(t, step);
  }

  /** The consumer went past entry 0, which is still pending. */
  lemma SkippingRun(x: Event) returns (steps: seq<Step>, t: State)
    ensures Careful(steps, t) && t == State([x], 1, [0], Reading, [], false, map[])
  {
    steps, t := Go([], START, Append(x));
    steps, t := Go(steps, t, ReadPending);
    steps, t := Go(steps, t, ReadNew(1));
    steps, t := Go(steps, t, Crash);
    steps, t := Go(steps, t, ReadPendingFails);
  }

  /** Entry 1 is read and handled, and after a restart entry 0. */
  lemma SwappedRun(x: Event, y: Event) returns (steps: seq<Step>, t: State)
    ensures Careful(steps, t) && t.stream == [x, y] && Drained(t)
    ensures t.replica == Replicate(Replicate(map[], y), x)
  {
    steps, t := SkippingRun(x);
    steps, t := Go(steps, t, Append(y));
    steps, t := Go(steps, t, ReadNew(1));
    assert t.pending == [0] + [1] && t.work == [1];
    WithoutLast([0], 1);
    steps, t := Go(steps, t, Handle);
    steps, t := Go(steps, t, Ack(true));
    steps, t := Go(steps, t, Crash);
    steps, t := Go(steps, t, ReadPending);
    steps, t := Go(steps, t, Handle);
    steps, t := Go(steps, t, Ack(true));
  }

  /**
   An update that overtakes the creation it follows is lost: handlers succeed and acknowledgements arrive, and one
   failed recovery read is enough for a drained replica to keep the old name.
   */
  lemma OvertakenUpdateIsLost(a: Server, b: Server) returns (steps: seq<Step>)
    requires a.id == b.id && a.name != b.name
    ensures Runs(START, steps) && Drained(Exec(START, steps)) && !Agrees(Exec(START, steps))
    ensures Exec(START, steps).stream == [ServerCreated(a), ServerUpdated(b)]
    ensures forall i :: 0 <= i < |steps| ==> !steps[i].HandlerFails? && !steps[i].ReadNewLost? && steps[i] != Ack(false)
  {
    var x, y, t := ServerCreated(a), ServerUpdated(b), START;
    steps, t := SwappedRun(x, y);
    FoldAppend([x], y);
    assert t.stream == [x] + [y];
    assert Columns(t.replica)[a.id].0 == a.name && TableColumns(Fold(t.stream))[a.id].0 == b.name;
  }
}
