/**
 The consumer group of the reporting component on the server stream, with one consumer.

 After a start the consumer re-reads its pending entries from the beginning in pages of 50, handles and
 acknowledges each, and then reads new entries ten at a time. It may crash between any two of these actions.
 */
module Consumer {
  import opened ServerEvents
  import opened Replica
  import opened Recovery

  datatype Mode = Recovering(short: bool) | Reading

  /**
   `pending` are the delivered entries without acknowledgement by position, `work` the entries of the current
   read that are still to be handled, `handled` tells that the handler is done with the first of them.
   */
  datatype State = State(
    stream: seq<Event>, delivered: nat, pending: seq<nat>, mode: Mode, work: seq<nat>, handled: bool,
    replica: ReplicaTable)

  datatype Step =
    | Append(e: Event)
    | ReadPending
    | EndRecovery
    | ReadPendingFails
    | ReadNew(count: nat)
    | ReadNewLost(count: nat)
    | Handle
    | HandlerFails
    | Ack(takesEffect: bool)
    | Crash
    | StatusEvent(id: ServerId, status: string)

  const READ_COUNT := 10

  function Range(lo: nat, hi: nat): (r: seq<nat>)
    requires lo <= hi
    ensures |r| == hi - lo && forall i :: 0 <= i < |r| ==> r[i] == lo + i
  {
    seq(hi - lo, i requires 0 <= i => lo + i)
  }

  function Without(s: seq<nat>, x: nat): seq<nat> {
    if s == [] then [] else if s[0] == x then s[1..] else [s[0]] + Without(s[1..], x)
  }

  predicate CanRead(s: State, count: nat) {
    s.mode.Reading? && s.work == [] && count <= READ_COUNT && s.delivered + count <= |s.stream|
  }

  predicate Enabled(s: State, step: Step) {
    match step
    case Append(_) => true
    case ReadPending => s.mode == Recovering(false) && s.work == []
    case EndRecovery => s.mode == Recovering(true) && s.work == []
    case ReadPendingFails => s.mode == Recovering(false) && s.work == []
    case ReadNew(count) => CanRead(s, count)
    case ReadNewLost(count) => CanRead(s, count)
    case Handle => s.work != [] && !s.handled && s.work[0] < |s.stream|
    case HandlerFails => s.work != [] && !s.handled
    case Ack(_) => s.work != [] && s.handled
    case Crash => true
    case StatusEvent(_, _) => true
  }

  function Do(s: State, step: Step): State
    requires Enabled(s, step)
  {
    match step
    case Append(e) => s.(stream := s.stream + [e])
    case ReadPending =>
      if s.pending == [] then s.(mode := Reading)
      else s.(work := Page(s.pending), handled := false, mode := Recovering(|Page(s.pending)| < PAGE))
    case EndRecovery => s.(mode := Reading)
    case ReadPendingFails => s.(mode := Reading)
    case ReadNew(count) =>
      var read := Range(s.delivered, s.delivered + count);
      s.(delivered := s.delivered + count, pending := s.pending + read, work := read, handled := false)
    case ReadNewLost(count) =>
      s.(delivered := s.delivered + count, pending := s.pending + Range(s.delivered, s.delivered + count))
    case Handle => s.(replica := Replicate(s.replica, s.stream[s.work[0]]), handled := true)
    case HandlerFails => s.(work := s.work[1..])
    case Ack(takesEffect) =>
      s.(pending := if takesEffect then Without(s.pending, s.work[0]) else s.pending, work := s.work[1..],
         handled := false)
    case Crash => s.(mode := Recovering(false), work := [], handled := false)
    case StatusEvent(id, status) =>
      s.(replica := if id in s.replica then s.replica[id := s.replica[id].(status := status)] else s.replica)
  }

  /**
   No handler error, no lost acknowledgement, no recovery read that fails while entries are pending, and no read that
   takes entries but whose reply is lost: those become pending without being handled.
   */
  predicate Clean(s: State, step: Step) {
    && !step.HandlerFails? && step != Ack(false) && (step.ReadPendingFails? ==> s.pending == [])
    && (step.ReadNewLost? ==> step.count == 0)
  }

  const START := State([], 0, [], Recovering(false), [], false, map[])

  /**
   The replica has the effects of the first `n` entries. All but possibly the last of those are acknowledged, the
   pending entries are the delivered ones from there on, and work is done from the front of them.
   */
  ghost predicate Inv(s: State, n: nat) {
    && s.delivered <= |s.stream| && n <= s.delivered && |s.pending| <= s.delivered
    && s.pending == Range(Acked(s), s.delivered)
    && |s.work| <= |s.pending| && s.work == s.pending[..|s.work|]
    && Acked(s) <= n <= Acked(s) + 1
    && (s.handled ==> s.work != [] && n == Acked(s) + 1)
    && (s.mode != Recovering(false) ==> s.work == s.pending)
    && Columns(s.replica) == TableColumns(Fold(s.stream[..n]))
  }

  function Acked(s: State): nat
    requires |s.pending| <= s.delivered
  {
    s.delivered - |s.pending|
  }

  lemma HandleKeepsInv(s: State, n: nat) returns (n': nat)
    requires Inv(s, n) && Enabled(s, Handle)
    ensures n <= n' && Inv(Do(s, Handle), n')
  {
    var a := Acked(s);
    var e := s.stream[a];
    n' := a + 1;
    assert s.work[0] == a;
    assert s.stream[..a + 1] == s.stream[..a] + [e];
    FoldAppend(s.stream[..a], e);
    if n == a {
      ReplicateFollowsApply(s.replica, Fold(s.stream[..a]), e);
    } else {
      ReplicateFollowsApply(s.replica, Fold(s.stream[..a + 1]), e);
      assert Apply(Apply(Fold(s.stream[..a]), e), e) == Apply(Fold(s.stream[..a]), e);
    }
  }

  lemma AckKeepsInv(s: State, n: nat)
    requires Inv(s, n) && Enabled(s, Ack(true))
    ensures Inv(Do(s, Ack(true)), n)
  {
    assert s.work[0] == s.pending[0];
    assert Without(s.pending, s.work[0]) == s.pending[1..];
    assert s.work[1..] == s.pending[1..][..|s.work| - 1];
  }

  lemma ReadKeepsInv(s: State, n: nat, step: Step)
    requires Inv(s, n) && Enabled(s, step) && Clean(s, step)
    requires step.ReadPending? || step.EndRecovery? || step.ReadPendingFails? || step.ReadNew? ||
             step.ReadNewLost? || step.Crash?
    ensures Inv(Do(s, step), n)
  {
  }

  lemma StepKeepsInv(s: State, n: nat, step: Step) returns (n': nat)
    requires Inv(s, n) && Enabled(s, step) && Clean(s, step)
    ensures n <= n' && Inv(Do(s, step), n')
  {
    n' := n;
    match step
    case Append(e) => assert (s.stream + [e])[..n] == s.stream[..n];
    case Handle => n' := HandleKeepsInv(s, n);
    case Ack(_) => AckKeepsInv(s, n);
    case StatusEvent(id, status) => assert Columns(Do(s, step).replica) == Columns(s.replica);
    case _ => ReadKeepsInv(s, n, step);
  }

  ghost predicate Runs(s: State, steps: seq<Step>)
    decreases |steps|
  {
    steps == [] || (Enabled(s, steps[0]) && Runs(Do(s, steps[0]), steps[1..]))
  }

  ghost predicate CleanRun(s: State, steps: seq<Step>)
    requires Runs(s, steps)
    decreases |steps|
  {
    steps == [] || (Clean(s, steps[0]) && CleanRun(Do(s, steps[0]), steps[1..]))
  }

  ghost function Exec(s: State, steps: seq<Step>): State
    requires Runs(s, steps)
    decreases |steps|
  {
    if steps == [] then s else Exec(Do(s, steps[0]), steps[1..])
  }

  /**
   In every run without handler errors, lost acknowledgements, lost replies to reads that take entries, and recovery
   reads that fail over pending entries, the replica always shows a prefix of the stream, and that prefix never gets
   shorter, wherever the consumer crashes and resumes.
   */
  lemma {:induction false} PrefixConsistent(s: State, n: nat, steps: seq<Step>) returns (n': nat)
    requires Inv(s, n) && Runs(s, steps) && CleanRun(s, steps)
    ensures n <= n' && Inv(Exec(s, steps), n')
    decreases |steps|
  {
    n' := n;
    if steps != [] {
      var m := StepKeepsInv(s, n, steps[0]);
      n' := PrefixConsistent(Do(s, steps[0]), m, steps[1..]);
    }
  }

  /** Once everything is delivered and acknowledged, the prefix is the whole stream. */
  lemma DrainedReplica(s: State, n: nat)
    requires Inv(s, n) && s.delivered == |s.stream| && s.pending == []
    ensures Columns(s.replica) == TableColumns(Fold(s.stream))
  {
    assert s.stream[..n] == s.stream;
  }
}
