/**
 Consumer groups over one Redis stream: delivery, handling, acknowledgement, and the claim pass that retries stale
 messages and moves them to the dead-letter stream.

 Each Redis command and each handler call is one step, and a group may crash between any two. Commands whose errors
 the code ignores may fail without effect. The retry counters live in one hash per stream, so all groups of the stream
 share them. `handled`, `dead`, `dropped`, `reset` and `calls` are history: what the run has done so far; a group resets
 a counter when it removes it after an acknowledgement that took effect.
 */
module Subscriber {
  import opened Collections

  type Values = string

  /** The command that a claim pass executes next for the first message it holds. */
  datatype Pc = Increment | CallHandler | AckHandled | DeleteCounter | AddDead | AckDead | DeleteDead

  datatype Group = Group(
    delivered: nat, pending: set<nat>,
    work: seq<nat>, workHandled: bool, claiming: bool, claim: seq<nat>, pc: Pc,
    handled: set<nat>, dead: set<nat>, dropped: set<nat>, reset: set<nat>)

  datatype State = State(
    messages: seq<Values>, counters: map<nat, nat>, deadLetters: seq<Values>, groups: seq<Group>, calls: map<nat, nat>)

  /** A command that returns a value may also take effect without being answered, which the code takes for zero. */
  datatype Outcome = Answered | Unanswered | Failed

  datatype Action =
    | Deliver(count: nat, answered: bool)
    | Recover(page: seq<nat>)
    | StartClaims
    | Handle(ok: bool)
    | Ack(takesEffect: bool)
    | Claim(page: seq<nat>)
    | IncrementCounter(outcome: Outcome)
    | CallClaimed(ok: bool)
    | AckClaimed(takesEffect: bool)
    | DeleteClaimedCounter(takesEffect: bool)
    | AddDeadLetter(takesEffect: bool)
    | AckDeadLetter(takesEffect: bool)
    | DeleteDeadCounter(takesEffect: bool)
    | Crash

  datatype Step = Publish(values: Values) | By(group: nat, action: Action)

  const RETRY_LIMIT := 3

  function Get(m: map<nat, nat>, k: nat): nat {
    if k in m then m[k] else 0
  }

  predicate At(g: Group, pc: Pc) {
    g.claim != [] && g.pc == pc
  }

  /** A group works off its pending list before it claims; a claimed message is stale, so the main loop is not at it. */
  predicate CanDo(messages: nat, g: Group, a: Action) {
    match a
    case Deliver(count, _) => g.claiming && g.work == [] && count <= 10 && g.delivered + count <= messages
    case Recover(page) => !g.claiming && g.work == [] && |page| <= 50 && forall m :: m in page ==> m in g.pending
    case StartClaims => !g.claiming && g.work == []
    case Handle(_) => g.work != [] && !g.workHandled
    case Ack(_) => g.work != [] && g.workHandled
    case Claim(page) =>
      g.claiming && g.claim == [] && Distinct(page) && forall m :: m in page ==> m in g.pending && m !in g.work
    case IncrementCounter(_) => At(g, Increment)
    case CallClaimed(_) => At(g, CallHandler)
    case AckClaimed(_) => At(g, AckHandled)
    case DeleteClaimedCounter(_) => At(g, DeleteCounter)
    case AddDeadLetter(_) => At(g, AddDead) && g.claim[0] < messages
    case AckDeadLetter(_) => At(g, AckDead)
    case DeleteDeadCounter(_) => At(g, DeleteDead)
    case Crash => true
  }

  function Fresh(delivered: nat, count: nat): (r: seq<nat>)
    ensures |r| == count && forall m :: m in r <==> delivered <= m < delivered + count
  {
    if count == 0 then [] else Fresh(delivered, count - 1) + [delivered + count - 1]
  }

  function NextClaim(g: Group): Group
    requires g.claim != []
  {
    g.(claim := g.claim[1..], pc := Increment)
  }

  /** The first claimed message is acknowledged, or not if the command fails. */
  function Acked(g: Group, takesEffect: bool): Group
    requires g.claim != []
  {
    if takesEffect then g.(pending := g.pending - {g.claim[0]}) else g
  }

  /** The pass is done with its first message; a removed counter is a reset if the message was acknowledged. */
  function Removed(g: Group, takesEffect: bool): Group
    requires g.claim != []
  {
    NextClaim(if takesEffect && g.claim[0] !in g.pending then g.(reset := g.reset + {g.claim[0]}) else g)
  }

  /** The group's own side of an action; `retries` is the counter value the increment returned. */
  function Act(g: Group, a: Action, messages: nat, retries: nat): Group
    requires CanDo(messages, g, a)
  {
    match a
    case Deliver(count, answered) =>
      var read := Fresh(g.delivered, count);
      g.(delivered := g.delivered + count, pending := g.pending + (set m | m in read),
         work := if answered then read else [], workHandled := false)
    case Recover(page) => g.(work := page, workHandled := false)
    case StartClaims => g.(claiming := true)
    case Handle(ok) =>
      if ok then g.(handled := g.handled + {g.work[0]}, workHandled := true) else g.(work := g.work[1..])
    case Ack(takesEffect) =>
      g.(pending := if takesEffect then g.pending - {g.work[0]} else g.pending, work := g.work[1..],
         workHandled := false)
    case Claim(page) => g.(claim := page, pc := Increment)
    case IncrementCounter(_) => g.(pc := if retries >= RETRY_LIMIT then AddDead else CallHandler)
    case CallClaimed(ok) => if ok then g.(handled := g.handled + {g.claim[0]}, pc := AckHandled) else NextClaim(g)
    case AckClaimed(takesEffect) => Acked(g, takesEffect).(pc := DeleteCounter)
    case DeleteClaimedCounter(takesEffect) => Removed(g, takesEffect)
    case AddDeadLetter(takesEffect) =>
      if takesEffect then g.(dead := g.dead + {g.claim[0]}, pc := AckDead)
      else g.(dropped := g.dropped + {g.claim[0]}, pc := AckDead)
    case AckDeadLetter(takesEffect) => Acked(g, takesEffect).(pc := DeleteDead)
    case DeleteDeadCounter(takesEffect) => Removed(g, takesEffect)
    case Crash => g.(work := [], workHandled := false, claiming := false, claim := [], pc := Increment)
  }

  predicate Enabled(s: State, step: Step) {
    step.By? ==> step.group < |s.groups| && CanDo(|s.messages|, s.groups[step.group], step.action)
  }

  /** What the increment returns: zero if it is not answered, because its error is ignored. */
  function Retries(s: State, g: Group, a: Action): nat {
    if a == IncrementCounter(Answered) && g.claim != [] then Get(s.counters, g.claim[0]) + 1 else 0
  }

  function Do(s: State, step: Step): State
    requires Enabled(s, step)
  {
    match step
    case Publish(values) => s.(messages := s.messages + [values])
    case By(group, a) =>
      var g := s.groups[group];
      var retries := Retries(s, g, a);
      var t := s.(groups := s.groups[group := Act(g, a, |s.messages|, retries)]);
      match a
      case IncrementCounter(outcome) =>
        if outcome.Failed? then t
        else t.(counters := s.counters[g.claim[0] := Get(s.counters, g.claim[0]) + 1])
      case CallClaimed(_) => t.(calls := s.calls[g.claim[0] := Get(s.calls, g.claim[0]) + 1])
      case DeleteClaimedCounter(takesEffect) => if takesEffect then t.(counters := s.counters - {g.claim[0]}) else t
      case DeleteDeadCounter(takesEffect) => if takesEffect then t.(counters := s.counters - {g.claim[0]}) else t
      case AddDeadLetter(takesEffect) =>
        if takesEffect then t.(deadLetters := s.deadLetters + [s.messages[g.claim[0]]]) else t
      case _ => t
  }

  ghost predicate Runs(s: State, steps: seq<Step>)
    decreases |steps|
  {
    steps == [] || (Enabled(s, steps[0]) && Runs(Do(s, steps[0]), steps[1..]))
  }

  ghost function Exec(s: State, steps: seq<Step>): State
    requires Runs(s, steps)
    decreases |steps|
  {
    if steps == [] then s else Exec(Do(s, steps[0]), steps[1..])
  }

  const NEW_GROUP := Group(0, {}, [], false, false, [], Increment, {}, {}, {}, {})

  /** A stream with `n` groups that have read nothing. */
  function Start(n: nat): State {
    State([], map[], [], seq(n, _ => NEW_GROUP), map[])
  }

  // ----- No message is lost -----

  ghost predicate Accounted(g: Group, m: nat) {
    m in g.pending || m in g.handled || m in g.dead || m in g.dropped
  }

  /** Nothing is held that was not delivered, and the program counters know what happened before. */
  ghost predicate Placed(messages: nat, g: Group) {
    && g.delivered <= messages
    && (forall m :: m in g.pending ==> m < g.delivered)
    && (forall m :: m in g.dead ==> m < g.delivered)
    && (forall m :: m in g.claim ==> m < g.delivered)
    && (g.workHandled ==> g.work != [] && g.work[0] in g.handled)
    && (At(g, AckHandled) || At(g, DeleteCounter) ==> g.claim[0] in g.handled)
    && (At(g, AckDead) || At(g, DeleteDead) ==> g.claim[0] in g.dead || g.claim[0] in g.dropped)
  }

  ghost predicate AllAccounted(g: Group) {
    forall m: nat :: m < g.delivered ==> Accounted(g, m)
  }

  ghost predicate GroupOk(messages: nat, g: Group) {
    Placed(messages, g) && AllAccounted(g)
  }

  /** A message that a group holds dead is in the dead-letter stream. */
  ghost predicate DeadKept(s: State, g: Group)
    requires g.delivered <= |s.messages| && forall m :: m in g.dead ==> m < g.delivered
  {
    forall m :: m in g.dead ==> s.messages[m] in s.deadLetters
  }

  ghost predicate Conserved(s: State) {
    forall i :: 0 <= i < |s.groups| ==> GroupOk(|s.messages|, s.groups[i]) && DeadKept(s, s.groups[i])
  }

  predicate OfMainLoop(a: Action) {
    a.Deliver? || a.Recover? || a.StartClaims? || a.Handle? || a.Ack? || a.Claim? || a.Crash?
  }

  lemma MainKeepsPlaced(messages: nat, g: Group, a: Action, retries: nat)
    requires Placed(messages, g) && CanDo(messages, g, a) && OfMainLoop(a)
    ensures Placed(messages, Act(g, a, messages, retries))
  {
  }

  lemma CallKeepsPlaced(messages: nat, g: Group, a: Action, retries: nat)
    requires Placed(messages, g) && CanDo(messages, g, a) && (a.IncrementCounter? || a.CallClaimed?)
    ensures Placed(messages, Act(g, a, messages, retries))
  {
    assert forall m :: m in g.claim[1..] ==> m in g.claim;
  }

  lemma AckKeepsPlaced(messages: nat, g: Group, a: Action, retries: nat)
    requires Placed(messages, g) && CanDo(messages, g, a) && (a.AckClaimed? || a.AckDeadLetter?)
    ensures Placed(messages, Act(g, a, messages, retries))
  {
  }

  lemma RemoveKeepsPlaced(messages: nat, g: Group, a: Action, retries: nat)
    requires Placed(messages, g) && CanDo(messages, g, a) && (a.DeleteClaimedCounter? || a.DeleteDeadCounter?)
    ensures Placed(messages, Act(g, a, messages, retries))
  {
    assert forall m :: m in g.claim[1..] ==> m in g.claim;
  }

  lemma ActKeepsPlaced(messages: nat, g: Group, a: Action, retries: nat)
    requires Placed(messages, g) && CanDo(messages, g, a)
    ensures Placed(messages, Act(g, a, messages, retries))
  {
    if OfMainLoop(a) {
      MainKeepsPlaced(messages, g, a, retries);
    } else if a.IncrementCounter? || a.CallClaimed? {
      CallKeepsPlaced(messages, g, a, retries);
    } else if a.AckClaimed? || a.AckDeadLetter? {
      AckKeepsPlaced(messages, g, a, retries);
    } else if a.DeleteClaimedCounter? || a.DeleteDeadCounter? {
      RemoveKeepsPlaced(messages, g, a, retries);
    } else {
      assert g.claim[0] in g.claim;
    }
  }

  lemma ActKeepsAccounted(messages: nat, g: Group, a: Action, retries: nat)
    requires Placed(messages, g) && AllAccounted(g) && CanDo(messages, g, a)
    ensures AllAccounted(Act(g, a, messages, retries))
  {
    var h := Act(g, a, messages, retries);
    forall m: nat | m < h.delivered ensures Accounted(h, m) {
      if m < g.delivered {
        assert Accounted(g, m);
      }
    }
  }

  /** What a group holds dead stays in the dead-letter stream, and what it adds is appended there. */
  lemma ActKeepsDead(s: State, i: nat, a: Action)
    requires i < |s.groups| && Placed(|s.messages|, s.groups[i]) && DeadKept(s, s.groups[i])
    requires Enabled(s, By(i, a)) && Placed(|s.messages|, Do(s, By(i, a)).groups[i])
    ensures DeadKept(Do(s, By(i, a)), Do(s, By(i, a)).groups[i])
  {
    var g, t := s.groups[i], Do(s, By(i, a));
    assert a == AddDeadLetter(true) ==> t.deadLetters[|s.deadLetters|] == s.messages[g.claim[0]];
  }

  lemma ActKeepsGroup(s: State, i: nat, a: Action)
    requires i < |s.groups| && GroupOk(|s.messages|, s.groups[i]) && DeadKept(s, s.groups[i]) && Enabled(s, By(i, a))
    ensures var t := Do(s, By(i, a)); GroupOk(|t.messages|, t.groups[i]) && DeadKept(t, t.groups[i])
  {
    var g := s.groups[i];
    ActKeepsPlaced(|s.messages|, g, a, Retries(s, g, a));
    ActKeepsAccounted(|s.messages|, g, a, Retries(s, g, a));
    ActKeepsDead(s, i, a);
  }

  lemma StepKeepsConserved(s: State, step: Step)
    requires Conserved(s) && Enabled(s, step)
    ensures Conserved(Do(s, step))
  {
    var t := Do(s, step);
    forall i | 0 <= i < |t.groups| ensures GroupOk(|t.messages|, t.groups[i]) && DeadKept(t, t.groups[i]) {
      assert GroupOk(|s.messages|, s.groups[i]) && DeadKept(s, s.groups[i]);
      if step.By? && i == step.group {
        ActKeepsGroup(s, i, step.action);
      } else {
        assert t.groups[i] == s.groups[i];
      }
    }
  }

  /** Dead-letter appends that fail although the pass goes on: the only way to drop a message. */
  predicate DropsDeadLetter(step: Step) {
    step.By? && step.action == AddDeadLetter(false)
  }

  lemma {:induction false} RunKeepsConserved(s: State, steps: seq<Step>)
    requires Conserved(s) && Runs(s, steps)
    ensures |Exec(s, steps).groups| == |s.groups| && Conserved(Exec(s, steps))
    decreases |steps|
  {
    if steps != [] {
      StepKeepsConserved(s, steps[0]);
      RunKeepsConserved(Do(s, steps[0]), steps[1..]);
    }
  }

  lemma {:induction false} DroppedByFailedAppend(s: State, steps: seq<Step>, i: nat)
    requires Runs(s, steps) && i < |s.groups| && forall j :: 0 <= j < |steps| ==> !DropsDeadLetter(steps[j])
    ensures i < |Exec(s, steps).groups| && Exec(s, steps).groups[i].dropped == s.groups[i].dropped
    decreases |steps|
  {
    if steps != [] {
      assert !DropsDeadLetter(steps[0]);
      DroppedByFailedAppend(Do(s, steps[0]), steps[1..], i);
    }
  }

  /**
   In every run with handler errors and crashes between any two commands, each delivered message is still pending
   in its group, was handled successfully by it, is in the dead-letter stream, or had its dead-letter append fail;
   and nothing is dropped in runs where no append fails.
   */
  lemma NoMessageLost(s: State, steps: seq<Step>, i: nat, m: nat)
    requires Conserved(s) && Runs(s, steps) && i < |s.groups|
    ensures |Exec(s, steps).groups| == |s.groups| && Conserved(Exec(s, steps))
    ensures var t := Exec(s, steps); var g := t.groups[i];
            m < g.delivered ==> m in g.pending || m in g.handled || t.messages[m] in t.deadLetters || m in g.dropped
    ensures (forall j :: 0 <= j < |steps| ==> !DropsDeadLetter(steps[j])) ==>
              Exec(s, steps).groups[i].dropped == s.groups[i].dropped
  {
    RunKeepsConserved(s, steps);
    if forall j :: 0 <= j < |steps| ==> !DropsDeadLetter(steps[j]) {
      DroppedByFailedAppend(s, steps, i);
    }
    var t := Exec(s, steps);
    assert GroupOk(|t.messages|, t.groups[i]) && DeadKept(t, t.groups[i]);
    assert m < t.groups[i].delivered ==> Accounted(t.groups[i], m);
  }

  lemma ActKeepsAcked(messages: nat, g: Group, a: Action, retries: nat, m: nat)
    requires CanDo(messages, g, a) && m < g.delivered && m !in g.pending
    ensures var h := Act(g, a, messages, retries); m < h.delivered && m !in h.pending
  {
    if a.Deliver? {
      assert m !in Fresh(g.delivered, a.count);
    }
  }

  lemma StepKeepsAcked(s: State, step: Step, i: nat, m: nat)
    requires Enabled(s, step) && i < |s.groups| && m < s.groups[i].delivered && m !in s.groups[i].pending
    ensures var t := Do(s, step);
            i < |t.groups| && m < t.groups[i].delivered && m !in t.groups[i].pending
  {
    if step.By? && step.group == i {
      ActKeepsAcked(|s.messages|, s.groups[i], step.action, Retries(s, s.groups[i], step.action), m);
    }
  }

  /** An acknowledged message never becomes pending again. */
  lemma {:induction false} AckedStaysAcked(s: State, steps: seq<Step>, i: nat, m: nat)
    requires Runs(s, steps) && i < |s.groups|
    requires m < s.groups[i].delivered && m !in s.groups[i].pending
    ensures i < |Exec(s, steps).groups| && m !in Exec(s, steps).groups[i].pending
    decreases |steps|
  {
    if steps != [] {
      StepKeepsAcked(s, steps[0], i, m);
      AckedStaysAcked(Do(s, steps[0]), steps[1..], i, m);
    }
  }

  // ----- The shared retry counter bounds the claim path -----

  function Count(groups: seq<Group>, p: Group -> bool): (n: nat)
    ensures n <= |groups|
  {
    if groups == [] then 0
    else Count(groups[..|groups| - 1], p) + (if p(groups[|groups| - 1]) then 1 else 0)
  }

  lemma {:induction false} CountUpdate(groups: seq<Group>, i: nat, g: Group, p: Group -> bool)
    requires i < |groups|
    ensures Count(groups[i := g], p) ==
            Count(groups, p) - (if p(groups[i]) then 1 else 0) + (if p(g) then 1 else 0)
  {
    var n := |groups| - 1;
    if i < n {
      CountUpdate(groups[..n], i, g, p);
      assert groups[i := g][..n] == groups[..n][i := g];
    } else {
      assert groups[i := g][..n] == groups[..n];
    }
  }

  lemma {:induction false} CountAll(groups: seq<Group>, p: Group -> bool, i: nat)
    requires i < |groups| && !p(groups[i])
    ensures Count(groups, p) < |groups|
  {
    if i < |groups| - 1 {
      CountAll(groups[..|groups| - 1], p, i);
    }
  }

  lemma {:induction false} CountNone(groups: seq<Group>, p: Group -> bool)
    requires forall i :: 0 <= i < |groups| ==> !p(groups[i])
    ensures Count(groups, p) == 0
  {
    if groups != [] {
      CountNone(groups[..|groups| - 1], p);
    }
  }

  /** The claim pass is about to call the handler on `m`, with the attempt already counted. */
  predicate IsCalling(g: Group, m: nat) {
    At(g, CallHandler) && g.claim[0] == m
  }

  function Calling(m: nat): Group -> bool {
    (g: Group) => IsCalling(g, m)
  }

  function HasReset(m: nat): Group -> bool {
    (g: Group) => m in g.reset
  }

  function Min(a: nat, b: nat): nat {
    if a < b then a else b
  }

  /** The claim pass is about to remove the counter of `m` although its acknowledgement was lost. */
  predicate IsUnacked(g: Group, m: nat) {
    (At(g, DeleteCounter) || At(g, DeleteDead)) && g.claim[0] == m && m in g.pending
  }

  function Unacked(m: nat): Group -> bool {
    (g: Group) => IsUnacked(g, m)
  }

  /** A claim pass holds pending messages that the main loop is not at, and resets a counter once per message. */
  ghost predicate ClaimOk(g: Group) {
    && Distinct(g.claim)
    && (forall m :: m in g.claim ==> m !in g.work && m < g.delivered)
    && (forall m :: m in g.work ==> m < g.delivered)
    && (forall m :: m in g.pending || m in g.reset ==> m < g.delivered)
    && (g.claim != [] ==> g.claiming && g.claim[0] !in g.reset)
    && (forall k :: 1 <= k < |g.claim| ==> g.claim[k] in g.pending)
    && (g.claim != [] && g.pc != DeleteCounter && g.pc != DeleteDead ==> g.claim[0] in g.pending)
    && g.reset !! g.pending
  }

  /**
   Calls made and about to be made on `m` are paid for by the current count, two per reset and `extra` for commands
   that failed; what a lost acknowledgement adds to `extra` is kept until the counter is removed.
   */
  ghost predicate Bounded(s: State, m: nat, extra: nat) {
    && Get(s.calls, m) + Owed(s.groups, m) <= Min(Get(s.counters, m), 2) + extra
    && (Count(s.groups, HasReset(m)) == |s.groups| ==> Get(s.counters, m) == 0)
  }

  function Owed(groups: seq<Group>, m: nat): int {
    Count(groups, Calling(m)) + 2 * Count(groups, Unacked(m)) - 2 * Count(groups, HasReset(m))
  }

  ghost predicate ClaimsOk(s: State) {
    forall i :: 0 <= i < |s.groups| ==> ClaimOk(s.groups[i])
  }

  /** How many further calls on `m` a failing command permits: one that is not counted, or another counter life. */
  function Excess(g: Group, a: Action, m: nat): nat {
    if g.claim == [] || g.claim[0] != m then 0
    else match a
      case IncrementCounter(outcome) => if outcome.Answered? then 0 else 1
      case AckClaimed(takesEffect) => if takesEffect then 0 else 2
      case AckDeadLetter(takesEffect) => if takesEffect then 0 else 2
      case _ => 0
  }

  /** The part of a step in the excess of its run. */
  function StepExcess(s: State, step: Step, m: nat): nat
    requires Enabled(s, step)
  {
    if step.By? then Excess(s.groups[step.group], step.action, m) else 0
  }

  /** One for each unanswered increment on `m` and two for each lost acknowledgement of `m` of the claim passes. */
  ghost function Excesses(s: State, steps: seq<Step>, m: nat): nat
    requires Runs(s, steps)
    decreases |steps|
  {
    if steps == [] then 0 else StepExcess(s, steps[0], m) + Excesses(Do(s, steps[0]), steps[1..], m)
  }

  lemma NextKeepsClaimOk(g: Group)
    requires ClaimOk(g) && (At(g, DeleteCounter) || At(g, DeleteDead) || At(g, CallHandler))
    ensures ClaimOk(NextClaim(g))
    ensures g.claim[0] !in g.pending ==> ClaimOk(NextClaim(g.(reset := g.reset + {g.claim[0]})))
  {
    var rest := g.claim[1..];
    assert forall k :: 0 <= k < |rest| ==> rest[k] == g.claim[k + 1] && g.claim[k + 1] in g.claim;
    assert g.claim[0] in g.claim;
  }

  lemma AckKeepsClaimOk(g: Group, takesEffect: bool, pc: Pc)
    requires ClaimOk(g) && ((At(g, AckHandled) && pc == DeleteCounter) || (At(g, AckDead) && pc == DeleteDead))
    ensures ClaimOk(Acked(g, takesEffect).(pc := pc))
  {
    assert g.claim[0] in g.pending;
    assert forall k :: 1 <= k < |g.claim| ==> g.claim[k] != g.claim[0];
  }

  lemma DeliverKeepsClaimOk(messages: nat, g: Group, count: nat, answered: bool)
    requires ClaimOk(g) && CanDo(messages, g, Deliver(count, answered))
    ensures ClaimOk(Act(g, Deliver(count, answered), messages, 0))
  {
    assert forall k :: 0 <= k < |g.claim| ==> g.claim[k] in g.claim;
  }

  lemma WorkKeepsClaimOk(messages: nat, g: Group, a: Action)
    requires ClaimOk(g) && CanDo(messages, g, a) && (a.Handle? || a.Ack?)
    ensures ClaimOk(Act(g, a, messages, 0))
  {
    assert g.work[0] in g.work && forall m :: m in g.work[1..] ==> m in g.work;
    assert forall k :: 0 <= k < |g.claim| ==> g.claim[k] in g.claim;
  }

  lemma ActKeepsClaimOk(messages: nat, g: Group, a: Action, retries: nat)
    requires ClaimOk(g) && CanDo(messages, g, a)
    ensures ClaimOk(Act(g, a, messages, retries))
  {
    match a
    case Deliver(count, answered) => DeliverKeepsClaimOk(messages, g, count, answered);
    case Handle(_) => WorkKeepsClaimOk(messages, g, a);
    case Ack(_) => WorkKeepsClaimOk(messages, g, a);
    case CallClaimed(_) => NextKeepsClaimOk(g);
    case AckClaimed(takesEffect) => AckKeepsClaimOk(g, takesEffect, DeleteCounter);
    case AckDeadLetter(takesEffect) => AckKeepsClaimOk(g, takesEffect, DeleteDead);
    case DeleteClaimedCounter(_) => NextKeepsClaimOk(g);
    case DeleteDeadCounter(_) => NextKeepsClaimOk(g);
    case Claim(page) => assert forall k :: 0 <= k < |page| ==> page[k] in page;
    case Recover(page) =>
    case StartClaims =>
    case IncrementCounter(_) =>
    case AddDeadLetter(_) =>
    case Crash =>
  }

  function Bit(b: bool): nat {
    if b then 1 else 0
  }

  /** What group `g` contributes to the two sides of the bound, beside the counts of the whole state. */
  function Owes(g: Group, m: nat): int {
    Bit(IsCalling(g, m)) + 2 * Bit(IsUnacked(g, m)) - 2 * Bit(m in g.reset)
  }

  /** An action pays for what it adds, and leaves no count behind when it is the group's reset. */
  ghost predicate Pays(s: State, i: nat, a: Action, m: nat)
    requires i < |s.groups| && CanDo(|s.messages|, s.groups[i], a)
  {
    var g, t := s.groups[i], Do(s, By(i, a));
    var h := t.groups[i];
    && Get(t.calls, m) - Get(s.calls, m) + Owes(h, m) - Owes(g, m)
       <= Min(Get(t.counters, m), 2) - Min(Get(s.counters, m), 2) + Excess(g, a, m)
    && (m in h.reset ==> Get(t.counters, m) == 0 || (Get(t.counters, m) == Get(s.counters, m) && m in g.reset))
  }

  /** What a group does beside `m`, or without holding a claim, leaves the quantities of `m` alone. */
  lemma OtherKeeps(s: State, i: nat, a: Action, m: nat)
    requires i < |s.groups| && CanDo(|s.messages|, s.groups[i], a) && ClaimOk(s.groups[i])
    requires s.groups[i].claim == [] || s.groups[i].claim[0] != m
    ensures var g, t := s.groups[i], Do(s, By(i, a)); var h := t.groups[i];
            && Get(t.calls, m) == Get(s.calls, m) && Get(t.counters, m) == Get(s.counters, m)
            && !IsCalling(h, m) && !IsUnacked(h, m) && (m in h.reset <==> m in g.reset)
  {
    match a
    case IncrementCounter(_) =>
    case CallClaimed(_) =>
    case DeleteClaimedCounter(_) =>
    case DeleteDeadCounter(_) =>
    case _ =>
  }

  lemma CallPays(s: State, i: nat, a: Action, m: nat)
    requires i < |s.groups| && CanDo(|s.messages|, s.groups[i], a) && ClaimOk(s.groups[i])
    requires s.groups[i].claim != [] && s.groups[i].claim[0] == m && (a.IncrementCounter? || a.CallClaimed?)
    ensures Pays(s, i, a, m)
  {
  }

  lemma AckPays(s: State, i: nat, a: Action, m: nat)
    requires i < |s.groups| && CanDo(|s.messages|, s.groups[i], a) && ClaimOk(s.groups[i])
    requires s.groups[i].claim != [] && s.groups[i].claim[0] == m && (a.AckClaimed? || a.AckDeadLetter?)
    ensures Pays(s, i, a, m)
  {
  }

  lemma ClaimPays(s: State, i: nat, a: Action, m: nat)
    requires i < |s.groups| && CanDo(|s.messages|, s.groups[i], a) && ClaimOk(s.groups[i])
    requires s.groups[i].claim != [] && s.groups[i].claim[0] == m
    ensures Pays(s, i, a, m)
  {
    assert s.groups[i].claim[0] in s.groups[i].claim;
    match a
    case IncrementCounter(_) => CallPays(s, i, a, m);
    case CallClaimed(_) => CallPays(s, i, a, m);
    case AckClaimed(_) => AckPays(s, i, a, m);
    case AckDeadLetter(_) => AckPays(s, i, a, m);
    case DeleteClaimedCounter(_) =>
    case DeleteDeadCounter(_) =>
    case _ =>
  }

  lemma ActPays(s: State, i: nat, a: Action, m: nat)
    requires i < |s.groups| && CanDo(|s.messages|, s.groups[i], a) && ClaimOk(s.groups[i])
    ensures Pays(s, i, a, m)
  {
    if s.groups[i].claim == [] || s.groups[i].claim[0] != m {
      OtherKeeps(s, i, a, m);
    } else {
      ClaimPays(s, i, a, m);
    }
  }

  lemma OwedUpdate(groups: seq<Group>, i: nat, h: Group, m: nat)
    requires i < |groups|
    ensures Owed(groups[i := h], m) == Owed(groups, m) + Owes(h, m) - Owes(groups[i], m)
    ensures m !in h.reset ==> Count(groups[i := h], HasReset(m)) < |groups|
    ensures m in h.reset && m in groups[i].reset ==> Count(groups[i := h], HasReset(m)) == Count(groups, HasReset(m))
  {
    CountUpdate(groups, i, h, Calling(m));
    CountUpdate(groups, i, h, Unacked(m));
    CountUpdate(groups, i, h, HasReset(m));
    if m !in h.reset {
      CountAll(groups[i := h], HasReset(m), i);
    }
  }

  lemma ActKeepsBounded(s: State, i: nat, a: Action, m: nat, extra: nat)
    requires i < |s.groups| && CanDo(|s.messages|, s.groups[i], a)
    requires ClaimOk(s.groups[i]) && Bounded(s, m, extra)
    ensures Bounded(Do(s, By(i, a)), m, extra + Excess(s.groups[i], a, m))
  {
    var h := Do(s, By(i, a)).groups[i];
    ActPays(s, i, a, m);
    OwedUpdate(s.groups, i, h, m);
    DoUpdates(s, i, a);
  }

  lemma DoUpdates(s: State, i: nat, a: Action)
    requires i < |s.groups| && CanDo(|s.messages|, s.groups[i], a)
    ensures Do(s, By(i, a)).groups == s.groups[i := Do(s, By(i, a)).groups[i]]
  {
  }

  lemma StepKeepsBounded(s: State, step: Step, m: nat, extra: nat)
    requires ClaimsOk(s) && Bounded(s, m, extra) && Enabled(s, step)
    ensures var t := Do(s, step);
            ClaimsOk(t) && Bounded(t, m, extra + StepExcess(s, step, m)) && |t.groups| == |s.groups|
  {
    if step.By? {
      var g := s.groups[step.group];
      ActKeepsClaimOk(|s.messages|, g, step.action, Retries(s, g, step.action));
      ActKeepsBounded(s, step.group, step.action, m, extra);
    }
  }

  lemma {:induction false} RunKeepsBounded(s: State, steps: seq<Step>, m: nat, extra: nat)
    requires ClaimsOk(s) && Bounded(s, m, extra) && Runs(s, steps)
    ensures ClaimsOk(Exec(s, steps)) && Bounded(Exec(s, steps), m, extra + Excesses(s, steps, m))
    ensures |Exec(s, steps).groups| == |s.groups|
    decreases |steps|
  {
    if steps != [] {
      StepKeepsBounded(s, steps[0], m, extra);
      RunKeepsBounded(Do(s, steps[0]), steps[1..], m, extra + StepExcess(s, steps[0], m));
    }
  }

  /**
   With `n` groups on the stream the claim path calls handlers at most 2n times in total for one message, however
   often groups crash and passes are repeated: two attempts per counter life, and each group ends at most one. Every
   increment without an answer adds at most one call, every lost acknowledgement of the claim path at most two.
   */
  lemma SharedRetryBound(n: nat, steps: seq<Step>, m: nat)
    requires Runs(Start(n), steps)
    ensures Get(Exec(Start(n), steps).calls, m) <= 2 * n + Excesses(Start(n), steps, m)
    ensures AllCounted(steps) ==> Get(Exec(Start(n), steps).calls, m) <= 2 * n
  {
    var s := Start(n);
    CountNone(s.groups, Calling(m));
    CountNone(s.groups, Unacked(m));
    CountNone(s.groups, HasReset(m));
    RunKeepsBounded(s, steps, m, 0);
    if AllCounted(steps) {
      NoExcess(s, steps, m);
    }
  }

  /** The commands that the retry bound counts on take effect. */
  predicate Counted(step: Step) {
    step.By? ==>
      (step.action.IncrementCounter? ==> step.action.outcome.Answered?) &&
      step.action !in {AckClaimed(false), AckDeadLetter(false)}
  }

  ghost predicate AllCounted(steps: seq<Step>) {
    forall j :: 0 <= j < |steps| ==> Counted(steps[j])
  }

  lemma {:induction false} NoExcess(s: State, steps: seq<Step>, m: nat)
    requires Runs(s, steps) && AllCounted(steps)
    ensures Excesses(s, steps, m) == 0
    decreases |steps|
  {
    if steps != [] {
      assert Counted(steps[0]);
      NoExcess(Do(s, steps[0]), steps[1..], m);
    }
  }

  // ----- A batch of the main loop -----

  /** Beside group `i` nothing of a state changes. */
  ghost predicate OnlyGroup(s: State, t: State, i: nat) {
    && i < |s.groups| == |t.groups| && t == s.(groups := t.groups)
    && forall j :: 0 <= j < |s.groups| && j != i ==> t.groups[j] == s.groups[j]
  }

  /** The main loop handles one message and acknowledges it if that worked. */
  lemma WorkOne(s: State, steps: seq<Step>, i: nat, ok: bool) returns (more: seq<Step>)
    requires Runs(s, steps)
    requires var t := Exec(s, steps); i < |t.groups| && t.groups[i].work != [] && !t.groups[i].workHandled
    ensures Runs(s, more) && OnlyGroup(Exec(s, steps), Exec(s, more), i)
    ensures var g, h := Exec(s, steps).groups[i], Exec(s, more).groups[i]; var m := g.work[0];
            && h == g.(work := g.work[1..], pending := h.pending, handled := h.handled)
            && h.pending == (if ok then g.pending - {m} else g.pending)
            && h.handled == (if ok then g.handled + {m} else g.handled)
  {
    Extend(s, steps, By(i, Handle(ok)));
    more := steps + [By(i, Handle(ok))];
    if ok {
      Extend(s, more, By(i, Ack(true)));
      more := more + [By(i, Ack(true))];
    }
  }

  /** Group `h` is `g` with the first `k` messages of its work worked off. */
  ghost predicate WorkedOff(g: Group, h: Group, k: nat, ok: nat -> bool)
    requires k <= |g.work|
  {
    && h == g.(work := g.work[k..], pending := h.pending, handled := h.handled)
    && (forall m :: m in h.pending <==> m in g.pending && !(m in g.work[..k] && ok(m)))
    && (forall m :: m in h.handled <==> m in g.handled || (m in g.work[..k] && ok(m)))
  }

  lemma WorkedOffNext(g: Group, h: Group, l: Group, k: nat, ok: nat -> bool)
    requires k < |g.work| && WorkedOff(g, h, k, ok)
    requires var m := h.work[0];
             && l == h.(work := h.work[1..], pending := l.pending, handled := l.handled)
             && l.pending == (if ok(m) then h.pending - {m} else h.pending)
             && l.handled == (if ok(m) then h.handled + {m} else h.handled)
    ensures WorkedOff(g, l, k + 1, ok)
  {
    assert g.work[..k + 1] == g.work[..k] + [g.work[k]];
  }

  lemma WorkOff(s: State, steps: seq<Step>, i: nat, ok: nat -> bool) returns (more: seq<Step>)
    requires Runs(s, steps) && i < |Exec(s, steps).groups| && !Exec(s, steps).groups[i].workHandled
    ensures Runs(s, more) && OnlyGroup(Exec(s, steps), Exec(s, more), i)
    ensures var g := Exec(s, steps).groups[i]; WorkedOff(g, Exec(s, more).groups[i], |g.work|, ok)
  {
    var t := Exec(s, steps);
    var g := t.groups[i];
    more := steps;
    for k := 0 to |g.work|
      invariant Runs(s, more) && OnlyGroup(t, Exec(s, more), i) && WorkedOff(g, Exec(s, more).groups[i], k, ok)
    {
      var h := Exec(s, more).groups[i];
      more := WorkOne(s, more, i, ok(h.work[0]));
      WorkedOffNext(g, h, Exec(s, more).groups[i], k, ok);
    }
  }

  /**
   A batch that the main loop reads and works off leaves exactly the messages pending on which the handler failed, and
   touches nothing but its own group: no counter, no dead letter, no other group.
   */
  lemma BatchLeavesFailures(s: State, i: nat, count: nat, ok: nat -> bool) returns (steps: seq<Step>)
    requires i < |s.groups| && Placed(|s.messages|, s.groups[i]) && Enabled(s, By(i, Deliver(count, true)))
    ensures Runs(s, steps) && OnlyGroup(s, Exec(s, steps), i)
    ensures var g, h := s.groups[i], Exec(s, steps).groups[i];
            && h.work == [] && h.delivered == g.delivered + count
            && (forall m :: m in h.pending <==> m in g.pending || (g.delivered <= m < h.delivered && !ok(m)))
            && (forall m :: m in h.handled <==> m in g.handled || (g.delivered <= m < h.delivered && ok(m)))
  {
    Extend(s, [], By(i, Deliver(count, true)));
    var read := Exec(s, [] + [By(i, Deliver(count, true))]).groups[i];
    assert read.work[..|read.work|] == Fresh(s.groups[i].delivered, count);
    steps := WorkOff(s, [] + [By(i, Deliver(count, true))], i, ok);
  }

  /** So does a page of pending messages that a restarted group recovers. */
  lemma PageLeavesFailures(s: State, i: nat, page: seq<nat>, ok: nat -> bool) returns (steps: seq<Step>)
    requires i < |s.groups| && Enabled(s, By(i, Recover(page)))
    ensures Runs(s, steps) && OnlyGroup(s, Exec(s, steps), i)
    ensures var g, h := s.groups[i], Exec(s, steps).groups[i];
            && h.work == [] && h.delivered == g.delivered
            && (forall m :: m in h.pending <==> m in g.pending && (m in page ==> !ok(m)))
            && (forall m :: m in h.handled <==> m in g.handled || (m in page && ok(m)))
  {
    Extend(s, [], By(i, Recover(page)));
    assert page[..|page|] == page;
    steps := WorkOff(s, [] + [By(i, Recover(page))], i, ok);
  }

  // ----- The bound is reached -----

  lemma {:induction false} Extend(s: State, steps: seq<Step>, step: Step)
    requires Runs(s, steps) && Enabled(Exec(s, steps), step)
    ensures Runs(s, steps + [step]) && Exec(s, steps + [step]) == Do(Exec(s, steps), step)
    decreases |steps|
  {
    if steps != [] {
      Extend(Do(s, steps[0]), steps[1..], step);
      assert (steps + [step])[1..] == steps[1..] + [step];
    }
  }

  lemma Take(s: State, steps: seq<Step>, step: Step) returns (more: seq<Step>)
    requires Runs(s, steps) && Enabled(Exec(s, steps), step) && AllCounted(steps) && Counted(step)
    ensures Runs(s, more) && Exec(s, more) == Do(Exec(s, steps), step) && AllCounted(more)
  {
    Extend(s, steps, step);
    more := steps + [step];
  }

  /** The group is between passes with message 0 stale. */
  ghost predicate Stale(g: Group) {
    g.claiming && g.work == [] && !g.workHandled && g.claim == [] && 0 in g.pending && 0 < g.delivered
  }

  /** One attempt of group `k` on message 0: claim, count, call. */
  lemma Attempt(s: State, steps: seq<Step>, k: nat, ok: bool) returns (more: seq<Step>)
    requires Runs(s, steps) && AllCounted(steps)
    requires var t := Exec(s, steps); k < |t.groups| && Stale(t.groups[k]) && Get(t.counters, 0) + 1 < RETRY_LIMIT
    ensures Runs(s, more) && AllCounted(more)
    ensures var t, u := Exec(s, steps), Exec(s, more);
            && |u.groups| == |t.groups| && (forall i :: 0 <= i < |t.groups| && i != k ==> u.groups[i] == t.groups[i])
            && Get(u.calls, 0) == Get(t.calls, 0) + 1 && Get(u.counters, 0) == Get(t.counters, 0) + 1
            && (!ok ==> Stale(u.groups[k]) && u.messages == t.messages && u.deadLetters == t.deadLetters &&
                        u.groups[k].handled == t.groups[k].handled)
            && (ok ==> At(u.groups[k], AckHandled) && u.groups[k].claim == [0])
  {
    more := Take(s, steps, By(k, Claim([0])));
    more := Take(s, more, By(k, IncrementCounter(Answered)));
    more := Take(s, more, By(k, CallClaimed(ok)));
  }

  /** A group tries twice, succeeds the second time and removes the counter. */
  lemma TwoAttempts(s: State, steps: seq<Step>, k: nat) returns (more: seq<Step>)
    requires Runs(s, steps) && AllCounted(steps)
    requires var t := Exec(s, steps); k < |t.groups| && Stale(t.groups[k]) && Get(t.counters, 0) == 0
    ensures Runs(s, more) && AllCounted(more)
    ensures var t, u := Exec(s, steps), Exec(s, more);
            && |u.groups| == |t.groups| && (forall i :: 0 <= i < |t.groups| && i != k ==> u.groups[i] == t.groups[i])
            && Get(u.calls, 0) == Get(t.calls, 0) + 2 && Get(u.counters, 0) == 0
  {
    more := Attempt(s, steps, k, false);
    more := Attempt(s, more, k, true);
    more := Take(s, more, By(k, AckClaimed(true)));
    more := Take(s, more, By(k, DeleteClaimedCounter(true)));
  }

  lemma FirstDelivery(g: Group)
    requires g == NEW_GROUP.(claiming := true)
    ensures Act(g, Deliver(1, true), 1, 0) == g.(delivered := 1, pending := {0}, work := [0])
  {
    assert 0 in Fresh(0, 1) && Fresh(0, 1) == [0];
    assert g.pending + (set m | m in [0]) == {0};
  }

  /** An action that touches nothing but its group. */
  lemma TakeQuiet(s: State, steps: seq<Step>, k: nat, a: Action) returns (more: seq<Step>)
    requires Runs(s, steps) && AllCounted(steps) && (a.StartClaims? || a.Deliver? || a.Handle?)
    requires Enabled(Exec(s, steps), By(k, a))
    ensures Runs(s, more) && AllCounted(more)
    ensures var t := Exec(s, steps);
            Exec(s, more) == t.(groups := t.groups[k := Act(t.groups[k], a, |t.messages|, 0)])
  {
    more := Take(s, steps, By(k, a));
  }

  /** A new group starts, reads message 0 and fails to handle it. */
  lemma BecomeStale(s: State, steps: seq<Step>, k: nat) returns (more: seq<Step>)
    requires Runs(s, steps) && AllCounted(steps)
    requires var t := Exec(s, steps); |t.messages| == 1 && k < |t.groups| && t.groups[k] == NEW_GROUP
    ensures Runs(s, more) && AllCounted(more)
    ensures var t, u := Exec(s, steps), Exec(s, more);
            && u == t.(groups := u.groups) && |u.groups| == |t.groups|
            && Stale(u.groups[k]) && u.groups[k].handled == {}
            && forall i :: 0 <= i < |t.groups| && i != k ==> u.groups[i] == t.groups[i]
  {
    FirstDelivery(NEW_GROUP.(claiming := true));
    more := TakeQuiet(s, steps, k, StartClaims);
    more := TakeQuiet(s, more, k, Deliver(1, true));
    more := TakeQuiet(s, more, k, Handle(false));
  }

  /** The retry bound is exact: for every number of groups some run makes that many calls. */
  lemma RetryBoundReached(n: nat) returns (steps: seq<Step>)
    ensures Runs(Start(n), steps) && AllCounted(steps)
    ensures Get(Exec(Start(n), steps).calls, 0) == 2 * n
  {
    var s := Start(n);
    steps := Take(s, [], Publish("m"));
    for k := 0 to n
      invariant Runs(s, steps) && AllCounted(steps)
      invariant var t := Exec(s, steps);
                |t.messages| == 1 && |t.groups| == n && Get(t.counters, 0) == 0 && Get(t.calls, 0) == 0 &&
                (forall i :: 0 <= i < k ==> Stale(t.groups[i])) && (forall i :: k <= i < n ==> t.groups[i] == NEW_GROUP)
    {
      steps := BecomeStale(s, steps, k);
    }
    for k := 0 to n
      invariant Runs(s, steps) && AllCounted(steps)
      invariant var t := Exec(s, steps);
                |t.groups| == n && Get(t.counters, 0) == 0 && Get(t.calls, 0) == 2 * k &&
                forall i :: k <= i < n ==> Stale(t.groups[i])
    {
      steps := TwoAttempts(s, steps, k);
    }
  }

  // ----- A lost message -----

  /** Delivered, and neither pending nor handled nor in the dead-letter stream. */
  ghost predicate Lost(s: State, i: nat, m: nat) {
    && i < |s.groups| && m < |s.messages|
    && m < s.groups[i].delivered && m !in s.groups[i].pending && m !in s.groups[i].handled
    && s.messages[m] !in s.deadLetters
  }

  /** It does happen: when the append to the dead-letter stream fails, the message is acknowledged all the same. */
  lemma FailedAppendLoses(values: Values) returns (steps: seq<Step>)
    ensures Runs(Start(1), steps) && AllCounted(steps) && Lost(Exec(Start(1), steps), 0, 0)
  {
    var s := Start(1);
    steps := Take(s, [], Publish(values));
    steps := BecomeStale(s, steps, 0);
    steps := Attempt(s, steps, 0, false);
    steps := Attempt(s, steps, 0, false);
    steps := Take(s, steps, By(0, Claim([0])));
    steps := Take(s, steps, By(0, IncrementCounter(Answered)));
    steps := Take(s, steps, By(0, AddDeadLetter(false)));
    steps := Take(s, steps, By(0, AckDeadLetter(true)));
  }

  /** And only so: in any state of a run, a lost message had a dead-letter append fail. */
  lemma LostWasDropped(s: State, i: nat, m: nat)
    requires Conserved(s) && Lost(s, i, m)
    ensures m in s.groups[i].dropped
  {
    assert GroupOk(|s.messages|, s.groups[i]) && DeadKept(s, s.groups[i]);
    assert Accounted(s.groups[i], m);
  }
}
