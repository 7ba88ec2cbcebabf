/**
 The claim pass over one page of claimed messages: each is counted, and then moved to the dead-letter stream or
 handled. Any of its Redis commands may fail without the code noticing. A page that is processed without a crash is a
 run of the steps of module Subscriber, and its outcome for every message is determined by the counter, the handler
 and the failing commands.
 */
module StaleClaims {
  import opened Subscriber

  /** What becomes of the increment for a message, and which of its other commands fail. */
  datatype Faults = Faults(count: Outcome, append: bool, ack: bool, remove: bool)

  ghost predicate Reaches(s: State, steps: seq<Step>, t: State) {
    Runs(s, steps) && Exec(s, steps) == t
  }

  lemma Go(s: State, steps: seq<Step>, t: State, step: Step) returns (more: seq<Step>, u: State)
    requires Reaches(s, steps, t) && Enabled(t, step)
    ensures u == Do(t, step) && Reaches(s, more, u)
  {
    Extend(s, steps, step);
    more, u := steps + [step], Do(t, step);
  }

  /** The group's claim moved on to the next message. */
  ghost predicate MovedOn(t: State, u: State, i: nat) {
    && i < |t.groups| == |u.groups| && u.messages == t.messages
    && t.groups[i].claim != [] && u.groups[i].claim == t.groups[i].claim[1..] && u.groups[i].pc == Increment
  }

  /** Message `m` was acknowledged and its counter removed, as far as the commands worked. */
  ghost predicate Settled(t: State, u: State, i: nat, m: nat, f: Faults)
    requires i < |t.groups| && i < |u.groups|
  {
    && u.counters == (if f.remove then t.counters else t.counters - {m})
    && u.groups[i].pending == (if f.ack then t.groups[i].pending else t.groups[i].pending - {m})
  }

  lemma DeadScript(s: State, steps: seq<Step>, t: State, i: nat, f: Faults) returns (more: seq<Step>, u: State)
    requires Reaches(s, steps, t) && i < |t.groups| && At(t.groups[i], AddDead) && t.groups[i].claim[0] < |t.messages|
    ensures Reaches(s, more, u) && MovedOn(t, u, i) && Settled(t, u, i, t.groups[i].claim[0], f)
    ensures u.deadLetters == t.deadLetters + (if f.append then [] else [t.messages[t.groups[i].claim[0]]])
    ensures u.groups[i].handled == t.groups[i].handled
  {
    more, u := Go(s, steps, t, By(i, AddDeadLetter(!f.append)));
    assert u.groups[i].claim == t.groups[i].claim && u.groups[i].pending == t.groups[i].pending;
    more, u := Go(s, more, u, By(i, AckDeadLetter(!f.ack)));
    assert u.groups[i].claim == t.groups[i].claim && u.counters == t.counters;
    more, u := Go(s, more, u, By(i, DeleteDeadCounter(!f.remove)));
  }

  lemma HandledScript(s: State, steps: seq<Step>, t: State, i: nat, f: Faults) returns (more: seq<Step>, u: State)
    requires Reaches(s, steps, t) && i < |t.groups| && At(t.groups[i], CallHandler)
    ensures Reaches(s, more, u) && MovedOn(t, u, i) && Settled(t, u, i, t.groups[i].claim[0], f)
    ensures u.deadLetters == t.deadLetters
    ensures u.groups[i].handled == t.groups[i].handled + {t.groups[i].claim[0]}
  {
    more, u := Go(s, steps, t, By(i, CallClaimed(true)));
    more, u := Go(s, more, u, By(i, AckClaimed(!f.ack)));
    more, u := Go(s, more, u, By(i, DeleteClaimedCounter(!f.remove)));
  }

  lemma FailedScript(s: State, steps: seq<Step>, t: State, i: nat) returns (more: seq<Step>, u: State)
    requires Reaches(s, steps, t) && i < |t.groups| && At(t.groups[i], CallHandler)
    ensures Reaches(s, more, u) && MovedOn(t, u, i) && u.counters == t.counters && u.deadLetters == t.deadLetters
    ensures u.groups[i].pending == t.groups[i].pending && u.groups[i].handled == t.groups[i].handled
  {
    more, u := Go(s, steps, t, By(i, CallClaimed(false)));
  }

  /** The value an increment returns. */
  function Attempts(counters: map<nat, nat>, m: nat, outcome: Outcome): nat {
    if outcome.Answered? then Get(counters, m) + 1 else 0
  }

  function Incremented(counters: map<nat, nat>, m: nat, outcome: Outcome): map<nat, nat> {
    if outcome.Failed? then counters else counters[m := Get(counters, m) + 1]
  }

  lemma CountScript(s: State, steps: seq<Step>, t: State, i: nat, outcome: Outcome)
    returns (more: seq<Step>, u: State)
    requires Reaches(s, steps, t) && i < |t.groups| && At(t.groups[i], Increment)
    ensures Reaches(s, more, u) && |u.groups| == |t.groups|
    ensures var m := t.groups[i].claim[0]; var retries := Attempts(t.counters, m, outcome);
            && u == t.(counters := Incremented(t.counters, m, outcome), groups := u.groups)
            && u.groups[i] == t.groups[i].(pc := if retries >= RETRY_LIMIT then AddDead else CallHandler)
  {
    more, u := Go(s, steps, t, By(i, IncrementCounter(outcome)));
  }

  class RedisSubscriber {
    const messages: seq<Values>
    var counters: map<nat, nat>      // the stream's retry hash
    var deadLetters: seq<Values>
    var pending: set<nat>            // this group's pending entries
    var handled: seq<nat>            // successful handler calls of this pass

    constructor (messages: seq<Values>, counters: map<nat, nat>, deadLetters: seq<Values>, pending: set<nat>)
      ensures this.messages == messages && this.counters == counters
      ensures this.deadLetters == deadLetters && this.pending == pending && handled == []
    {
      this.messages, this.counters, this.deadLetters, this.pending := messages, counters, deadLetters, pending;
      handled := [];
    }

    /** The Redis side of state `s`, as group `i` sees it. */
    ghost predicate Shows(s: State, i: nat)
      reads this
    {
      && messages == s.messages && counters == s.counters && deadLetters == s.deadLetters
      && i < |s.groups| && pending == s.groups[i].pending && forall m :: m in handled ==> m in s.groups[i].handled
    }

    ghost predicate Untouched(before: map<nat, nat>, was: set<nat>, m: nat)
      reads this
    {
      Get(counters, m) == Get(before, m) && (m in pending <==> m in was)
    }

    /** What one attempt makes of message `m`, which was pending. */
    ghost predicate Attempted(before: map<nat, nat>, handlerOk: nat -> bool, f: Faults, m: nat)
      reads this
      requires m < |messages|
    {
      var retries := Attempts(before, m, f.count);
      var left := if f.count.Failed? then Get(before, m) else Get(before, m) + 1;
      if retries < RETRY_LIMIT && !handlerOk(m) then m in pending && Get(counters, m) == left
      else
        && (m in pending <==> f.ack) && Get(counters, m) == (if f.remove then left else 0)
        && (if retries < RETRY_LIMIT then m in handled else f.append || messages[m] in deadLetters)
    }

    method HIncrBy(m: nat, outcome: Outcome) returns (retries: nat)
      modifies this`counters
      ensures retries == Attempts(old(counters), m, outcome)
      ensures counters == Incremented(old(counters), m, outcome)
    {
      if outcome.Failed? {
        return 0;
      }
      var count := (if m in counters then counters[m] else 0) + 1;
      counters := counters[m := count];
      retries := if outcome.Answered? then count else 0;
    }

    /** The acknowledgement and the removal of the counter that end a successful or a last attempt. */
    method Settle(m: nat, f: Faults)
      modifies this`pending, this`counters
      ensures pending == if f.ack then old(pending) else old(pending) - {m}
      ensures counters == if f.remove then old(counters) else old(counters) - {m}
    {
      if !f.ack {
        pending := pending - {m};
      }
      if !f.remove {
        counters := counters - {m};
      }
    }

    /** The body of the pass for one claimed message, which is at its limit when its third count is answered. */
    method AttemptOne(m: nat, handlerOk: nat -> bool, f: Faults, ghost s: State, ghost i: nat, ghost steps: seq<Step>,
                      ghost t: State)
      returns (ghost more: seq<Step>, ghost u: State)
      requires Reaches(s, steps, t) && Shows(t, i) && m < |messages|
      requires At(t.groups[i], Increment) && t.groups[i].claim[0] == m
      modifies this
      ensures Reaches(s, more, u) && Shows(u, i)
      ensures u.groups[i].claim == t.groups[i].claim[1..] && u.groups[i].pc == Increment
      ensures var count := (if m in old(counters) then old(counters)[m] else 0) + 1;
              var counted := if f.count.Failed? then old(counters) else old(counters)[m := count];
              var atLimit := f.count.Answered? && count >= 3;
              if !atLimit && !handlerOk(m) then
                handled == old(handled) && deadLetters == old(deadLetters) && pending == old(pending) &&
                counters == counted
              else
                && handled == old(handled) + (if atLimit then [] else [m])
                && deadLetters == old(deadLetters) + (if atLimit && !f.append then [messages[m]] else [])
                && pending == (if f.ack then old(pending) else old(pending) - {m})
                && counters == (if f.remove then counted else counted - {m})
    {
      var retries := HIncrBy(m, f.count);
      more, u := CountScript(s, steps, t, i, f.count);
      if retries >= RETRY_LIMIT {
        more, u := DeadScript(s, more, u, i, f);
        if !f.append {
          deadLetters := deadLetters + [messages[m]];
        }
        Settle(m, f);
      } else if handlerOk(m) {
        more, u := HandledScript(s, more, u, i, f);
        handled := handled + [m];
        Settle(m, f);
      } else {
        more, u := FailedScript(s, more, u, i);
      }
    }

    /**
     One message of the pass. It is lost, which means that it is then neither pending nor handled nor among the dead
     letters, exactly at the retry limit when the append fails and the acknowledgement works.
     */
    method ProcessOne(m: nat, handlerOk: nat -> bool, f: Faults, ghost s: State, ghost i: nat, ghost steps: seq<Step>,
                      ghost t: State)
      returns (ghost more: seq<Step>, ghost u: State)
      requires Reaches(s, steps, t) && Shows(t, i) && m < |messages|
      requires At(t.groups[i], Increment) && t.groups[i].claim[0] == m && m in pending
      modifies this
      ensures Reaches(s, more, u) && Shows(u, i)
      ensures u.groups[i].claim == t.groups[i].claim[1..] && u.groups[i].pc == Increment
      ensures Attempted(old(counters), handlerOk, f, m)
      ensures forall k :: k != m ==> Untouched(old(counters), old(pending), k)
      ensures old(deadLetters) <= deadLetters && old(handled) <= handled
      ensures m !in pending && handled == old(handled) && deadLetters == old(deadLetters) <==>
              f.count.Answered? && Get(old(counters), m) + 1 >= 3 && f.append && !f.ack
    {
      more, u := AttemptOne(m, handlerOk, f, s, i, steps, t);
    }

    /** After the first `k` messages of a page: those were attempted, all others are as before. */
    ghost predicate Done(page: seq<nat>, k: nat, before: map<nat, nat>, was: set<nat>, handlerOk: nat -> bool,
                         faults: nat -> Faults)
      reads this
      requires k <= |page|
    {
      && (forall j :: 0 <= j < k ==> page[j] < |messages| && Attempted(before, handlerOk, faults(page[j]), page[j]))
      && forall m :: m !in page[..k] ==> Untouched(before, was, m)
    }

    /** The next message of a page is attempted; the ones before it keep their outcome. */
    method ProcessNext(page: seq<nat>, k: nat, handlerOk: nat -> bool, faults: nat -> Faults,
                       ghost before: map<nat, nat>, ghost was: set<nat>,
                       ghost s: State, ghost i: nat, ghost steps: seq<Step>, ghost t: State)
      returns (ghost more: seq<Step>, ghost u: State)
      requires k < |page| && Done(page, k, before, was, handlerOk, faults) && page[k] !in page[..k]
      requires Reaches(s, steps, t) && Shows(t, i) && page[k] < |messages| && page[k] in was
      requires t.groups[i].claim == page[k..] && t.groups[i].pc == Increment
      modifies this
      ensures Done(page, k + 1, before, was, handlerOk, faults)
      ensures Reaches(s, more, u) && Shows(u, i)
      ensures u.groups[i].claim == page[k + 1..] && u.groups[i].pc == Increment
    {
      var m := page[k];
      assert page[..k + 1] == page[..k] + [m];
      ghost var now, list := counters, pending;
      assert Untouched(before, was, m);
      more, u := ProcessOne(m, handlerOk, faults(m), s, i, steps, t);
      forall j | 0 <= j < k ensures Attempted(before, handlerOk, faults(page[j]), page[j]) {
        assert page[j] in page[..k];
        assert Untouched(now, list, page[j]);
      }
      forall x | x !in page[..k + 1] ensures Untouched(before, was, x) {
        assert x !in page[..k] && x != m;
        assert old(Untouched(before, was, x));
        assert Untouched(now, list, x);
      }
    }

    /**
     One page: every claimed message is attempted once; the others, their counters and their place in the pending
     list are left alone.
     */
    method ClaimPage(page: seq<nat>, handlerOk: nat -> bool, faults: nat -> Faults, ghost s: State, ghost i: nat)
      returns (ghost steps: seq<Step>)
      requires Shows(s, i) && CanDo(|s.messages|, s.groups[i], Claim(page))
      requires forall m :: m in pending ==> m < |messages|
      modifies this
      ensures Runs(s, steps) && Shows(Exec(s, steps), i)
      ensures forall m :: m in page ==> m < |messages| && Attempted(old(counters), handlerOk, faults(m), m)
      ensures forall m :: m !in page ==> Untouched(old(counters), old(pending), m)
    {
      ghost var t;
      steps, t := Go(s, [], s, By(i, Claim(page)));
      for k := 0 to |page|
        invariant Reaches(s, steps, t) && Shows(t, i)
        invariant t.groups[i].claim == page[k..] && t.groups[i].pc == Increment
        invariant Done(page, k, old(counters), old(pending), handlerOk, faults)
      {
        assert page[k] in page;
        steps, t := ProcessNext(page, k, handlerOk, faults, old(counters), old(pending), s, i, steps, t);
      }
      assert page[..|page|] == page;
    }
  }
}
