/**
 Recovery of a consumer's pending entries after a start: read the first 50 from the beginning, handle each,
 acknowledge the successes, and stop at the first short page or failed read.
 */
module Recovery {
  const PAGE := 50

  function Page(pending: seq<nat>): (page: seq<nat>)
    ensures |page| == if |pending| < PAGE then |pending| else PAGE
  {
    if |pending| < PAGE then pending else pending[..PAGE]
  }

  /** The entries of `s` in `p`, in order. */
  function Filter(s: seq<nat>, p: set<nat>): seq<nat> {
    if s == [] then [] else Filter(s[..|s| - 1], p) + (if s[|s| - 1] in p then [s[|s| - 1]] else [])
  }

  lemma {:induction false} FilterConcat(a: seq<nat>, b: seq<nat>, p: set<nat>)
    ensures Filter(a + b, p) == Filter(a, p) + Filter(b, p)
  {
    if b == [] {
      assert a + b == a;
    } else {
      assert (a + b)[..|a + b| - 1] == a + b[..|b| - 1];
      FilterConcat(a, b[..|b| - 1], p);
    }
  }

  /** With `FilterConcat` this says all about `Filter`: it keeps exactly the members of `p`, in order. */
  lemma FilterOne(m: nat, p: set<nat>)
    ensures Filter([m], p) == if m in p then [m] else []
  {
    assert [m][..0] == [];
  }

  lemma {:induction false} FilterLength(s: seq<nat>, p: set<nat>)
    ensures |Filter(s, p)| <= |s|
  {
    if s != [] {
      FilterLength(s[..|s| - 1], p);
    }
  }

  lemma {:induction false} FilterAll(s: seq<nat>, p: set<nat>)
    requires forall i :: 0 <= i < |s| ==> s[i] in p
    ensures Filter(s, p) == s
  {
    if s != [] {
      FilterAll(s[..|s| - 1], p);
    }
  }

  lemma {:induction false} FilterTwice(s: seq<nat>, p: set<nat>)
    ensures Filter(Filter(s, p), p) == Filter(s, p)
  {
    if s != [] {
      var front, last := s[..|s| - 1], s[|s| - 1];
      FilterTwice(front, p);
      FilterConcat(Filter(front, p), if last in p then [last] else [], p);
      FilterOne(last, p);
    }
  }

  /** What is left of a list when the entries among the first `k` on which the handler succeeds are taken off. */
  function Sift(pending: seq<nat>, fails: set<nat>, k: nat): seq<nat>
    requires k <= |pending|
    decreases k
  {
    if k == 0 then pending
    else (if pending[0] in fails then [pending[0]] else []) + Sift(pending[1..], fails, k - 1)
  }

  lemma {:induction false} SiftIsFilter(pending: seq<nat>, fails: set<nat>, k: nat)
    requires k <= |pending|
    ensures Sift(pending, fails, k) == Filter(pending[..k], fails) + pending[k..]
    decreases k
  {
    if k > 0 {
      SiftIsFilter(pending[1..], fails, k - 1);
      assert pending[..k] == [pending[0]] + pending[1..][..k - 1];
      FilterConcat([pending[0]], pending[1..][..k - 1], fails);
      assert [pending[0]][..0] == [];
    }
  }

  lemma {:induction false} SiftShrinks(pending: seq<nat>, fails: set<nat>, k: nat)
    requires k <= |pending|
    ensures |Sift(pending, fails, k)| <= |pending|
    ensures (exists i :: 0 <= i < k && pending[i] !in fails) ==> |Sift(pending, fails, k)| < |pending|
    decreases k
  {
    if k > 0 {
      SiftShrinks(pending[1..], fails, k - 1);
      if i :| 0 < i < k && pending[i] !in fails {
        assert pending[1..][i - 1] !in fails;
      }
    }
  }

  lemma {:induction false} SiftNone(pending: seq<nat>, fails: set<nat>, k: nat)
    requires k <= |pending| && forall i :: 0 <= i < k ==> pending[i] !in fails
    ensures Sift(pending, fails, k) == pending[k..]
    decreases k
  {
    if k > 0 {
      SiftNone(pending[1..], fails, k - 1);
    }
  }

  /** What stays pending after one read, when the handler fails exactly on the messages in `fails`. */
  function AfterRead(pending: seq<nat>, fails: set<nat>): seq<nat> {
    Sift(pending, fails, |Page(pending)|)
  }

  /** For each read the messages on which the handler fails or whose acknowledgement is lost; none without an entry. */
  type Failures = imap<nat, set<nat>>

  function FailingIn(fails: Failures, n: nat): set<nat> {
    if n in fails then fails[n] else {}
  }

  /** The pending list after `n` reads; `fails` tells on which messages the handler fails during each. */
  function AfterReads(pending: seq<nat>, fails: Failures, n: nat): seq<nat>
    decreases n
  {
    if n == 0 then pending else AfterRead(AfterReads(pending, fails, n - 1), FailingIn(fails, n - 1))
  }

  /** The handler calls of the first `n` reads. */
  function CallsOf(pending: seq<nat>, fails: Failures, n: nat): seq<nat>
    decreases n
  {
    if n == 0 then [] else CallsOf(pending, fails, n - 1) + Page(AfterReads(pending, fails, n - 1))
  }

  /** Read number `n` returns a full page. */
  ghost predicate FullRead(pending: seq<nat>, fails: Failures, n: nat) {
    |AfterReads(pending, fails, n)| >= PAGE
  }

  /** The first `n` reads return full pages. */
  ghost predicate AllFull(pending: seq<nat>, fails: Failures, n: nat) {
    forall k: nat :: k < n ==> FullRead(pending, fails, k)
  }

  // ----- When recovery ends -----

  /** Some read comes back short, which ends the loop. */
  ghost predicate Ends(pending: seq<nat>, fails: Failures) {
    exists n: nat :: !FullRead(pending, fails, n)
  }

  /** Read number `n` returns a full page and the handler fails on all of it. */
  ghost predicate InVain(pending: seq<nat>, fails: Failures, n: nat) {
    var before := AfterReads(pending, fails, n);
    |before| >= PAGE && forall i :: 0 <= i < PAGE ==> before[i] in FailingIn(fails, n)
  }

  /** Every read from number `n` on is in vain. */
  ghost predicate Stuck(pending: seq<nat>, fails: Failures, n: nat) {
    forall k: nat :: n <= k ==> InVain(pending, fails, k)
  }

  /** A read never adds to the pending list, and a full page with a success shrinks it. */
  lemma NextSize(pending: seq<nat>, fails: Failures, n: nat)
    ensures |AfterReads(pending, fails, n + 1)| <= |AfterReads(pending, fails, n)|
    ensures FullRead(pending, fails, n) && !InVain(pending, fails, n) ==>
              |AfterReads(pending, fails, n + 1)| < |AfterReads(pending, fails, n)|
  {
    var before := AfterReads(pending, fails, n);
    SiftShrinks(before, FailingIn(fails, n), |Page(before)|);
  }

  lemma {:induction false} SizesFall(pending: seq<nat>, fails: Failures, m: nat, n: nat)
    requires m <= n
    ensures |AfterReads(pending, fails, n)| <= |AfterReads(pending, fails, m)|
    decreases n - m
  {
    if m < n {
      NextSize(pending, fails, m);
      SizesFall(pending, fails, m + 1, n);
    }
  }

  lemma SuccessShrinks(pending: seq<nat>, fails: Failures, k: nat, n: nat)
    requires k <= n && FullRead(pending, fails, n) && !InVain(pending, fails, n)
    ensures |AfterReads(pending, fails, n + 1)| < |AfterReads(pending, fails, k)|
  {
    NextSize(pending, fails, n);
    SizesFall(pending, fails, k, n);
  }

  lemma NotInVain(pending: seq<nat>, fails: Failures, k: nat) returns (n: nat)
    requires !Stuck(pending, fails, k)
    ensures k <= n && !InVain(pending, fails, n)
  {
    n :| k <= n && !InVain(pending, fails, n);
  }

  /** As long as some later read has a success or is short, the list gets shorter until a read is short. */
  lemma {:induction false} ShortReadComes(pending: seq<nat>, fails: Failures, k: nat) returns (n: nat)
    requires forall m: nat :: !Stuck(pending, fails, m)
    ensures !FullRead(pending, fails, n)
    decreases |AfterReads(pending, fails, k)|
  {
    n := NotInVain(pending, fails, k);
    if FullRead(pending, fails, n) {
      SuccessShrinks(pending, fails, k, n);
      n := ShortReadComes(pending, fails, n + 1);
    }
  }

  /**
   However the handler's failures vary from read to read, recovery ends exactly unless from some read on every page
   is full and the handler fails on all of it.
   */
  lemma RecoveryEndsIff(pending: seq<nat>, fails: Failures)
    ensures Ends(pending, fails) <==> forall n: nat :: !Stuck(pending, fails, n)
  {
    if n: nat :| Stuck(pending, fails, n) {
      forall k: nat ensures FullRead(pending, fails, k) {
        var late := if k < n then n else k;
        assert InVain(pending, fails, late);
        SizesFall(pending, fails, k, late);
      }
    } else {
      var n := ShortReadComes(pending, fails, 0);
    }
  }

  /** In particular recovery ends if every full page has at least one success. */
  lemma ProgressEnds(pending: seq<nat>, fails: Failures)
    requires forall n: nat :: FullRead(pending, fails, n) ==> !InVain(pending, fails, n)
    ensures Ends(pending, fails)
  {
    RecoveryEndsIff(pending, fails);
    forall n: nat ensures !Stuck(pending, fails, n) {
      assert InVain(pending, fails, n) ==> FullRead(pending, fails, n);
    }
  }

  lemma AfterReadKeepsFailing(pending: seq<nat>, fails: set<nat>)
    ensures Filter(AfterRead(pending, fails), fails) == Filter(pending, fails)
  {
    var k := |Page(pending)|;
    var page, rest := pending[..k], pending[k..];
    assert pending == page + rest;
    SiftIsFilter(pending, fails, k);
    FilterConcat(page, rest, fails);
    FilterConcat(Filter(page, fails), rest, fails);
    FilterTwice(page, fails);
  }

  /** Messages on which the handler always fails stay pending. */
  lemma {:induction false} FailingStay(pending: seq<nat>, fails: Failures, always: set<nat>, n: nat)
    requires forall k: nat :: FailingIn(fails, k) == always
    ensures Filter(AfterReads(pending, fails, n), always) == Filter(pending, always)
  {
    if n > 0 {
      FailingStay(pending, fails, always, n - 1);
      AfterReadKeepsFailing(AfterReads(pending, fails, n - 1), always);
    }
  }

  lemma PageInVain(before: seq<nat>, always: set<nat>)
    requires |before| >= PAGE && forall i :: 0 <= i < PAGE ==> before[i] in always
    ensures |Filter(before, always)| >= PAGE
  {
    FilterAll(before[..PAGE], always);
    assert before == before[..PAGE] + before[PAGE..];
    FilterConcat(before[..PAGE], before[PAGE..], always);
  }

  /**
   With a handler that keeps failing on the same messages, recovery ends exactly when fewer than a page of the
   pending messages are such; with a full page of them it reads that page forever.
   */
  lemma FixedFailuresEndIff(pending: seq<nat>, fails: Failures, always: set<nat>)
    requires forall k: nat :: FailingIn(fails, k) == always
    ensures Ends(pending, fails) <==> |Filter(pending, always)| < 50
  {
    if |Filter(pending, always)| < PAGE {
      forall n: nat ensures !InVain(pending, fails, n) {
        FailingStay(pending, fails, always, n);
        if InVain(pending, fails, n) {
          PageInVain(AfterReads(pending, fails, n), always);
        }
      }
      ProgressEnds(pending, fails);
    } else {
      forall n: nat ensures FullRead(pending, fails, n) {
        FailingStay(pending, fails, always, n);
        FilterLength(AfterReads(pending, fails, n), always);
      }
    }
  }

  // ----- The loop -----

  /** The element behind `front` can be kept there or dropped. */
  lemma DropMiddle(front: seq<nat>, m: nat, tail: seq<nat>, all: seq<nat>)
    requires all == [m] + tail
    ensures front + all == (front + [m]) + tail && (front + all)[|front|] == m
    ensures (front + all)[..|front|] + (front + all)[|front| + 1..] == front + tail
  {
  }

  class PendingEntries {
    var pending: seq<nat>    // in id order
    var handled: seq<nat>    // handler calls so far, in order
    var readCount: nat

    constructor (pending: seq<nat>)
      ensures this.pending == pending && handled == [] && readCount == 0
    {
      this.pending, handled, readCount := pending, [], 0;
    }

    method ReadPage() returns (page: seq<nat>)
      modifies this`readCount
      ensures page == Page(pending) && readCount == old(readCount) + 1
    {
      page := if |pending| < PAGE then pending else pending[..PAGE];
      readCount := readCount + 1;
    }

    /** Handles the message at position `kept`; a success takes it off the pending list. */
    method HandleOne(m: nat, kept: nat, fails: set<nat>, ghost tail: seq<nat>) returns (keptNow: nat)
      requires kept < |pending| && pending == pending[..kept] + ([m] + tail)
      modifies this`pending, this`handled
      ensures handled == old(handled) + [m]
      ensures keptNow == kept + (if m in fails then 1 else 0)
      ensures pending == old(pending)[..kept] + (if m in fails then [m] else []) + tail
    {
      DropMiddle(pending[..kept], m, tail, [m] + tail);
      handled := handled + [m];
      if m in fails {
        keptNow := kept + 1;
      } else {
        pending := pending[..kept] + pending[kept + 1..];
        keptNow := kept;
      }
    }

    /** Handles a page from the front; the failures stay at the front of the pending list. */
    method HandlePage(page: seq<nat>, fails: set<nat>)
      requires page <= pending
      modifies this`pending, this`handled
      ensures pending == Filter(page, fails) + old(pending)[|page|..]
      ensures handled == old(handled) + page
    {
      var kept := 0;
      ghost var rest := pending[|page|..];
      assert pending == [] + (page + rest);
      for i := 0 to |page|
        invariant kept == |Filter(page[..i], fails)|
        invariant pending == Filter(page[..i], fails) + (page[i..] + rest)
        invariant handled == old(handled) + page[..i]
      {
        assert page[..i + 1][..i] == page[..i];
        assert page[i..] + rest == [page[i]] + (page[i + 1..] + rest);
        kept := HandleOne(page[i], kept, fails, page[i + 1..] + rest);
      }
      assert page[..|page|] == page;
    }

    /** One turn of the loop: a read and, unless it is empty, the handling of its page. */
    method RecoverPage(fails: Failures, n: nat, ghost all: seq<nat>, ghost before: seq<nat>) returns (size: nat)
      requires Recovered(all, fails, n, pending, before, handled)
      modifies this
      ensures Recovered(all, fails, n + 1, pending, before, handled)
      ensures size == (if |old(pending)| < 50 then |old(pending)| else 50) && readCount == old(readCount) + 1
      ensures pending == Filter(old(pending)[..size], FailingIn(fails, n)) + old(pending)[size..]
      ensures handled == old(handled) + old(pending)[..size]
      ensures size == 50 <==> FullRead(all, fails, n)
    {
      var page := ReadPage();
      RecoveredNext(all, fails, n, pending, before, handled);
      size := |page|;
      SiftIsFilter(pending, FailingIn(fails, n), size);
      assert page == pending[..size];
      if size > 0 {
        HandlePage(page, FailingIn(fails, n));
      } else {
        assert page == [] && handled + page == handled;
      }
    }

    /**
     The whole recovery: `n` full reads and then a first short one, unless read number `bad` fails before that. Every
     recovery that comes to an end is covered by some `bad`.
     */
    method RecoverPendingMessages(fails: Failures, bad: nat) returns (n: nat)
      modifies this
      ensures n <= bad && AllFull(old(pending), fails, n)
      ensures n == bad ==> Recovered(old(pending), fails, n, pending, old(handled), handled)
      ensures n < bad ==> !FullRead(old(pending), fails, n) && readCount == old(readCount) + n + 1 &&
                          Recovered(old(pending), fails, n + 1, pending, old(handled), handled)
    {
      ghost var all, before, first := pending, handled, readCount;
      n := 0;
      while n < bad
        invariant n <= bad && AllFull(all, fails, n)
        invariant Recovered(all, fails, n, pending, before, handled) && readCount == first + n
      {
        var size := RecoverPage(fails, n, all, before);
        if size < PAGE {
          return;
        }
        n := n + 1;
      }
    }
  }

  /** After `n` reads: what is pending and which calls were made. */
  ghost predicate Recovered(all: seq<nat>, fails: Failures, n: nat, pending: seq<nat>, before: seq<nat>,
                            handled: seq<nat>)
  {
    pending == AfterReads(all, fails, n) && handled == before + CallsOf(all, fails, n)
  }

  lemma Associate(a: seq<nat>, b: seq<nat>, c: seq<nat>)
    ensures a + b + c == a + (b + c)
  {
  }

  lemma RecoveredNext(all: seq<nat>, fails: Failures, n: nat, pending: seq<nat>, before: seq<nat>,
                      handled: seq<nat>)
    requires Recovered(all, fails, n, pending, before, handled)
    ensures Recovered(all, fails, n + 1, AfterRead(pending, FailingIn(fails, n)), before, handled + Page(pending))
    ensures FullRead(all, fails, n) <==> |pending| >= PAGE
  {
    Associate(before, CallsOf(all, fails, n), Page(pending));
  }

  // ----- Recovery without failures -----

  /** The handler fails on none of these messages. */
  ghost predicate Succeeds(s: seq<nat>, fails: Failures) {
    forall i, n: nat :: 0 <= i < |s| ==> s[i] !in FailingIn(fails, n)
  }

  lemma SplitPage(s: seq<nat>, lo: nat, hi: nat)
    requires lo <= hi == lo + PAGE <= |s|
    ensures Page(s[lo..]) == s[lo..hi] && s[lo..][PAGE..] == s[hi..] && s[..lo] + s[lo..hi] == s[..hi]
  {
  }

  /** The first `k` full reads take the first `k` pages off the list. */
  lemma {:induction false} CleanReads(pending: seq<nat>, fails: Failures, k: nat, read: nat)
    requires Succeeds(pending, fails) && read == k * PAGE <= |pending|
    ensures AfterReads(pending, fails, k) == pending[read..] && CallsOf(pending, fails, k) == pending[..read]
  {
    if k > 0 {
      var before := read - PAGE;
      CleanReads(pending, fails, k - 1, before);
      SiftNone(pending[before..], FailingIn(fails, k - 1), PAGE);
      SplitPage(pending, before, read);
    }
  }

  lemma CleanReadCount(pending: seq<nat>, fails: Failures, n: nat)
    requires Succeeds(pending, fails) && !FullRead(pending, fails, n) && AllFull(pending, fails, n)
    ensures n == |pending| / PAGE
  {
    var k := |pending| / PAGE;
    if k < n {
      assert FullRead(pending, fails, k);
      CleanReads(pending, fails, k, k * PAGE);
    } else if n < k {
      CleanReads(pending, fails, n, n * PAGE);
    }
  }

  /** A short read of `rest`, after reads that took `front`, takes all that is left. */
  lemma LastCleanRead(pending: seq<nat>, fails: Failures, k: nat, front: seq<nat>, rest: seq<nat>)
    requires pending == front + rest && |rest| < PAGE && forall i :: 0 <= i < |rest| ==> rest[i] !in FailingIn(fails, k)
    requires AfterReads(pending, fails, k) == rest && CallsOf(pending, fails, k) == front
    ensures AfterReads(pending, fails, k + 1) == [] && CallsOf(pending, fails, k + 1) == pending
  {
    SiftNone(rest, FailingIn(fails, k), |rest|);
  }

  /**
   Without handler errors recovery takes one read per full page and one more, calls the handler once for every
   pending message in id order and leaves nothing pending.
   */
  lemma CleanRecoveryDrains(pending: seq<nat>, fails: Failures, n: nat)
    requires Succeeds(pending, fails) && !FullRead(pending, fails, n) && AllFull(pending, fails, n)
    ensures n == |pending| / 50
    ensures AfterReads(pending, fails, n + 1) == [] && CallsOf(pending, fails, n + 1) == pending
  {
    CleanReadCount(pending, fails, n);
    CleanEnd(pending, fails, n, n * PAGE);
  }

  lemma CleanEnd(pending: seq<nat>, fails: Failures, n: nat, read: nat)
    requires Succeeds(pending, fails) && read == n * PAGE <= |pending| < read + PAGE
    ensures AfterReads(pending, fails, n + 1) == [] && CallsOf(pending, fails, n + 1) == pending
  {
    CleanReads(pending, fails, n, read);
    var rest := pending[read..];
    assert pending == pending[..read] + rest;
    assert forall i :: 0 <= i < |rest| ==> rest[i] == pending[read + i];
    LastCleanRead(pending, fails, n, pending[..read], rest);
  }
}
